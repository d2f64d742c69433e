/** The task service as a machine: clients (sw/include/cConn.hpp, sw/src/cConn.cpp), the request and
    response threads of each connection (sw/src/cService.cpp) and the scheduler (sw/src/cSched.cpp),
    one step per write, read, lock section or scheduler pass, interleaved in any way. */
module Service {
  import opened Bytes
  import opened Scheduling
  import opened Framing

  /** The way of requests: the client's counter and the pieces it has yet to write, the bytes on the
      socket, and the pieces the service has read of the request it is reading. History: what was
      asked under each id, the requests issued and not yet read, and whether the read of an argument
      ever gave up. */
  datatype UpLink = UpLink(
    counter: nat, unsent: seq<seq<Byte>>, up: seq<Byte>, got: seq<seq<Byte>>,
    asked: map<int, Request>, inflight: seq<Request>, gaveUp: bool)

  /** Where the request thread of a connection is: reading, holding a server id, after pushing the
      id pair, between the unlocked and the locked half of addTask, or ended by a close request. */
  datatype Requester =
    | Reading
    | Drawn(req: Request, stid: int)
    | Paired(req: Request, stid: int)
    | Checked(req: Request, stid: int)
    | Stopped

  /** Where the response thread is: not scanning, at entry i, having seen entry i completed, or
      between the two writes for entry i. */
  datatype Responder = Asleep | At(i: nat) | Found(i: nat) | HeaderSent(i: nat)

  /** A client's task id and the id the service gave the same task. */
  datatype Pair = Pair(ctid: int, stid: int)

  /** The service's side of a connection. History: the id pairs answered. */
  datatype Queue = Queue(requester: Requester, pairs: seq<Pair>, responder: Responder, answered: seq<Pair>)

  /** Where the client's completion thread is; it dies when it reads only part of a value. */
  datatype Listener = Listening | Awaiting(tid: int) | Dead

  /** The way of responses: the bytes on the socket, the client's thread and the client's table.
      History: the replies not yet read. */
  datatype DownLink = DownLink(down: seq<Byte>, listener: Listener, table: Table, replies: seq<Reply>)

  datatype Conn = Conn(u: UpLink, q: Queue, d: DownLink)

  /** For every server id drawn: the connection and the request it was drawn for. */
  datatype Owner = Owner(conn: nat, req: Request)

  type Owners = map<int, Owner>

  datatype State = State(sched: Sched, draws: nat, owner: Owners, conns: seq<Conn>)

  /** The steps. GiveUp is a read of the request thread that times out or finds only part of what it asked
      for; Dismiss is the end of a request that is not the submission of a known function. */
  datatype Step =
    | Begin(k: nat, fid: int, args: seq<seq<Byte>>) | WritePiece(k: nat)
    | ReadPiece(k: nat) | GiveUp(k: nat) | Dismiss(k: nat)
    | Draw(k: nat) | PushPair(k: nat) | Check(k: nat) | Enqueue(k: nat)
    | SchedulerPass(reloadOk: bool)
    | StartScan(k: nat) | LookAt(k: nat) | SendHeader(k: nat) | SendValue(k: nat) | EndScan(k: nat)
    | Listen(k: nat)

  const EMPTY_UP := UpLink(0, [], [], [], map[], [], false)
  const EMPTY_QUEUE := Queue(Reading, [], Asleep, [])
  const EMPTY_DOWN := DownLink([], Listening, map[], [])

  /** Types fit the receive buffers, and functions return as many bytes as their return type has. */
  ghost predicate WellTyped(functions: Functions) {
    AllSizesFit(functions) && forall fid, args :: fid in functions && functions[fid].Run(args).Returned? ==>
      |functions[fid].Run(args).value| == functions[fid].retSize
  }

  ghost predicate Initial(s: State) {
    && Init(s.sched) && WellTyped(s.sched.cfg.functions) && s.draws == 0 && s.owner == map[]
    && forall k :: 0 <= k < |s.conns| ==> s.conns[k] == Conn(EMPTY_UP, EMPTY_QUEUE, EMPTY_DOWN)
  }

  // ---------------------------------------------------------------- requests

  predicate CanBegin(functions: Functions, u: UpLink, fid: int, args: seq<seq<Byte>>) {
    u.unsent == [] && u.counter < TWO_TO_32 && WellFormed(functions, Request(fid, Wrap32(u.counter), args))
  }

  function BeginUp(u: UpLink, fid: int, args: seq<seq<Byte>>): UpLink
    requires IsInt32(fid)
  {
    var r := Request(fid, Wrap32(u.counter), args);
    u.(counter := u.counter + 1, unsent := Pieces(r), asked := u.asked[r.tid := r], inflight := u.inflight + [r])
  }

  function BeginDown(d: DownLink, tid: int, fid: int, retSize: nat): DownLink {
    d.(table := if tid in d.table then d.table else d.table[tid := Entry(fid, retSize, false, -1, [])])
  }

  function Write(u: UpLink): UpLink
    requires u.unsent != []
  {
    u.(up := u.up + u.unsent[0], unsent := u.unsent[1..])
  }

  function HeaderFid(got: seq<seq<Byte>>): Option<int> {
    if got != [] && |got[0]| == REQUEST_SIZE && FromLe32(got[0][..4]) == OP_SUBMIT_TASK then
      Some(FromLe32(got[0][4..8]))
    else None
  }

  /** How many bytes the request thread reads next, when it reads. */
  function NextRead(functions: Functions, got: seq<seq<Byte>>): Option<nat> {
    var fid := HeaderFid(got);
    if got == [] then Some(REQUEST_SIZE)
    else if fid.Some? && fid.value in functions && |got| - 1 < |functions[fid.value].argSizes| then
      Some(functions[fid.value].argSizes[|got| - 1])
    else None
  }

  predicate HasWhole(functions: Functions, got: seq<seq<Byte>>) {
    var fid := HeaderFid(got);
    fid.Some? && fid.value in functions && |got| == 1 + |functions[fid.value].argSizes|
  }

  function Decoded(got: seq<seq<Byte>>): Request
    requires got != [] && |got[0]| == REQUEST_SIZE
  {
    Request(FromLe32(got[0][4..8]), FromLe32(got[0][8..12]), got[1..])
  }

  predicate CanRead(functions: Functions, u: UpLink) {
    NextRead(functions, u.got).Some? && |u.up| >= NextRead(functions, u.got).value
  }

  function Read(functions: Functions, u: UpLink): UpLink
    requires CanRead(functions, u)
  {
    var n := NextRead(functions, u.got).value;
    u.(got := u.got + [u.up[..n]], up := u.up[n..])
  }

  predicate CanGiveUp(functions: Functions, u: UpLink) {
    NextRead(functions, u.got).Some? && |u.up| < NextRead(functions, u.got).value
  }

  /** What a short read took is gone; in the middle of a request it ends the request. */
  function DropUp(u: UpLink): UpLink {
    u.(up := [], got := [], gaveUp := u.gaveUp || u.got != [])
  }

  /** A header has been read, and it is not the submission of a known function. */
  predicate CanDismiss(functions: Functions, got: seq<seq<Byte>>) {
    |got| == 1 && |got[0]| == REQUEST_SIZE && !(HeaderFid(got).Some? && HeaderFid(got).value in functions)
  }

  predicate IsClose(got: seq<seq<Byte>>) {
    |got| == 1 && |got[0]| == REQUEST_SIZE && FromLe32(got[0][..4]) == OP_CLOSE_CONN
  }

  /** The code 1 the request thread sends for a request it cannot go on with. */
  function Refusal(got: seq<seq<Byte>>): seq<Byte> {
    if got != [] && |got[0]| == REQUEST_SIZE then ResponseHeader(1, FromLe32(got[0][8..12])) else []
  }

  function TakeWhole(u: UpLink): UpLink {
    u.(got := [], inflight := if u.inflight == [] then [] else u.inflight[1..])
  }

  function Push(q: Queue): Queue
    requires q.requester.Drawn?
  {
    var req, stid := q.requester.req, q.requester.stid;
    q.(requester := Paired(req, stid), pairs := q.pairs + [Pair(req.tid, stid)])
  }

  function TaskFor(functions: Functions, k: nat, req: Request, stid: int): Task
    requires req.fid in functions
  {
    Task(stid, req.fid, functions[req.fid].retSize, Some(k), req.args, false, -1, [])
  }

  /** Does the unlocked half of addTask let the task through? */
  predicate Admissible(sched: Sched, k: nat, q: Queue)
    requires q.requester.Paired?
  {
    var req, stid := q.requester.req, q.requester.stid;
    req.fid in sched.cfg.functions && Accepts(sched, TaskFor(sched.cfg.functions, k, req, stid))
  }

  // ---------------------------------------------------------------- responses

  function Look(sched: Sched, q: Queue): Queue
    requires q.responder.At? && q.responder.i < |q.pairs|
  {
    var i := q.responder.i;
    q.(responder := if IsTaskCompleted(sched, q.pairs[i].stid) then Found(i) else At(i + 1))
  }

  /** The header always carries code 0. */
  function HeaderFor(tid: int): seq<Byte> {
    if IsInt32(tid) then ResponseHeader(0, tid) else []
  }

  /** The bytes the second write sends: a failed task has no value and its write fails. */
  function ValueSent(sched: Sched, stid: int): seq<Byte> {
    match GetTask(sched, stid)
    case None => []
    case Some(t) => if |t.value| >= t.retSize then t.value[..t.retSize] else []
  }

  /** After the erase the iterator already points at the next entry, and is advanced once more. */
  function Erase(q: Queue): Queue
    requires q.responder.HeaderSent?
  {
    var left := Without(q.pairs, q.responder.i);
    q.(pairs := left, responder := if q.responder.i < |left| then At(q.responder.i + 1) else At(q.responder.i))
  }

  function HearHeader(d: DownLink): DownLink
    requires d.listener.Listening? && |d.down| >= RESPONSE_SIZE
  {
    var code, tid := FromLe32(d.down[..4]), FromLe32(d.down[4..8]);
    var d' := d.(down := d.down[RESPONSE_SIZE..]);
    if tid !in d.table then d'
    else if code == 0 then d'.(listener := Awaiting(tid))
    else d'.(table := d.table[tid := d.table[tid].(completed := true, code := code)])
  }

  /** A read of the client waits for some bytes and takes what is there: part of a header is dropped, part of
      a value ends the thread. */
  function Hear(d: DownLink): DownLink {
    if d.listener.Listening? && |d.down| >= RESPONSE_SIZE then HearHeader(d)
    else if d.listener.Listening? then d.(down := [])
    else if CanHearValue(d) then HearValue(d)
    else if d.listener.Awaiting? && d.down != [] then d.(down := [], listener := Dead)
    else d
  }

  predicate CanHearValue(d: DownLink) {
    d.listener.Awaiting? && d.listener.tid in d.table && |d.down| >= d.table[d.listener.tid].retSize
  }

  function HearValue(d: DownLink): DownLink
    requires CanHearValue(d)
  {
    var tid := d.listener.tid;
    var n := d.table[tid].retSize;
    var table := d.table[tid := Complete(d.table[tid], d.down[..n])];
    DownLink(d.down[n..], Listening, table, if d.replies == [] then [] else d.replies[1..])
  }

  // ---------------------------------------------------------------- steps

  /** The way of requests after a step of the connection; a step that cannot be taken changes nothing. */
  function NextUp(s: State, step: Step): UpLink
    requires !step.SchedulerPass? && step.k < |s.conns|
  {
    var c, fs := s.conns[step.k], s.sched.cfg.functions;
    match step
    case Begin(_, fid, args) => if CanBegin(fs, c.u, fid, args) then BeginUp(c.u, fid, args) else c.u
    case WritePiece(_) => if c.u.unsent != [] then Write(c.u) else c.u
    case ReadPiece(_) => if c.q.requester.Reading? && CanRead(fs, c.u) then Read(fs, c.u) else c.u
    case GiveUp(_) => if c.q.requester.Reading? && CanGiveUp(fs, c.u) then DropUp(c.u) else c.u
    case Dismiss(_) => if c.q.requester.Reading? && CanDismiss(fs, c.u.got) then c.u.(got := []) else c.u
    case Draw(_) => if CanDraw(s, step.k) then TakeWhole(c.u) else c.u
    case _ => c.u
  }

  /** The service's side after a step. When getTask finds nothing, the entry is looked at again; on a closed
      connection the write of the header fails and ends the scan. */
  function NextQueue(s: State, step: Step): Queue
    requires !step.SchedulerPass? && step.k < |s.conns|
  {
    var q := s.conns[step.k].q;
    match step
    case Dismiss(_) => if q.requester.Reading? && IsClose(s.conns[step.k].u.got) then q.(requester := Stopped) else q
    case Draw(_) =>
      if CanDraw(s, step.k) then q.(requester := Drawn(Decoded(s.conns[step.k].u.got), Wrap32(s.draws))) else q
    case PushPair(_) => if q.requester.Drawn? && q.responder.Asleep? then Push(q) else q
    case Check(_) =>
      if !q.requester.Paired? then q
      else if Admissible(s.sched, step.k, q) then q.(requester := Checked(q.requester.req, q.requester.stid))
      else q.(requester := Reading)
    case Enqueue(_) => if CanEnqueue(s, step.k) then q.(requester := Reading) else q
    case StartScan(_) => if q.responder.Asleep? then q.(responder := At(0)) else q
    case LookAt(_) => if q.responder.At? && q.responder.i < |q.pairs| then Look(s.sched, q) else q
    case SendHeader(_) =>
      if !AtFound(q) then q
      else if q.requester.Stopped? then q.(responder := Asleep)
      else if GetTask(s.sched, q.pairs[q.responder.i].stid).None? then q.(responder := At(q.responder.i))
      else q.(responder := HeaderSent(q.responder.i), answered := q.answered + [q.pairs[q.responder.i]])
    case SendValue(_) => if AtHeaderSent(q) then Erase(q) else q
    case EndScan(_) => if q.responder.At? && q.responder.i >= |q.pairs| then q.(responder := Asleep) else q
    case _ => q
  }

  /** The way of responses after a step. */
  function NextDown(s: State, step: Step): DownLink
    requires !step.SchedulerPass? && step.k < |s.conns|
  {
    var c, fs := s.conns[step.k], s.sched.cfg.functions;
    match step
    case Begin(_, fid, args) =>
      if CanBegin(fs, c.u, fid, args) then BeginDown(c.d, Wrap32(c.u.counter), fid, fs[fid].retSize) else c.d
    case GiveUp(_) =>
      if c.q.requester.Reading? && CanGiveUp(fs, c.u) then c.d.(down := c.d.down + Refusal(c.u.got)) else c.d
    case Dismiss(_) =>
      if c.q.requester.Reading? && CanDismiss(fs, c.u.got) && HeaderFid(c.u.got).Some? then
        c.d.(down := c.d.down + Refusal(c.u.got))
      else c.d
    case Check(_) =>
      if c.q.requester.Paired? && !Admissible(s.sched, step.k, c.q) && IsInt32(c.q.requester.req.tid) then
        c.d.(down := c.d.down + ResponseHeader(1, c.q.requester.req.tid))
      else c.d
    case SendHeader(_) =>
      if AtFound(c.q) && !c.q.requester.Stopped? && GetTask(s.sched, c.q.pairs[c.q.responder.i].stid).Some? then
        var p := c.q.pairs[c.q.responder.i];
        var reply := Reply(p.ctid, GetTask(s.sched, p.stid).value.value);
        c.d.(down := c.d.down + HeaderFor(p.ctid), replies := c.d.replies + [reply])
      else c.d
    case SendValue(_) =>
      if AtHeaderSent(c.q) && !c.q.requester.Stopped? then
        c.d.(down := c.d.down + ValueSent(s.sched, c.q.pairs[c.q.responder.i].stid))
      else c.d
    case Listen(_) => Hear(c.d)
    case _ => c.d
  }

  predicate AtFound(q: Queue) {
    q.responder.Found? && q.responder.i < |q.pairs|
  }

  predicate AtHeaderSent(q: Queue) {
    q.responder.HeaderSent? && q.responder.i < |q.pairs|
  }

  predicate CanDraw(s: State, k: nat) {
    && k < |s.conns| && s.draws < TWO_TO_32 && s.conns[k].q.requester.Reading?
    && HasWhole(s.sched.cfg.functions, s.conns[k].u.got)
  }

  predicate CanEnqueue(s: State, k: nat) {
    k < |s.conns| && s.conns[k].q.requester.Checked? && s.conns[k].q.requester.req.fid in s.sched.cfg.functions
  }

  function NextSched(s: State, step: Step): Sched {
    if step.SchedulerPass? then Iterate(s.sched, step.reloadOk)
    else if step.Enqueue? && CanEnqueue(s, step.k) then
      var r := s.conns[step.k].q.requester;
      Insert(s.sched, TaskFor(s.sched.cfg.functions, step.k, r.req, r.stid))
    else s.sched
  }

  function NextOwner(s: State, step: Step): Owners {
    if step.Draw? && CanDraw(s, step.k) then
      s.owner[Wrap32(s.draws) := Owner(step.k, Decoded(s.conns[step.k].u.got))]
    else s.owner
  }

  function NextConns(s: State, step: Step): seq<Conn> {
    if !step.SchedulerPass? && step.k < |s.conns| then
      s.conns[step.k := Conn(NextUp(s, step), NextQueue(s, step), NextDown(s, step))]
    else s.conns
  }

  function Apply(s: State, step: Step): State {
    var draws := if step.Draw? && CanDraw(s, step.k) then s.draws + 1 else s.draws;
    State(NextSched(s, step), draws, NextOwner(s, step), NextConns(s, step))
  }

  /** The connection that takes a step. */
  lemma OwnConn(s: State, step: Step)
    requires !step.SchedulerPass? && step.k < |s.conns|
    ensures Apply(s, step).conns[step.k] == Conn(NextUp(s, step), NextQueue(s, step), NextDown(s, step))
    ensures |Apply(s, step).conns| == |s.conns|
    ensures !step.Enqueue? ==> Apply(s, step).sched == s.sched
  {
    hide NextUp, NextQueue, NextDown;
  }

  function RunSteps(s: State, steps: seq<Step>): State {
    if steps == [] then s else Apply(RunSteps(s, steps[..|steps| - 1]), steps[|steps| - 1])
  }
}
