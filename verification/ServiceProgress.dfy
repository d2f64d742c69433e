/** The service never gets stuck: from every reachable state, on a connection on which no read of an
    argument gave up, some continuation without new requests answers everything the client asked. */
module ServiceProgress {
  import opened Bytes
  import opened Scheduling
  import opened SchedulingRuns
  import opened Framing
  import opened Service
  import opened ServiceRequests
  import opened ServiceIds
  import opened ServiceQueue
  import opened ServiceResponses
  import opened ServiceEndToEnd
  import opened ServiceScan

  // ---------------------------------------------------------------- every entry has its task

  /** The task of an entry is in the scheduler, or in the hands of the request thread. */
  predicate FiledOk(q: Queue, index: map<int, nat>) {
    forall i :: 0 <= i < |q.pairs| ==> Filed(q, index, q.pairs[i].stid)
  }

  predicate Filed(q: Queue, index: map<int, nat>, stid: int) {
    stid in index || ((q.requester.Paired? || q.requester.Checked?) && q.requester.stid == stid)
  }

  ghost predicate FiledInv(s: State) {
    forall k :: 0 <= k < |s.conns| ==> FiledOk(s.conns[k].q, s.sched.index)
  }

  lemma FiledNext(s: State, step: Step)
    requires !step.SchedulerPass? && step.k < |s.conns| && FiledOk(s.conns[step.k].q, s.sched.index)
    requires s.conns[step.k].q.requester.Paired? ==> Admissible(s.sched, step.k, s.conns[step.k].q)
    ensures FiledOk(NextQueue(s, step), NextSched(s, step).index)
  {
    hide Admissible, IsTaskCompleted, GetTask, Decoded, IsClose, HasWhole;
    var q, q' := s.conns[step.k].q, NextQueue(s, step);
    forall i | 0 <= i < |q'.pairs|
      ensures Filed(q', NextSched(s, step).index, q'.pairs[i].stid)
    {
      if q'.pairs[i] in q.pairs {
        var j :| 0 <= j < |q.pairs| && q.pairs[j] == q'.pairs[i];
        assert Filed(q, s.sched.index, q.pairs[j].stid);
      }
    }
  }

  lemma FiledStep(s: State, step: Step)
    requires RequestsInv(s) && IdsInv(s) && FiledInv(s)
    ensures FiledInv(Apply(s, step))
  {
    hide NextUp, NextQueue, NextDown, NextSched, NextOwner, SchedIds, UpOk, Admissible, FiledOk, SchedGrows;
    var s' := Apply(s, step);
    SchedulerGrows(s, step);
    if !step.SchedulerPass? && step.k < |s.conns| {
      if s.conns[step.k].q.requester.Paired? { PairedIsAdmissible(s, step.k); }
      FiledNext(s, step);
    }
    forall k | 0 <= k < |s'.conns|
      ensures FiledOk(s'.conns[k].q, s'.sched.index)
    {
      if step.SchedulerPass? || step.k != k { FiledGrows(s.conns[k].q, s.sched, s'.sched); }
    }
  }

  lemma FiledGrows(q: Queue, a: Sched, b: Sched)
    requires FiledOk(q, a.index) && SchedGrows(a, b)
    ensures FiledOk(q, b.index)
  {
    assert forall i :: 0 <= i < |q.pairs| ==> Filed(q, a.index, q.pairs[i].stid);
  }

  // ---------------------------------------------------------------- everything known of a reachable state

  ghost predicate Sound(s: State) {
    RequestsInv(s) && IdsInv(s) && QueueInv(s) && DownInv(s) && FiledInv(s)
  }

  lemma SoundStep(s: State, step: Step)
    requires Sound(s)
    ensures Sound(Apply(s, step))
  {
    hide RequestsInv, IdsInv, QueueInv, DownInv, FiledInv, Apply;
    RequestsStep(s, step);
    IdsStep(s, step);
    QueueInvStep(s, step);
    DownInvStep(s, step);
    FiledStep(s, step);
  }

  lemma {:induction false} SoundRun(s: State, steps: seq<Step>)
    requires Sound(s)
    ensures Sound(RunSteps(s, steps))
  {
    hide Sound, Apply;
    if steps != [] {
      SoundRun(s, steps[..|steps| - 1]);
      SoundStep(RunSteps(s, steps[..|steps| - 1]), steps[|steps| - 1]);
    }
  }

  lemma SoundInitially(s: State)
    requires Initial(s)
    ensures Sound(s)
  {
    assert RunSteps(s, []) == s;
    RequestsAlways(s, []);
    IdsAlways(s, []);
    QueueAlways(s, []);
    DownAlways(s, []);
    hide RequestsInv, IdsInv, QueueInv, DownInv;
  }

  /** A continuation: no client begins a request, and no read gives up. */
  predicate Settling(steps: seq<Step>) {
    forall i :: 0 <= i < |steps| ==> !steps[i].Begin? && !steps[i].GiveUp?
  }

  /** One step and then a continuation. */
  lemma Then(s: State, step: Step, rest: seq<Step>)
    requires Settling(rest) && !step.Begin? && !step.GiveUp?
    ensures RunSteps(s, [step] + rest) == RunSteps(Apply(s, step), rest) && Settling([step] + rest)
  {
    hide Apply;
    RunFirst(s, step, rest);
  }

  lemma Both(s: State, a: seq<Step>, b: seq<Step>)
    requires Settling(a) && Settling(b)
    ensures RunSteps(s, a + b) == RunSteps(RunSteps(s, a), b) && Settling(a + b)
  {
    hide Apply;
    RunStepsAppend(s, a, b);
  }

  // ---------------------------------------------------------------- the scan ends

  function ToGo(q: Queue): int {
    match q.responder
    case Asleep => 0
    case At(i) => 4 * (|q.pairs| - i) + 1
    case Found(i) => 4 * (|q.pairs| - i)
    case HeaderSent(i) => 4 * (|q.pairs| - i) - 1
  }

  function ScanStep(q: Queue, k: nat): Step {
    match q.responder
    case At(i) => if i < |q.pairs| then LookAt(k) else EndScan(k)
    case Found(_) => SendHeader(k)
    case HeaderSent(_) => SendValue(k)
    case Asleep => StartScan(k)
  }

  predicate AllDone(ps: seq<Pair>, sched: Sched) {
    forall i :: 0 <= i < |ps| ==> IsTaskCompleted(sched, ps[i].stid)
  }

  /** The scan has moved on, and nothing but the responder has. */
  ghost predicate ScanMoved(s: State, t: State, k: nat)
    requires k < |s.conns|
  {
    && |t.conns| == |s.conns| && t.sched == s.sched && t.draws == s.draws && t.conns[k].u == s.conns[k].u
    && t.conns[k].q.requester == s.conns[k].q.requester && |t.conns[k].q.pairs| <= |s.conns[k].q.pairs|
    && (AllDone(s.conns[k].q.pairs, s.sched) ==> AllDone(t.conns[k].q.pairs, s.sched))
  }

  /** The scan is sure to erase an entry. */
  predicate Owes(q: Queue, sched: Sched) {
    || q.responder.Found? || q.responder.HeaderSent?
    || (q.responder.At? && q.responder.i < |q.pairs| && AllDone(q.pairs, sched))
  }

  lemma ResponderStepMoves(s: State, k: nat)
    requires Scanning(s, k) && ResponderOk(s.conns[k].q, s.sched)
    ensures var q, t := s.conns[k].q, Apply(s, ScanStep(s.conns[k].q, k));
            && ScanMoved(s, t, k) && 0 <= ToGo(t.conns[k].q) < ToGo(q)
            && (Owes(q, s.sched) ==> Owes(t.conns[k].q, s.sched) || |t.conns[k].q.pairs| < |q.pairs|)
  {
    var q, step := s.conns[k].q, ScanStep(s.conns[k].q, k);
    ResponderActs(s, step, k);
    SameRequests(s, step);
    hide IsTaskCompleted, Apply;
    var q' := Apply(s, step).conns[k].q;
    if AtHeaderSent(q) {
      var left := Without(q.pairs, q.responder.i);
      assert forall j :: 0 <= j < |left| ==> left[j] == q.pairs[if j < q.responder.i then j else j + 1];
    }
  }

  /** Steps of the responder and the listener do not touch the way of requests. */
  lemma SameRequests(s: State, step: Step)
    requires !step.SchedulerPass? && step.k < |s.conns|
    requires step.StartScan? || step.LookAt? || step.SendHeader? || step.SendValue? || step.EndScan? || step.Listen?
    ensures var t := Apply(s, step);
            && |t.conns| == |s.conns| && t.sched == s.sched && t.draws == s.draws
            && t.conns[step.k].u == s.conns[step.k].u
            && t.conns[step.k].q.requester == s.conns[step.k].q.requester
  {
    hide NextDown, IsTaskCompleted, GetTask, Without;
    OwnConn(s, step);
  }

  lemma {:induction false} FinishScan(s: State, k: nat) returns (steps: seq<Step>)
    requires Sound(s) && k < |s.conns| && !s.conns[k].q.requester.Stopped?
    ensures Settling(steps) && ScanMoved(s, RunSteps(s, steps), k)
    ensures RunSteps(s, steps).conns[k].q.responder.Asleep?
    ensures Owes(s.conns[k].q, s.sched) ==> |RunSteps(s, steps).conns[k].q.pairs| < |s.conns[k].q.pairs|
    decreases ToGo(s.conns[k].q)
  {
    if s.conns[k].q.responder.Asleep? {
      steps := [];
    } else {
      var step := ScanStep(s.conns[k].q, k);
      var t := Apply(s, step);
      assert ResponderOk(s.conns[k].q, s.sched);
      ResponderStepMoves(s, k);
      SoundStep(s, step);
      hide Sound, Apply, IsTaskCompleted, ToGo;
      var rest := FinishScan(t, k);
      Then(s, step, rest);
      steps := [step] + rest;
      MovedOn(s, t, RunSteps(t, rest), k);
    }
  }

  lemma MovedOn(s: State, t: State, r: State, k: nat)
    requires k < |s.conns| && ScanMoved(s, t, k) && ScanMoved(t, r, k)
    ensures ScanMoved(s, r, k)
  {
    hide AllDone;
  }

  // ---------------------------------------------------------------- the client's writes

  lemma WriteMoves(s: State, k: nat)
    requires k < |s.conns| && s.conns[k].u.unsent != []
    ensures var t := Apply(s, WritePiece(k));
            && |t.conns| == |s.conns| && t.sched == s.sched && t.draws == s.draws
            && t.conns[k] == s.conns[k].(u := Write(s.conns[k].u))
  {
    OwnConn(s, WritePiece(k));
    hide Write;
  }

  lemma {:induction false} WriteAll(s: State, k: nat) returns (steps: seq<Step>)
    requires k < |s.conns|
    ensures Settling(steps)
    ensures var t := RunSteps(s, steps);
            && |t.conns| == |s.conns| && t.sched == s.sched && t.draws == s.draws && t.conns[k].q == s.conns[k].q
            && t.conns[k].u.unsent == [] && t.conns[k].u.inflight == s.conns[k].u.inflight
            && t.conns[k].u.gaveUp == s.conns[k].u.gaveUp
    decreases |s.conns[k].u.unsent|
  {
    if s.conns[k].u.unsent == [] {
      steps := [];
    } else {
      WriteMoves(s, k);
      hide Apply;
      var rest := WriteAll(Apply(s, WritePiece(k)), k);
      Then(s, WritePiece(k), rest);
      steps := [WritePiece(k)] + rest;
    }
  }

  // ---------------------------------------------------------------- the request thread takes everything

  function RequesterStage(r: Requester): nat {
    match r
    case Drawn(_, _) => 3
    case Paired(_, _) => 2
    case Checked(_, _) => 1
    case _ => 0
  }

  predicate Drawable(s: State, k: nat)
    requires k < |s.conns|
  {
    s.draws + |s.conns[k].u.inflight| <= TWO_TO_32
  }

  /** The client has written everything, no read gave up, and there are ids for the requests in flight. */
  ghost predicate Ready(s: State, k: nat) {
    Sound(s) && k < |s.conns| && s.conns[k].u.unsent == [] && !s.conns[k].u.gaveUp && Drawable(s, k)
  }

  /** What the request thread has yet to do, but for reading. */
  function Work(c: Conn): nat {
    4 * |c.u.inflight| + RequesterStage(c.q.requester)
  }

  /** The request thread is further. */
  predicate Advanced(s: State, t: State, k: nat)
    requires k < |s.conns|
  {
    && |t.conns| == |s.conns| && t.conns[k].u.unsent == [] && !t.conns[k].u.gaveUp && Drawable(t, k)
    && var a, b := s.conns[k], t.conns[k];
       Work(b) < Work(a) || (Work(b) == Work(a) && b.u.inflight == a.u.inflight != [] && |b.u.got| > |a.u.got|)
  }

  /** What the request thread does next. */
  function RequestStep(s: State, k: nat): Step
    requires k < |s.conns|
  {
    match s.conns[k].q.requester
    case Drawn(_, _) => PushPair(k)
    case Paired(_, _) => Check(k)
    case Checked(_, _) => Enqueue(k)
    case _ => if HasWhole(s.sched.cfg.functions, s.conns[k].u.got) then Draw(k) else ReadPiece(k)
  }

  /** Reading goes on: with everything written, the next piece is there. */
  lemma ReadMoves(s: State, k: nat)
    requires Ready(s, k) && s.conns[k].q.requester.Reading? && s.conns[k].u.inflight != []
    requires !HasWhole(s.sched.cfg.functions, s.conns[k].u.got)
    ensures Advanced(s, Apply(s, ReadPiece(k)), k)
  {
    var u, fs := s.conns[k].u, s.sched.cfg.functions;
    assert UpOk(fs, u);
    PieceIsThere(fs, u);
    OwnConn(s, ReadPiece(k));
    hide UpOk, CanRead, NextRead, HasWhole, Sound;
  }

  lemma PieceIsThere(fs: Functions, u: UpLink)
    requires UpOk(fs, u) && !u.gaveUp && u.unsent == [] && u.inflight != [] && !HasWhole(fs, u.got)
    ensures CanRead(fs, u)
  {
    var r := u.inflight[0];
    RequestHeaderRoundTrip(OP_SUBMIT_TASK, r.fid, r.tid);
    if u.got != [] { assert u.got[0] == Pieces(r)[0]; }
    assert NextRead(fs, u.got).Some?;
    NextPiece(fs, u);
    assert |AllPieces(u.inflight)| >= |Pieces(r)| > |u.got|;
  }

  lemma DrawMoves(s: State, k: nat)
    requires Ready(s, k) && s.conns[k].q.requester.Reading? && s.conns[k].u.inflight != []
    requires HasWhole(s.sched.cfg.functions, s.conns[k].u.got)
    ensures Advanced(s, Apply(s, Draw(k)), k)
  {
    OwnConn(s, Draw(k));
    hide HasWhole, Sound, Decoded;
  }

  lemma HandOverMoves(s: State, k: nat)
    requires Ready(s, k) && !s.conns[k].q.requester.Reading? && !s.conns[k].q.requester.Stopped?
    requires s.conns[k].q.requester.Drawn? ==> s.conns[k].q.responder.Asleep?
    ensures Advanced(s, Apply(s, RequestStep(s, k)), k)
  {
    CanHandOver(s, k);
    hide Sound, Apply, Advanced, Admissible;
    var q := s.conns[k].q;
    if q.requester.Drawn? {
      PushMoves(s, k);
    } else if q.requester.Paired? {
      CheckMoves(s, k);
    } else {
      EnqueueMoves(s, k);
    }
  }

  lemma CanHandOver(s: State, k: nat)
    requires Sound(s) && k < |s.conns|
    ensures s.conns[k].q.requester.Paired? ==> Admissible(s.sched, k, s.conns[k].q)
    ensures s.conns[k].q.requester.Checked? ==> s.conns[k].q.requester.req.fid in s.sched.cfg.functions
  {
    var q := s.conns[k].q;
    if q.requester.Paired? {
      PairedIsAdmissible(s, k);
    } else if q.requester.Checked? {
      assert IdsOk(q, k, s.owner, s.sched.index);
      assert AskedOf(s.sched.cfg.functions, s.conns, s.owner[q.requester.stid]);
    }
    hide Admissible;
  }

  predicate AllWritten(s: State, k: nat) {
    k < |s.conns| && s.conns[k].u.unsent == [] && !s.conns[k].u.gaveUp && Drawable(s, k)
  }

  lemma PushMoves(s: State, k: nat)
    requires AllWritten(s, k) && s.conns[k].q.requester.Drawn? && s.conns[k].q.responder.Asleep?
    ensures Advanced(s, Apply(s, PushPair(k)), k)
  {
    OwnConn(s, PushPair(k));
  }

  lemma CheckMoves(s: State, k: nat)
    requires AllWritten(s, k) && s.conns[k].q.requester.Paired? && Admissible(s.sched, k, s.conns[k].q)
    ensures Advanced(s, Apply(s, Check(k)), k)
  {
    OwnConn(s, Check(k));
    hide Admissible;
  }

  lemma EnqueueMoves(s: State, k: nat)
    requires AllWritten(s, k) && s.conns[k].q.requester.Checked?
    requires s.conns[k].q.requester.req.fid in s.sched.cfg.functions
    ensures Advanced(s, Apply(s, Enqueue(k)), k)
  {
    OwnConn(s, Enqueue(k));
    hide Insert;
  }

  lemma RequestStepMoves(s: State, k: nat)
    requires Ready(s, k) && !s.conns[k].q.requester.Stopped?
    requires s.conns[k].q.requester.Reading? ==> s.conns[k].u.inflight != []
    requires s.conns[k].q.requester.Drawn? ==> s.conns[k].q.responder.Asleep?
    ensures var step := RequestStep(s, k);
            Advanced(s, Apply(s, step), k) && Ready(Apply(s, step), k) && !step.Begin? && !step.GiveUp?
  {
    hide Sound, Apply;
    SoundStep(s, RequestStep(s, k));
    if !s.conns[k].q.requester.Reading? {
      HandOverMoves(s, k);
    } else if HasWhole(s.sched.cfg.functions, s.conns[k].u.got) {
      DrawMoves(s, k);
    } else {
      ReadMoves(s, k);
    }
  }

  lemma AdvancedAfterScan(s: State, a: State, t: State, k: nat)
    requires k < |s.conns| && ScanMoved(s, a, k) && Advanced(a, t, k)
    ensures Advanced(s, t, k)
  {
    hide AllDone;
  }

  lemma Still(s: State)
    ensures RunSteps(s, []) == s
  {
  }

  lemma JustOne(s: State, step: Step)
    ensures RunSteps(s, [step]) == Apply(s, step)
  {
    hide Apply;
    assert [step][..0] == [];
  }

  /** One move of the request thread, after the scan that holds the lock has ended if need be. */
  lemma RequestMoves(s: State, k: nat) returns (steps: seq<Step>)
    requires Ready(s, k) && !s.conns[k].q.requester.Stopped?
    requires s.conns[k].q.requester.Reading? ==> s.conns[k].u.inflight != []
    ensures Settling(steps) && Ready(RunSteps(s, steps), k) && Advanced(s, RunSteps(s, steps), k)
  {
    hide Sound, Apply, RunSteps, Advanced, RequestStep, AllDone;
    if s.conns[k].q.requester.Drawn? {
      var scan := FinishScan(s, k);
      var a := RunSteps(s, scan);
      SoundRun(s, scan);
      RequestStepMoves(a, k);
      AdvancedAfterScan(s, a, Apply(a, RequestStep(a, k)), k);
      JustOne(a, RequestStep(a, k));
      Both(s, scan, [RequestStep(a, k)]);
      steps := scan + [RequestStep(a, k)];
    } else {
      RequestStepMoves(s, k);
      JustOne(s, RequestStep(s, k));
      steps := [RequestStep(s, k)];
    }
  }

  function Unread(u: UpLink): int {
    if u.inflight == [] then 0 else 1 + |u.inflight[0].args| - |u.got|
  }

  lemma UnreadIsNatural(s: State, k: nat)
    requires Ready(s, k)
    ensures Unread(s.conns[k].u) >= 0 && !s.conns[k].q.requester.Stopped?
  {
    var c := s.conns[k];
    assert UpOk(s.sched.cfg.functions, c.u) && Conserved(c.u, c.q);
  }

  lemma {:induction false} TakeAll(s: State, k: nat) returns (steps: seq<Step>)
    requires Ready(s, k)
    ensures Settling(steps)
    ensures var t := RunSteps(s, steps);
            Ready(t, k) && t.conns[k].u.inflight == [] && t.conns[k].q.requester.Reading?
    decreases Work(s.conns[k]), Unread(s.conns[k].u)
  {
    hide Sound, Apply, RunSteps;
    UnreadIsNatural(s, k);
    if s.conns[k].q.requester.Reading? && s.conns[k].u.inflight == [] {
      steps := [];
      Still(s);
    } else {
      var first := RequestMoves(s, k);
      var rest := TakeAll(RunSteps(s, first), k);
      Both(s, first, rest);
      steps := first + rest;
    }
  }

  // ---------------------------------------------------------------- the scheduler drains

  lemma PassOnly(s: State, ok: bool)
    ensures Apply(s, SchedulerPass(ok)) == s.(sched := Iterate(s.sched, ok))
  {
    hide Iterate;
  }

  lemma {:induction false} PassesRun(s: State, oks: seq<bool>)
    ensures var t := RunSteps(s, ServicePasses(oks));
            && t.sched == Run(s.sched, Passes(oks)) && t.conns == s.conns && t.draws == s.draws
    decreases |oks|
  {
    hide Iterate, Apply;
    if oks != [] {
      var n := |oks| - 1;
      PassesRun(s, oks[..n]);
      assert ServicePasses(oks)[..n] == ServicePasses(oks[..n]) && Passes(oks)[..n] == Passes(oks[..n]);
      PassOnly(RunSteps(s, ServicePasses(oks[..n])), oks[n]);
    }
  }

  function ServicePasses(oks: seq<bool>): (steps: seq<Step>)
    ensures |steps| == |oks| && Settling(steps)
  {
    seq(|oks|, i requires 0 <= i < |oks| => SchedulerPass(oks[i]))
  }

  lemma Drain(s: State, k: nat) returns (steps: seq<Step>)
    requires Sound(s) && k < |s.conns| && s.conns[k].q.requester.Reading?
    ensures Settling(steps)
    ensures var t := RunSteps(s, steps);
            Sound(t) && t.conns == s.conns && t.draws == s.draws && AllDone(t.conns[k].q.pairs, t.sched)
  {
    var oks := seq(|Pending(s.sched)|, _ => true);
    steps := ServicePasses(oks);
    PassesRun(s, oks);
    PassesDrain(s.sched, oks);
    SoundRun(s, steps);
    AllFiledDone(RunSteps(s, steps), k);
  }

  lemma AllFiledDone(s: State, k: nat)
    requires Sound(s) && k < |s.conns| && s.conns[k].q.requester.Reading? && Pending(s.sched) == {}
    ensures AllDone(s.conns[k].q.pairs, s.sched)
  {
    var q := s.conns[k].q;
    assert FiledOk(q, s.sched.index);
    forall i | 0 <= i < |q.pairs|
      ensures IsTaskCompleted(s.sched, q.pairs[i].stid)
    {
      var stid := q.pairs[i].stid;
      assert Filed(q, s.sched.index, stid);
      IndexLookup(s.sched, stid);
      var at := s.sched.index[stid];
      assert at !in Pending(s.sched);
    }
  }

  // ---------------------------------------------------------------- the responder answers everything

  /** With every task done, a scan from the start erases an entry. */
  lemma AnswerSome(s: State, k: nat) returns (steps: seq<Step>)
    requires Sound(s) && k < |s.conns| && s.conns[k].q.responder.Asleep? && !s.conns[k].q.requester.Stopped?
    requires s.conns[k].q.pairs != [] && AllDone(s.conns[k].q.pairs, s.sched)
    ensures Settling(steps)
    ensures var t := RunSteps(s, steps); ScanMoved(s, t, k) && |t.conns[k].q.pairs| < |s.conns[k].q.pairs|
  {
    var a := Apply(s, StartScan(k));
    ScanStarts(s, k);
    SameRequests(s, StartScan(k));
    SoundStep(s, StartScan(k));
    hide Sound, Apply, AllDone;
    var rest := FinishScan(a, k);
    Then(s, StartScan(k), rest);
    steps := [StartScan(k)] + rest;
    MovedOn(s, a, RunSteps(a, rest), k);
  }

  lemma {:induction false} AnswerAll(s: State, k: nat) returns (steps: seq<Step>)
    requires Sound(s) && k < |s.conns| && !s.conns[k].q.requester.Stopped? && AllDone(s.conns[k].q.pairs, s.sched)
    ensures Settling(steps)
    ensures var t := RunSteps(s, steps);
            ScanMoved(s, t, k) && t.conns[k].q.pairs == [] && t.conns[k].q.responder.Asleep?
    decreases |s.conns[k].q.pairs|
  {
    hide Apply, Sound, RunSteps, AllDone;
    var scan := FinishScan(s, k);
    var a := RunSteps(s, scan);
    SoundRun(s, scan);
    if a.conns[k].q.pairs == [] {
      steps := scan;
    } else {
      var first := AnswerSome(a, k);
      var b := RunSteps(a, first);
      SoundRun(a, first);
      MovedOn(s, a, b, k);
      var rest := AnswerAll(b, k);
      Both(a, first, rest);
      Both(s, scan, first + rest);
      steps := scan + (first + rest);
      MovedOn(s, b, RunSteps(b, rest), k);
    }
  }

  // ---------------------------------------------------------------- the client hears everything

  /** How many reads the client is behind: two for each reply, but one for a reply whose header it has read. */
  function Behind(d: DownLink): int {
    2 * |d.replies| - Skip(d)
  }

  lemma ListenMoves(s: State, k: nat)
    requires Sound(s) && k < |s.conns| && Idle(s.conns[k]) && !s.conns[k].u.gaveUp && Clean(s.conns[k].q, s.sched)
    requires s.conns[k].d.replies != []
    ensures var t := Apply(s, Listen(k));
            && |t.conns| == |s.conns| && t.sched == s.sched
            && t.conns[k].u == s.conns[k].u && t.conns[k].q == s.conns[k].q
            && Behind(t.conns[k].d) < Behind(s.conns[k].d)
  {
    var c := s.conns[k];
    RepliesFramed(s, k);
    hide Sound, DownOk, Hear, WellTyped, EndedWell;
    OwnConn(s, Listen(k));
    HearingMoves(s.sched.cfg.functions, c.u.asked, c.d, c.q.answered);
  }

  lemma RepliesFramed(s: State, k: nat)
    requires Sound(s) && k < |s.conns| && Idle(s.conns[k]) && !s.conns[k].u.gaveUp && Clean(s.conns[k].q, s.sched)
    ensures var c, fs := s.conns[k], s.sched.cfg.functions;
            DownOk(fs, c.u.asked, c.d, c.q.answered, []) && WellTyped(fs)
  {
    hide RequestsInv, IdsInv, QueueInv, FiledInv, DownOk, EndedWell, Accounted, WellTyped;
    var c := s.conns[k];
    assert ConnDown(c, s.sched) && Unfinished(c.q, s.sched) == [];
  }

  lemma HearingMoves(fs: Functions, asked: AskedMap, d: DownLink, answered: seq<Pair>)
    requires DownOk(fs, asked, d, answered, []) && WellTyped(fs) && d.replies != []
    ensures Behind(Hear(d)) == Behind(d) - 1
  {
    assert |AllReplyPieces(d.replies)| >= 2;
    assert Arrived(d, []) != [];
    NextReplyPiece(fs, asked, d, answered, []);
    if d.listener.Listening? {
      var h := ResponseHeader(0, d.replies[0].tid);
      ResponseHeaderRoundTrip(0, d.replies[0].tid);
      assert d.down[..4] == h[..4] && d.down[4..8] == h[4..8];
    }
  }

  lemma {:induction false} HearAll(s: State, k: nat) returns (steps: seq<Step>)
    requires Sound(s) && k < |s.conns| && Idle(s.conns[k]) && !s.conns[k].u.gaveUp && Clean(s.conns[k].q, s.sched)
    ensures Settling(steps)
    ensures var t := RunSteps(s, steps);
            && |t.conns| == |s.conns| && t.sched == s.sched
            && t.conns[k].u == s.conns[k].u && t.conns[k].q == s.conns[k].q
            && Quiet(t.conns[k])
    decreases Behind(s.conns[k].d)
  {
    if s.conns[k].d.replies == [] {
      steps := [];
      NothingToHear(s, k);
    } else {
      ListenMoves(s, k);
      SoundStep(s, Listen(k));
      hide Sound, Apply, EndedWell;
      var rest := HearAll(Apply(s, Listen(k)), k);
      Then(s, Listen(k), rest);
      steps := [Listen(k)] + rest;
    }
  }

  lemma NothingToHear(s: State, k: nat)
    requires Sound(s) && k < |s.conns| && Idle(s.conns[k]) && !s.conns[k].u.gaveUp && Clean(s.conns[k].q, s.sched)
    requires s.conns[k].d.replies == []
    ensures Quiet(s.conns[k])
  {
    RepliesFramed(s, k);
    FirstArrived(s.conns[k].d, []);
    hide Sound, DownFramed, TableOk, CompletedRight, AllDelivered;
  }

  // ---------------------------------------------------------------- the theorem

  /** The request thread takes everything, the scheduler drains and the responder answers. */
  lemma GoIdle(s: State, k: nat) returns (steps: seq<Step>)
    requires Sound(s) && k < |s.conns| && !s.conns[k].u.gaveUp && Drawable(s, k)
    ensures Settling(steps)
    ensures var t := RunSteps(s, steps); Sound(t) && k < |t.conns| && Idle(t.conns[k]) && !t.conns[k].u.gaveUp
  {
    var writes := WriteAll(s, k);
    var a := RunSteps(s, writes);
    SoundRun(s, writes);
    hide Sound, Apply, RunSteps, AllDone;
    var takes := TakeAll(a, k);
    var b := RunSteps(a, takes);
    var drains := Drain(b, k);
    var c := RunSteps(b, drains);
    var answers := AnswerAll(c, k);
    SoundRun(c, answers);
    Both(b, drains, answers);
    Both(a, takes, drains + answers);
    Both(s, writes, takes + (drains + answers));
    steps := writes + (takes + (drains + answers));
  }

  /** From every reachable state, on a connection on which no read of an argument gave up, and as long as there
      are ids for its requests: some continuation in which no client begins a request and no read gives up leaves
      the service with nothing to do on the connection and, if all tasks answered on it ended with code 0, leaves
      it quiet, so that every request ever issued on it is completed with its own result. */
  lemma CanGoQuiet(s: State, run: seq<Step>, k: nat) returns (more: seq<Step>)
    requires Initial(s) && k < |RunSteps(s, run).conns| && !RunSteps(s, run).conns[k].u.gaveUp
    requires Drawable(RunSteps(s, run), k)
    ensures Settling(more)
    ensures var r := RunSteps(s, run + more);
            && k < |r.conns| && !r.conns[k].u.gaveUp && Idle(r.conns[k])
            && (Clean(r.conns[k].q, r.sched) ==> Quiet(r.conns[k]))
  {
    SoundInitially(s);
    SoundRun(s, run);
    hide Sound, Apply, RunSteps, Initial, EndedWell;
    var a := RunSteps(s, run);
    more := GoIdle(a, k);
    var b := RunSteps(a, more);
    RunStepsAppend(s, run, more);
    if Clean(b.conns[k].q, b.sched) {
      var hears := HearAll(b, k);
      Both(a, more, hears);
      more := more + hears;
      RunStepsAppend(s, run, more);
    }
  }
}
