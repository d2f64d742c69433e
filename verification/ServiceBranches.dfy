/** The branches of the machine that the other results leave open, whether or not a read gave up before: what the
    request thread does with any header, what the client makes of any bytes, and what a close request ends. */
module ServiceBranches {
  import opened Bytes
  import opened Scheduling
  import opened Framing
  import opened Service
  import opened ServiceRequests
  import opened ServiceIds
  import opened ServiceQueue
  import opened ServiceEndToEnd
  import opened ServiceScan
  import opened ServiceTimeouts
  import opened SchedulingRuns

  // ---------------------------------------------------------------- a start

  /** A service with one function, which returns its argument of one byte, and n connections. */
  function EchoService(n: nat): State {
    var echo := Func("echo", [1], 1, args => if |args| == 1 && |args[0]| == 1 then Returned(args[0]) else Threw);
    State(Sched(Config(true, true, map[0 := echo]), [], map[], "", [], []), 0, map[],
          seq(n, _ => Conn(EMPTY_UP, EMPTY_QUEUE, EMPTY_DOWN)))
  }

  /** It is a start of the machine, and its clients can call the function. */
  lemma EchoStarts(n: nat, b: Byte)
    ensures Initial(EchoService(n)) && |EchoService(n).conns| == n
    ensures WellFormed(EchoService(n).sched.cfg.functions, Request(0, 0, [[b]]))
    ensures EchoService(n).sched.cfg.functions[0].Run([[b]]) == Returned([b])
  {
    var fs := EchoService(n).sched.cfg.functions;
    assert SizesFit(fs[0]) && WellFormed(fs, Request(0, 0, [[b]]));
    UnpackRoundTrip(fs, Request(0, 0, [[b]]));
  }

  // ---------------------------------------------------------------- the request thread

  /** A header that is not the submission of a known function is dropped: a close request ends the thread, an unknown
      function is refused with code 1, and another operation is ignored. The other headers stay. */
  lemma DismissedHeader(s: State, k: nat, op: int, fid: int, tid: int)
    requires k < |s.conns| && s.conns[k].q.requester.Reading? && IsInt32(op) && IsInt32(fid) && IsInt32(tid)
    requires s.conns[k].u.got == [RequestHeader(op, fid, tid)]
    ensures var c, t := s.conns[k], Apply(s, Dismiss(k));
            && |t.conns| == |s.conns| && t.sched == s.sched
            && (op == OP_SUBMIT_TASK && fid in s.sched.cfg.functions ==> t.conns[k] == c)
            && (op == OP_SUBMIT_TASK && fid !in s.sched.cfg.functions ==>
                  t.conns[k] == Conn(c.u.(got := []), c.q, c.d.(down := c.d.down + ResponseHeader(1, tid))))
            && (op == OP_CLOSE_CONN ==> t.conns[k] == Conn(c.u.(got := []), c.q.(requester := Stopped), c.d))
            && (op != OP_SUBMIT_TASK && op != OP_CLOSE_CONN ==> t.conns[k] == Conn(c.u.(got := []), c.q, c.d))
  {
    OwnConn(s, Dismiss(k));
    RequestHeaderRoundTrip(op, fid, tid);
    hide RequestHeader, ResponseHeader;
  }

  /** In the middle of any request, also a misread one, a read that gives up takes what is there and refuses the id of
      the header. */
  lemma RefusedMidRequest(s: State, k: nat, fid: int, tid: int)
    requires k < |s.conns| && s.conns[k].q.requester.Reading? && CanGiveUp(s.sched.cfg.functions, s.conns[k].u)
    requires IsInt32(fid) && IsInt32(tid)
    requires s.conns[k].u.got != [] && s.conns[k].u.got[0] == RequestHeader(OP_SUBMIT_TASK, fid, tid)
    ensures var c, t := s.conns[k], Apply(s, GiveUp(k)).conns[k];
            && t.u == c.u.(up := [], got := [], gaveUp := true) && t.q == c.q
            && t.d == c.d.(down := c.d.down + ResponseHeader(1, tid))
  {
    OwnConn(s, GiveUp(k));
    RequestHeaderRoundTrip(OP_SUBMIT_TASK, fid, tid);
    hide RequestHeader, ResponseHeader;
  }

  /** A task that the scheduler does not take is refused with code 1. */
  lemma RefusedTask(s: State, k: nat)
    requires k < |s.conns| && s.conns[k].q.requester.Paired? && !Admissible(s.sched, k, s.conns[k].q)
    requires IsInt32(s.conns[k].q.requester.req.tid)
    ensures var c, t := s.conns[k], Apply(s, Check(k)).conns[k];
            && t.u == c.u && t.q == c.q.(requester := Reading)
            && t.d == c.d.(down := c.d.down + ResponseHeader(1, c.q.requester.req.tid))
  {
    OwnConn(s, Check(k));
    hide Admissible, ResponseHeader;
  }

  /** When the header cannot be written because the connection is closed, the scan ends and the entry stays; when the
      scheduler has no such task, the entry is looked at again. */
  lemma NotAnswered(s: State, k: nat)
    requires k < |s.conns| && AtFound(s.conns[k].q)
    ensures var c, t := s.conns[k], Apply(s, SendHeader(k)).conns[k];
            var p := c.q.pairs[c.q.responder.i];
            && (c.q.requester.Stopped? ==> t == c.(q := c.q.(responder := Asleep)))
            && (!c.q.requester.Stopped? && GetTask(s.sched, p.stid).None? ==>
                  t == c.(q := c.q.(responder := At(c.q.responder.i))))
  {
    OwnConn(s, SendHeader(k));
    hide GetTask, HeaderFor;
  }

  // ---------------------------------------------------------------- the client

  /** With nothing left to read, the client waits. */
  lemma Waits(d: DownLink, n: nat)
    requires d.down == [] && !CanHearValue(d)
    ensures HearMany(d, n) == d
  {
    NothingMore(d, n);
  }

  /** Enough reads of the client, over any bytes, are the response parser: the same records, and a value that is not
      all there leaves the client waiting for it or ended. */
  lemma {:induction false} HearIsReceive(d: DownLink, n: nat)
    requires d.listener.Listening? && n >= |d.down| && forall tid :: tid in d.table ==> d.table[tid].retSize > 0
    ensures var d', r := HearMany(d, n), Receive(d.table, d.down);
            d'.table == r.table && d'.down == [] && (r.failed <==> !d'.listener.Listening?)
    decreases |d.down|
  {
    if d.down == [] {
      Waits(d, n);
    } else if |d.down| < RESPONSE_SIZE {
      Waits(d.(down := []), n - 1);
    } else {
      var code, tid := FromLe32(d.down[..4]), FromLe32(d.down[4..8]);
      if tid in d.table && code == 0 {
        HearResult(d, n, tid);
      } else {
        HearIsReceive(Hear(d), n - 1);
      }
    }
  }

  lemma {:induction false} HearResult(d: DownLink, n: nat, tid: int)
    requires d.listener.Listening? && n >= |d.down| >= RESPONSE_SIZE
    requires forall tid :: tid in d.table ==> d.table[tid].retSize > 0
    requires FromLe32(d.down[..4]) == 0 && tid == FromLe32(d.down[4..8]) && tid in d.table
    ensures var d', r := HearMany(d, n), Receive(d.table, d.down);
            d'.table == r.table && d'.down == [] && (r.failed <==> !d'.listener.Listening?)
    decreases |d.down|, 0
  {
    var rest, size := d.down[RESPONSE_SIZE..], d.table[tid].retSize;
    var a := Hear(d);
    assert a == d.(down := rest, listener := Awaiting(tid));
    var b := Hear(a);
    if rest == [] {
      Waits(a, n - 1);
    } else if |rest| < size {
      assert b == a.(down := [], listener := Dead);
      Waits(b, n - 2);
    } else {
      assert b.table == d.table[tid := Complete(d.table[tid], rest[..size])] && b.down == rest[size..];
      HearIsReceive(b, n - 2);
    }
  }

  /** The client has a record for each request it made, with its function and the size of that one's result; and one
      that is not completed is blank. */
  predicate RecordsOk(functions: Functions, asked: map<int, Request>, table: Table) {
    && table.Keys == asked.Keys
    && forall tid :: tid in table ==>
         && asked[tid].fid in functions && table[tid].fid == asked[tid].fid
         && table[tid].retSize == functions[asked[tid].fid].retSize
         && (!table[tid].completed ==> table[tid].code == -1 && table[tid].value == [])
  }

  lemma HearKeepsRecords(functions: Functions, asked: map<int, Request>, d: DownLink)
    requires RecordsOk(functions, asked, d.table)
    ensures RecordsOk(functions, asked, Hear(d).table)
  {
  }

  lemma NextKeepsRecords(s: State, step: Step)
    requires !step.SchedulerPass? && step.k < |s.conns| && UpOk(s.sched.cfg.functions, s.conns[step.k].u)
    requires RecordsOk(s.sched.cfg.functions, s.conns[step.k].u.asked, s.conns[step.k].d.table)
    ensures RecordsOk(s.sched.cfg.functions, NextUp(s, step).asked, NextDown(s, step).table)
  {
    hide UpOk, RecordsOk, WellFormed, Hear;
    var c, fs := s.conns[step.k], s.sched.cfg.functions;
    if step.Begin? {
      if CanBegin(fs, c.u, step.fid, step.args) {
        BeginKeeps(fs, c.u, step.fid, step.args);
        NewRecord(fs, c, step.fid, step.args);
      }
    } else {
      hide NextUp, NextDown;
      if step.Listen? { HearKeepsRecords(fs, c.u.asked, c.d); }
      SameRecords(s, step);
    }
  }

  lemma NewRecord(functions: Functions, c: Conn, fid: int, args: seq<seq<Byte>>)
    requires RecordsOk(functions, c.u.asked, c.d.table) && Wrap32(c.u.counter) !in c.u.asked
    requires CanBegin(functions, c.u, fid, args)
    ensures var table := BeginDown(c.d, Wrap32(c.u.counter), fid, functions[fid].retSize).table;
            RecordsOk(functions, BeginUp(c.u, fid, args).asked, table)
  {
    hide Pieces;
    var tid := Wrap32(c.u.counter);
    assert tid !in c.d.table;
    assert c.u.asked[tid := Request(fid, tid, args)].Keys == c.u.asked.Keys + {tid};
  }

  lemma SameRecords(s: State, step: Step)
    requires !step.SchedulerPass? && !step.Begin? && step.k < |s.conns|
    ensures NextUp(s, step).asked == s.conns[step.k].u.asked
    ensures NextDown(s, step).table == if step.Listen? then Hear(s.conns[step.k].d).table else s.conns[step.k].d.table
  {
    hide Hear, CanRead, CanGiveUp, CanDismiss, HasWhole, GetTask, Admissible, ValueSent, Refusal;
  }

  /** In every interleaving, whatever timed out, failed or was misread. */
  lemma {:induction false} RecordsAreOfRequests(s: State, steps: seq<Step>, k: nat)
    requires Initial(s) && k < |s.conns|
    ensures k < |RunSteps(s, steps).conns|
    ensures var c := RunSteps(s, steps).conns[k]; RecordsOk(s.sched.cfg.functions, c.u.asked, c.d.table)
  {
    hide Apply, RecordsOk, RequestsInv, WellTyped;
    if steps == [] {
      NoRecords(s.sched.cfg.functions);
    } else {
      var p, step := RunSteps(s, steps[..|steps| - 1]), steps[|steps| - 1];
      RecordsAreOfRequests(s, steps[..|steps| - 1], k);
      RequestsAlways(s, steps[..|steps| - 1]);
      RecordsStep(p, step, k);
    }
  }

  lemma NoRecords(functions: Functions)
    ensures RecordsOk(functions, map[], map[])
  {
  }

  lemma RecordsStep(s: State, step: Step, k: nat)
    requires RequestsInv(s) && k < |s.conns| && RecordsOk(s.sched.cfg.functions, s.conns[k].u.asked, s.conns[k].d.table)
    ensures k < |Apply(s, step).conns|
    ensures var c := Apply(s, step).conns[k]; RecordsOk(s.sched.cfg.functions, c.u.asked, c.d.table)
  {
    Unchanging(s, step);
    hide UpOk, RecordsOk, NextUp, NextDown, NextQueue, NextSched;
    if !step.SchedulerPass? && step.k == k {
      NextKeepsRecords(s, step);
      OwnConn(s, step);
    }
  }

  // ---------------------------------------------------------------- the responder

  /** The ids of requests are 32 bits wide, misread ones included. */
  lemma {:induction false} OwnersFit(s: State, steps: seq<Step>)
    requires Initial(s)
    ensures forall stid :: stid in RunSteps(s, steps).owner ==> IsInt32(RunSteps(s, steps).owner[stid].req.tid)
  {
    hide NextUp, NextQueue, NextDown, NextSched, HasWhole, WellTyped;
    if steps != [] { OwnersFit(s, steps[..|steps| - 1]); }
  }

  /** How a task that is completed ended. */
  lemma EndedSomehow(sched: Sched, stid: int)
    requires Accounted(sched) && WellTyped(sched.cfg.functions)
    requires IsTaskCompleted(sched, stid) && GetTask(sched, stid).Some?
    requires var t, fs := sched.tasks[sched.index[stid]], sched.cfg.functions;
             t.fid in fs && t.retSize == fs[t.fid].retSize > 0
    ensures var t := GetTask(sched, stid).value;
            ValueSent(sched, stid) == if t.code == 0 then t.value else []
  {
    var i := sched.index[stid];
    var t := sched.tasks[i];
    if Executed(sched, i) {
      var k :| 0 <= k < |sched.ran| && sched.ran[k].idx == i;
      assert ShowsResult(sched.cfg, t);
    }
    assert t.code == 0 ==> t.value[..t.retSize] == t.value;
  }

  /** In every reachable state, for every connection: the two writes for an entry whose task the responder has found
      completed are what `Framing.Announced` says of how that task ended, so a failed task is announced with code 0
      and without a value. */
  lemma AnswerIsAnnounced(s: State, steps: seq<Step>, k: nat)
    requires Initial(s) && k < |RunSteps(s, steps).conns| && AtFound(RunSteps(s, steps).conns[k].q)
    requires !RunSteps(s, steps).conns[k].q.requester.Stopped?
    ensures var r := RunSteps(s, steps); var q := r.conns[k].q; var p := q.pairs[q.responder.i];
            && IsInt32(p.ctid) && GetTask(r.sched, p.stid).Some?
            && var t, a := GetTask(r.sched, p.stid).value, Apply(r, SendHeader(k));
               && k < |a.conns|
               && NextDown(a, SendValue(k)).down == r.conns[k].d.down + Announced(Ending(p.ctid, t.code, t.value))
  {
    var r := RunSteps(s, steps);
    var q := r.conns[k].q;
    var p := q.pairs[q.responder.i];
    IdsAlways(s, steps);
    QueueAlways(s, steps);
    DownAlways(s, steps);
    OwnersFit(s, steps);
    FoundTask(r, k);
    TwoWrites(r, k);
    hide RunSteps, Apply, Initial, RequestsInv, IdsInv, QueueInv, DownInv, GetTask, ValueSent, ResponseHeader, NextDown;
  }

  lemma TwoWrites(r: State, k: nat)
    requires k < |r.conns| && AtFound(r.conns[k].q) && !r.conns[k].q.requester.Stopped?
    requires var p := r.conns[k].q.pairs[r.conns[k].q.responder.i];
             IsInt32(p.ctid) && GetTask(r.sched, p.stid).Some?
    ensures var p, a := r.conns[k].q.pairs[r.conns[k].q.responder.i], Apply(r, SendHeader(k));
            && k < |a.conns|
            && NextDown(a, SendValue(k)).down
            == r.conns[k].d.down + (ResponseHeader(0, p.ctid) + ValueSent(r.sched, p.stid))
  {
    hide ResponseHeader, ValueSent, GetTask;
    var q := r.conns[k].q;
    var p, a := q.pairs[q.responder.i], Apply(r, SendHeader(k));
    OwnConn(r, SendHeader(k));
    hide Apply;
    assert a.conns[k].d.down == r.conns[k].d.down + ResponseHeader(0, p.ctid);
    assert a.conns[k].q.responder == HeaderSent(q.responder.i) && a.conns[k].q.pairs == q.pairs;
    Regroup(r.conns[k].d.down, ResponseHeader(0, p.ctid), ValueSent(r.sched, p.stid));
  }

  lemma FoundTask(r: State, k: nat)
    requires RequestsInv(r) && IdsInv(r) && QueueInv(r) && DownInv(r) && k < |r.conns| && AtFound(r.conns[k].q)
    requires forall stid :: stid in r.owner ==> IsInt32(r.owner[stid].req.tid)
    ensures var q := r.conns[k].q; var p := q.pairs[q.responder.i];
            && IsInt32(p.ctid) && GetTask(r.sched, p.stid).Some?
            && var t := GetTask(r.sched, p.stid).value;
               ValueSent(r.sched, p.stid) == if t.code == 0 then t.value else []
  {
    var q := r.conns[k].q;
    var p := q.pairs[q.responder.i];
    assert ResponderOk(q, r.sched) && IdsOk(q, k, r.owner, r.sched.index) && PairOk(p, k, r.owner);
    var i := r.sched.index[p.stid];
    assert TaskOwned(r.sched.tasks[i], r.sched.cfg.functions, r.owner);
    IndexLookup(r.sched, p.stid);
    assert SizesFit(r.sched.cfg.functions[r.sched.tasks[i].fid]);
    hide RequestsInv, IdsInv, QueueInv, ResponderOk, SchedIds;
    EndedSomehow(r.sched, p.stid);
  }

  // ---------------------------------------------------------------- after a close request

  /** What follows a close request on the connection: the thread has ended, nothing more is answered, and the client
      only reads what was written before. */
  predicate Winding(c: Conn, c': Conn) {
    && c'.q.requester.Stopped? && c'.q.answered == c.q.answered
    && (c'.d.down == c.d.down || |c'.d.down| < |c.d.down|)
  }

  lemma ClosedStep(s: State, step: Step, k: nat)
    requires k < |s.conns| && s.conns[k].q.requester.Stopped?
    ensures k < |Apply(s, step).conns| && Winding(s.conns[k], Apply(s, step).conns[k])
  {
    Unchanging(s, step);
    if !step.SchedulerPass? && step.k == k {
      OwnConn(s, step);
      ClosedQueue(s, step);
      ClosedDown(s, step);
      hide NextQueue, NextDown, NextUp, Apply;
    }
  }

  lemma ClosedQueue(s: State, step: Step)
    requires !step.SchedulerPass? && step.k < |s.conns| && s.conns[step.k].q.requester.Stopped?
    ensures NextQueue(s, step).requester.Stopped? && NextQueue(s, step).answered == s.conns[step.k].q.answered
  {
    hide IsTaskCompleted, GetTask, Without, Decoded, Admissible;
  }

  lemma ClosedDown(s: State, step: Step)
    requires !step.SchedulerPass? && step.k < |s.conns| && s.conns[step.k].q.requester.Stopped?
    ensures var d, d' := s.conns[step.k].d, NextDown(s, step); d'.down == d.down || |d'.down| < |d.down|
  {
    hide IsTaskCompleted, GetTask, ValueSent, Admissible, Refusal, Complete, CanBegin;
  }

  /** Over every run after a close request, however it came to be read: the service answers nothing more on the
      connection and the socket to the client only empties. */
  lemma {:induction false} ClosedForGood(s: State, steps: seq<Step>, k: nat)
    requires k < |s.conns| && s.conns[k].q.requester.Stopped?
    ensures k < |RunSteps(s, steps).conns| && Winding(s.conns[k], RunSteps(s, steps).conns[k])
  {
    hide Apply;
    if steps != [] {
      ClosedForGood(s, steps[..|steps| - 1], k);
      ClosedStep(RunSteps(s, steps[..|steps| - 1]), steps[|steps| - 1], k);
    }
  }
}
