/** From a client's call to its answer, over every interleaving of clients, request threads, the
    scheduler, response threads and completion threads. */
module ServiceEndToEnd {
  import opened Bytes
  import opened Scheduling
  import opened SchedulingRuns
  import opened Framing
  import opened Service
  import opened ServiceRequests
  import opened ServiceIds
  import opened ServiceQueue
  import opened ServiceResponses

  predicate EndedWell(sched: Sched, stid: int) {
    GetTask(sched, stid).Some? && GetTask(sched, stid).value.code == 0
  }

  /** Every task answered on the connection ended with code 0. */
  predicate Clean(q: Queue, sched: Sched) {
    forall i :: 0 <= i < |q.answered| ==> EndedWell(sched, q.answered[i].stid)
  }

  /** The pieces the responder has yet to write of a response it began. */
  function Unfinished(q: Queue, sched: Sched): seq<seq<Byte>> {
    if AtHeaderSent(q) then [ValueSent(sched, q.pairs[q.responder.i].stid)] else []
  }

  predicate ConnDown(c: Conn, sched: Sched) {
    !c.u.gaveUp && Clean(c.q, sched) ==>
      DownOk(sched.cfg.functions, c.u.asked, c.d, c.q.answered, Unfinished(c.q, sched))
  }

  ghost predicate DownInv(s: State) {
    && Accounted(s.sched) && WellTyped(s.sched.cfg.functions)
    && forall k :: 0 <= k < |s.conns| ==> ConnDown(s.conns[k], s.sched)
  }

  // ---------------------------------------------------------------- the scheduler moves on

  lemma AccountedStep(s: State, step: Step)
    requires Accounted(s.sched)
    ensures Accounted(NextSched(s, step))
  {
    if step.SchedulerPass? {
      var a, b, ok := s.sched, NextSched(s, step), step.reloadOk;
      var c := Choice(a.cfg, a.tasks, a.current);
      PassEffect(a, ok);
      PassKeepsExecutionsSound(a, b, c, ok);
      PassKeepsOthersUntouched(a, b, c, ok);
    } else if step.Enqueue? && CanEnqueue(s, step.k) {
      var r := s.conns[step.k].q.requester;
      InsertKeepsAccounted(s.sched, TaskFor(s.sched.cfg.functions, step.k, r.req, r.stid));
    }
  }

  /** What was answered stays as it was, so a connection stays clean or not. */
  lemma DownGrows(c: Conn, a: Sched, b: Sched)
    requires ConnDown(c, a) && ResponderOk(c.q, a) && SchedGrows(a, b)
    ensures ConnDown(c, b)
  {
    hide DownOk;
    if AtHeaderSent(c.q) { StaysCompleted(a, b, c.q.pairs[c.q.responder.i].stid); }
    if Clean(c.q, b) {
      forall i | 0 <= i < |c.q.answered|
        ensures EndedWell(a, c.q.answered[i].stid)
      {
        StaysCompleted(a, b, c.q.answered[i].stid);
        assert EndedWell(b, c.q.answered[i].stid);
      }
    }
  }

  /** A task the scheduler holds under an id carries the function and the arguments of the request the id was
      drawn for, and if it completed with code 0 that request's result, which is what the responder sends. */
  lemma TaskIsRight(sched: Sched, owner: Owners, stid: int)
    requires SchedIds(sched, owner) && Accounted(sched) && WellTyped(sched.cfg.functions)
    requires GetTask(sched, stid).Some?
    ensures stid in owner
    ensures var t, req := GetTask(sched, stid).value, owner[stid].req;
            && t.fid == req.fid && t.args == req.args && t.thread == Some(owner[stid].conn)
            && (t.completed && t.code == 0 ==>
                  IsResult(sched.cfg.functions, req, t.value) && ValueSent(sched, stid) == t.value)
  {
    var i := sched.index[stid];
    var t := sched.tasks[i];
    assert TaskOwned(t, sched.cfg.functions, owner);
    if t.completed && t.code == 0 {
      assert Executed(sched, i);
      var k :| 0 <= k < |sched.ran| && sched.ran[k].idx == i;
      assert ShowsResult(sched.cfg, t);
      assert t.value[..|t.value|] == t.value;
    }
  }

  // ---------------------------------------------------------------- one connection takes a step

  lemma CleanBefore(q: Queue, q': Queue, p: Pair, sched: Sched)
    requires q'.answered == q.answered + [p] && Clean(q', sched)
    ensures Clean(q, sched) && EndedWell(sched, p.stid)
  {
    assert q'.answered[|q.answered|] == p;
    forall i | 0 <= i < |q.answered|
      ensures EndedWell(sched, q.answered[i].stid)
    {
      assert q'.answered[i] == q.answered[i];
    }
  }

  /** What the responder is about to send for an entry is the result of what the client asked under its id. */
  lemma EntryIsRight(s: State, k: nat)
    requires IdsInv(s) && DownInv(s) && k < |s.conns| && AtFound(s.conns[k].q) && !s.conns[k].u.gaveUp
    requires EndedWell(s.sched, s.conns[k].q.pairs[s.conns[k].q.responder.i].stid)
    requires IsTaskCompleted(s.sched, s.conns[k].q.pairs[s.conns[k].q.responder.i].stid)
    ensures var c := s.conns[k]; var p := c.q.pairs[c.q.responder.i]; var v := GetTask(s.sched, p.stid).value.value;
            && p.ctid in c.u.asked && IsResult(s.sched.cfg.functions, c.u.asked[p.ctid], v)
            && ValueSent(s.sched, p.stid) == v
  {
    var c := s.conns[k];
    var p := c.q.pairs[c.q.responder.i];
    assert IdsOk(c.q, k, s.owner, s.sched.index) && PairOk(p, k, s.owner);
    assert AskedOf(s.sched.cfg.functions, s.conns, s.owner[p.stid]);
    TaskIsRight(s.sched, s.owner, p.stid);
    hide IsResult, ValueSent, Accounted, WellTyped, SchedIds;
  }

  lemma HeaderStep(s: State, k: nat)
    requires RequestsInv(s) && IdsInv(s) && QueueInv(s) && DownInv(s) && k < |s.conns| && AtFound(s.conns[k].q)
    ensures ConnDown(Conn(NextUp(s, SendHeader(k)), NextQueue(s, SendHeader(k)), NextDown(s, SendHeader(k))), s.sched)
  {
    hide DownOk, IsResult, Accounted, WellTyped, SchedIds, UpOk, InOnePlace, ValueSent, IdsInv;
    var c := s.conns[k];
    var p, q' := c.q.pairs[c.q.responder.i], NextQueue(s, SendHeader(k));
    assert ResponderOk(c.q, s.sched) && ConnDown(c, s.sched) && Conserved(c.u, c.q);
    if !c.u.gaveUp && Clean(q', s.sched) {
      CleanBefore(c.q, q', p, s.sched);
      EntryIsRight(s, k);
      HeaderDownOk(s.sched.cfg.functions, c.u.asked, c.d, c.q.answered, p, GetTask(s.sched, p.stid).value.value);
    }
  }

  lemma OwnDownStep(s: State, step: Step)
    requires RequestsInv(s) && QueueInv(s) && DownInv(s) && !step.SchedulerPass? && step.k < |s.conns|
    requires step.Begin? || step.SendValue? || step.Listen?
    ensures ConnDown(Conn(NextUp(s, step), NextQueue(s, step), NextDown(s, step)), s.sched)
  {
    hide DownOk, IsTaskCompleted, GetTask, CanRead, HasWhole, Admissible, Accounted, WellTyped, Hear;
    hide UpOk, InOnePlace, EndedWell, ValueSent, BeginDown, Pieces, Without;
    var c := s.conns[step.k];
    assert ConnDown(c, s.sched) && UpOk(s.sched.cfg.functions, c.u) && Conserved(c.u, c.q);
    if !c.u.gaveUp && Clean(c.q, s.sched) {
      match step {
        case Begin(_, fid, args) => BeginStep(s, step.k, fid, args);
        case SendValue(_) => ValueStep(s, step.k);
        case Listen(_) => HearOk(s.sched.cfg.functions, c.u.asked, c.d, c.q.answered, Unfinished(c.q, s.sched));
        case _ =>
      }
    }
  }

  lemma BeginStep(s: State, k: nat, fid: int, args: seq<seq<Byte>>)
    requires k < |s.conns| && UpOk(s.sched.cfg.functions, s.conns[k].u)
    requires var c := s.conns[k]; DownOk(s.sched.cfg.functions, c.u.asked, c.d, c.q.answered, Unfinished(c.q, s.sched))
    ensures var c, step := s.conns[k], Begin(k, fid, args);
            var asked, d, unsent := NextUp(s, step).asked, NextDown(s, step), Unfinished(c.q, s.sched);
            DownOk(s.sched.cfg.functions, asked, d, c.q.answered, unsent)
  {
    var c, fs := s.conns[k], s.sched.cfg.functions;
    hide DownOk, Unfinished;
    if CanBegin(fs, c.u, fid, args) {
      assert Wrap32(c.u.counter) !in c.u.asked;
      var r := Request(fid, Wrap32(c.u.counter), args);
      BeginDownOk(fs, c.u.asked, c.d, c.q.answered, Unfinished(c.q, s.sched), r);
    }
  }

  lemma ValueStep(s: State, k: nat)
    requires k < |s.conns| && !s.conns[k].q.requester.Stopped?
    requires var c := s.conns[k]; DownOk(s.sched.cfg.functions, c.u.asked, c.d, c.q.answered, Unfinished(c.q, s.sched))
    ensures var c, q', d := s.conns[k], NextQueue(s, SendValue(k)), NextDown(s, SendValue(k));
            && DownOk(s.sched.cfg.functions, c.u.asked, d, c.q.answered, Unfinished(q', s.sched))
            && q'.answered == c.q.answered
  {
    var c := s.conns[k];
    hide DownOk, ValueSent, GetTask;
    if AtHeaderSent(c.q) {
      ValueDownOk(s.sched.cfg.functions, c.u.asked, c.d, c.q.answered, Unfinished(c.q, s.sched)[0]);
    }
  }

  predicate Elsewhere(step: Step) {
    !step.SchedulerPass? && !step.Begin? && !step.SendHeader? && !step.SendValue? && !step.Listen?
  }

  /** The other steps leave the way of responses alone. */
  lemma NothingSent(s: State, step: Step)
    requires Elsewhere(step) && step.k < |s.conns| && UpOk(s.sched.cfg.functions, s.conns[step.k].u)
    requires s.conns[step.k].q.requester.Paired? ==> Admissible(s.sched, step.k, s.conns[step.k].q)
    requires !NextUp(s, step).gaveUp
    ensures !s.conns[step.k].u.gaveUp && NextDown(s, step) == s.conns[step.k].d
    ensures NextUp(s, step).asked == s.conns[step.k].u.asked
  {
    hide UpOk, NextDown, NextUp, CanDismiss, Admissible;
    NextAsked(s, step);
    NeverDismissed(s.sched.cfg.functions, s.conns[step.k].u);
    if step.GiveUp? { NothingTaken(s, step.k); } else { NothingWritten(s, step); }
  }

  lemma NothingWritten(s: State, step: Step)
    requires Elsewhere(step) && !step.GiveUp? && step.k < |s.conns|
    requires s.conns[step.k].q.requester.Paired? ==> Admissible(s.sched, step.k, s.conns[step.k].q)
    requires !CanDismiss(s.sched.cfg.functions, s.conns[step.k].u.got)
    ensures NextDown(s, step) == s.conns[step.k].d && NextUp(s, step).asked == s.conns[step.k].u.asked
  {
    hide CanRead, CanDismiss, NextRead, HasWhole, GetTask, Admissible, Refusal;
  }

  lemma NothingTaken(s: State, k: nat)
    requires k < |s.conns| && !NextUp(s, GiveUp(k)).gaveUp
    ensures NextDown(s, GiveUp(k)) == s.conns[k].d && NextUp(s, GiveUp(k)).asked == s.conns[k].u.asked
  {
    hide CanGiveUp;
    var d := s.conns[k].d;
    assert d.down + [] == d.down;
  }

  lemma NothingAnswered(s: State, step: Step)
    requires Elsewhere(step) && step.k < |s.conns|
    ensures NextQueue(s, step).answered == s.conns[step.k].q.answered
    ensures Unfinished(NextQueue(s, step), s.sched) == Unfinished(s.conns[step.k].q, s.sched)
  {
    hide IsTaskCompleted, GetTask, ValueSent, Admissible, Decoded, IsClose;
  }

  lemma OtherDownStep(s: State, step: Step)
    requires Elsewhere(step) && step.k < |s.conns| && ConnDown(s.conns[step.k], s.sched)
    requires s.conns[step.k].q.requester.Paired? ==> Admissible(s.sched, step.k, s.conns[step.k].q)
    requires UpOk(s.sched.cfg.functions, s.conns[step.k].u)
    ensures ConnDown(Conn(NextUp(s, step), NextQueue(s, step), NextDown(s, step)), s.sched)
  {
    hide UpOk, NextUp, NextQueue, NextDown, DownOk, EndedWell, Unfinished, Admissible;
    if !NextUp(s, step).gaveUp {
      NothingSent(s, step);
      NothingAnswered(s, step);
    }
  }

  lemma NextDownOk(s: State, step: Step)
    requires RequestsInv(s) && IdsInv(s) && QueueInv(s) && DownInv(s) && !step.SchedulerPass? && step.k < |s.conns|
    ensures ConnDown(Conn(NextUp(s, step), NextQueue(s, step), NextDown(s, step)), s.sched)
  {
    hide UpOk, IdsOk, Conserved, ResponderOk, Accounted, Admissible, SchedIds, DownOk, ConnDown;
    var c := s.conns[step.k];
    if step.SendHeader? && AtFound(c.q) {
      HeaderStep(s, step.k);
    } else if step.SendHeader? {
      assert Conn(NextUp(s, step), NextQueue(s, step), NextDown(s, step)) == c;
    } else if step.Begin? || step.SendValue? || step.Listen? {
      OwnDownStep(s, step);
    } else {
      assert UpOk(s.sched.cfg.functions, c.u);
      if c.q.requester.Paired? { PairedIsAdmissible(s, step.k); }
      OtherDownStep(s, step);
    }
  }

  lemma DownInvStep(s: State, step: Step)
    requires RequestsInv(s) && IdsInv(s) && QueueInv(s) && DownInv(s)
    ensures DownInv(Apply(s, step))
  {
    hide UpOk, IdsOk, Conserved, Accounted, SchedIds, ConnDown, ResponderOk, SchedGrows, WellTyped;
    hide NextUp, NextQueue, NextDown, NextSched;
    AccountedStep(s, step);
    SchedulerGrows(s, step);
    SameConfig(s, step);
    var s' := Apply(s, step);
    if !step.SchedulerPass? && step.k < |s.conns| {
      NextDownOk(s, step);
      ResponderNext(s, step);
    }
    forall k | 0 <= k < |s'.conns|
      ensures ConnDown(s'.conns[k], s'.sched)
    {
      assert ConnDown(s'.conns[k], s.sched) && ResponderOk(s'.conns[k].q, s.sched);
      DownGrows(s'.conns[k], s.sched, s'.sched);
    }
  }

  lemma DownInitially(s: State)
    requires Initial(s)
    ensures DownInv(s)
  {
    forall k | 0 <= k < |s.conns|
      ensures ConnDown(s.conns[k], s.sched)
    {
      var c := s.conns[k];
      assert Arrived(c.d, []) == [];
    }
  }

  lemma {:induction false} DownAlways(s: State, steps: seq<Step>)
    requires Initial(s)
    ensures DownInv(RunSteps(s, steps))
  {
    hide DownInv, RequestsInv, IdsInv, QueueInv, Apply, Initial;
    if steps == [] {
      DownInitially(s);
    } else {
      var p := steps[..|steps| - 1];
      DownAlways(s, p);
      IdsAlways(s, p);
      QueueAlways(s, p);
      DownInvStep(RunSteps(s, p), steps[|steps| - 1]);
    }
  }

  // ---------------------------------------------------------------- the theorems

  /** Whatever the interleaving, and whatever timed out or failed on other connections: on a connection on which
      no read of an argument gave up and whose answered tasks all ended with code 0, a task the client sees
      completed has code 0 and holds exactly what its own function returns on its own arguments. */
  lemma EndToEnd(s: State, steps: seq<Step>, k: nat, tid: int)
    requires Initial(s) && k < |RunSteps(s, steps).conns|
    requires !RunSteps(s, steps).conns[k].u.gaveUp
    requires Clean(RunSteps(s, steps).conns[k].q, RunSteps(s, steps).sched)
    requires tid in RunSteps(s, steps).conns[k].d.table && RunSteps(s, steps).conns[k].d.table[tid].completed
    ensures var c := RunSteps(s, steps).conns[k];
            && c.d.table[tid].code == 0 && tid in c.u.asked && c.u.asked[tid].tid == tid
            && c.u.asked[tid].fid in s.sched.cfg.functions
            && s.sched.cfg.functions[c.u.asked[tid].fid].fn(c.u.asked[tid].args) == Returned(c.d.table[tid].value)
  {
    DownAlways(s, steps);
    RequestsAlways(s, steps);
    var r := RunSteps(s, steps);
    var c, fs := r.conns[k], s.sched.cfg.functions;
    assert ConnDown(c, r.sched) && UpOk(fs, c.u);
    assert IsResult(fs, c.u.asked[tid], c.d.table[tid].value);
    assert WellFormed(fs, c.u.asked[tid]);
    UnpackRoundTrip(fs, c.u.asked[tid]);
  }

  /** The service has nothing left to do on the connection. */
  predicate Idle(c: Conn) {
    c.u.unsent == [] && c.u.inflight == [] && c.q.requester.Reading? && c.q.pairs == [] && c.q.responder.Asleep?
  }

  /** Nothing is left under way on the connection. */
  predicate Quiet(c: Conn) {
    Idle(c) && c.d.down == [] && c.d.listener.Listening?
  }

  /** When such a connection has gone quiet, every request ever issued on it is completed. */
  lemma QuietMeansDone(s: State, steps: seq<Step>, k: nat, tid: int)
    requires Initial(s) && k < |RunSteps(s, steps).conns|
    requires !RunSteps(s, steps).conns[k].u.gaveUp
    requires Clean(RunSteps(s, steps).conns[k].q, RunSteps(s, steps).sched) && Quiet(RunSteps(s, steps).conns[k])
    requires tid in RunSteps(s, steps).conns[k].u.asked
    ensures var d := RunSteps(s, steps).conns[k].d; tid in d.table && d.table[tid].completed
  {
    DownAlways(s, steps);
    QueueAlways(s, steps);
    var r := RunSteps(s, steps);
    var c := r.conns[k];
    assert Conserved(c.u, c.q) && ConnDown(c, r.sched);
    assert RequestTids(c.u.inflight) == [] && Tids(Waiting(c.q)) == [];
    assert multiset(Tids(c.q.answered)) == multiset(c.u.asked.Keys);
    assert tid in multiset(Tids(c.q.answered));
    var i :| 0 <= i < |c.q.answered| && Tids(c.q.answered)[i] == tid;
    assert Delivered(c.d, c.q.answered[i].ctid);
    NoReplyLeft(c.d);
  }

  /** With nothing on the socket no reply is unread. */
  lemma NoReplyLeft(d: DownLink)
    requires EncodableReplies(d.replies) && DownFramed(d, []) && d.down == [] && d.listener.Listening?
    ensures d.replies == []
  {
    assert Arrived(d, []) == AllReplyPieces(d.replies);
    FirstArrived(d, []);
  }
}
