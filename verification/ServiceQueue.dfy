/** The service's side of a connection in every interleaving: no request is lost or answered twice,
    and a task once seen completed stays there. */
module ServiceQueue {
  import opened Bytes
  import opened Scheduling
  import opened Framing
  import opened Service
  import opened ServiceRequests
  import opened ServiceIds

  // ---------------------------------------------------------------- conservation

  function Tids(ps: seq<Pair>): (r: seq<int>)
    ensures |r| == |ps| && forall i :: 0 <= i < |ps| ==> r[i] == ps[i].ctid
  {
    seq(|ps|, i requires 0 <= i < |ps| => ps[i].ctid)
  }

  function RequestTids(rs: seq<Request>): (r: seq<int>)
    ensures |r| == |rs| && forall i :: 0 <= i < |rs| ==> r[i] == rs[i].tid
  {
    seq(|rs|, i requires 0 <= i < |rs| => rs[i].tid)
  }

  /** The entries still to be answered. */
  function Waiting(q: Queue): seq<Pair> {
    if q.responder.HeaderSent? then Without(q.pairs, q.responder.i) else q.pairs
  }

  function Holding(q: Queue): multiset<int> {
    if q.requester.Drawn? then multiset{q.requester.req.tid} else multiset{}
  }

  /** Every request issued on the connection is in exactly one place: on its way, in the hands of the
      request thread, waiting for an answer, or answered. */
  predicate InOnePlace(u: UpLink, q: Queue) {
    multiset(RequestTids(u.inflight)) + Holding(q) + multiset(Tids(Waiting(q))) + multiset(Tids(q.answered))
      == multiset(u.asked.Keys)
  }

  /** So it is unless a read of an argument gave up; and only then can the service see a close request. */
  predicate Conserved(u: UpLink, q: Queue) {
    !u.gaveUp ==> InOnePlace(u, q) && !q.requester.Stopped?
  }

  lemma TidsWithout(ps: seq<Pair>, i: nat)
    requires i < |ps|
    ensures multiset(Tids(ps)) == multiset{ps[i].ctid} + multiset(Tids(Without(ps, i)))
  {
    var t := Tids(ps);
    assert t == t[..i] + ([t[i]] + t[i + 1..]);
    assert Tids(Without(ps, i)) == t[..i] + t[i + 1..];
  }

  lemma MultisetOfNew(s: set<int>, x: int)
    requires x !in s
    ensures multiset(s + {x}) == multiset(s) + multiset{x}
  {
  }

  lemma ConservedBegin(u: UpLink, q: Queue, fid: int, args: seq<seq<Byte>>)
    requires InOnePlace(u, q) && IsInt32(fid) && Wrap32(u.counter) !in u.asked
    ensures InOnePlace(BeginUp(u, fid, args), q)
  {
    var u', tid := BeginUp(u, fid, args), Wrap32(u.counter);
    assert RequestTids(u'.inflight) == RequestTids(u.inflight) + [tid];
    assert u'.asked.Keys == u.asked.Keys + {tid};
    MultisetOfNew(u.asked.Keys, tid);
  }

  lemma ConservedDraw(u: UpLink, q: Queue, stid: int)
    requires InOnePlace(u, q) && u.inflight != [] && !q.requester.Drawn?
    ensures InOnePlace(TakeWhole(u), q.(requester := Drawn(u.inflight[0], stid)))
  {
    assert RequestTids(u.inflight) == [u.inflight[0].tid] + RequestTids(u.inflight[1..]);
  }

  lemma ConservedPush(u: UpLink, q: Queue)
    requires InOnePlace(u, q) && q.requester.Drawn? && q.responder.Asleep?
    ensures InOnePlace(u, Push(q))
  {
    assert Tids(Push(q).pairs) == Tids(q.pairs) + [q.requester.req.tid];
  }

  lemma ConservedHeader(u: UpLink, q: Queue)
    requires InOnePlace(u, q) && AtFound(q)
    ensures InOnePlace(u, q.(responder := HeaderSent(q.responder.i), answered := q.answered + [q.pairs[q.responder.i]]))
  {
    TidsWithout(q.pairs, q.responder.i);
    assert Tids(q.answered + [q.pairs[q.responder.i]]) == Tids(q.answered) + [q.pairs[q.responder.i].ctid];
  }

  lemma RequestsUntouched(s: State, step: Step)
    requires !step.SchedulerPass? && step.k < |s.conns| && !step.Begin? && !step.Draw?
    ensures NextUp(s, step).asked == s.conns[step.k].u.asked && NextUp(s, step).inflight == s.conns[step.k].u.inflight
  {
    hide CanRead, NextRead, CanGiveUp, CanDismiss;
  }

  lemma EntriesUntouched(s: State, step: Step)
    requires !step.SchedulerPass? && step.k < |s.conns| && !step.Draw? && !step.PushPair? && !step.SendHeader?
    requires !IsClose(s.conns[step.k].u.got)
    ensures var q, q' := s.conns[step.k].q, NextQueue(s, step);
            && (q'.requester == q.requester || (!q'.requester.Drawn? && !q.requester.Drawn? && !q'.requester.Stopped?))
            && Waiting(q') == Waiting(q) && q'.answered == q.answered
  {
    hide Decoded, Admissible, IsTaskCompleted, GetTask, Without;
  }

  lemma ConservedStep(s: State, step: Step)
    requires !step.SchedulerPass? && step.k < |s.conns|
    requires UpOk(s.sched.cfg.functions, s.conns[step.k].u) && Conserved(s.conns[step.k].u, s.conns[step.k].q)
    ensures Conserved(NextUp(s, step), NextQueue(s, step))
  {
    if !NextUp(s, step).gaveUp {
      NextAsked(s, step);
      NeverDismissed(s.sched.cfg.functions, s.conns[step.k].u);
      ConservedStepOf(s, step);
    }
  }

  lemma ConservedStepOf(s: State, step: Step)
    requires !step.SchedulerPass? && step.k < |s.conns| && UpOk(s.sched.cfg.functions, s.conns[step.k].u)
    requires !s.conns[step.k].u.gaveUp && !CanDismiss(s.sched.cfg.functions, s.conns[step.k].u.got)
    requires InOnePlace(s.conns[step.k].u, s.conns[step.k].q) && !s.conns[step.k].q.requester.Stopped?
    ensures InOnePlace(NextUp(s, step), NextQueue(s, step)) && !NextQueue(s, step).requester.Stopped?
  {
    var u, q, fs := s.conns[step.k].u, s.conns[step.k].q, s.sched.cfg.functions;
    assert !IsClose(u.got);
    hide CanDismiss, IsClose;
    if step.Begin? || step.Draw? {
      ConservedAsk(s, step);
    } else if step.PushPair? || step.SendHeader? {
      ConservedMove(s, step);
    } else {
      hide InOnePlace;
      RequestsUntouched(s, step);
      EntriesUntouched(s, step);
      hide NextUp, NextQueue;
      SamePlaces(u, q, NextUp(s, step), NextQueue(s, step));
    }
  }

  lemma SamePlaces(u: UpLink, q: Queue, u': UpLink, q': Queue)
    requires InOnePlace(u, q) && u'.inflight == u.inflight && u'.asked == u.asked
    requires q'.requester == q.requester || (!q'.requester.Drawn? && !q.requester.Drawn?)
    requires Waiting(q') == Waiting(q) && q'.answered == q.answered
    ensures InOnePlace(u', q')
  {
  }

  lemma ConservedAsk(s: State, step: Step)
    requires (step.Begin? || step.Draw?) && step.k < |s.conns| && UpOk(s.sched.cfg.functions, s.conns[step.k].u)
    requires !s.conns[step.k].u.gaveUp
    requires InOnePlace(s.conns[step.k].u, s.conns[step.k].q) && !s.conns[step.k].q.requester.Stopped?
    ensures InOnePlace(NextUp(s, step), NextQueue(s, step)) && !NextQueue(s, step).requester.Stopped?
  {
    var u, q, fs := s.conns[step.k].u, s.conns[step.k].q, s.sched.cfg.functions;
    if step.Begin? {
      if CanBegin(fs, u, step.fid, step.args) {
        assert Wrap32(u.counter) !in u.asked;
        ConservedBegin(u, q, step.fid, step.args);
      }
    } else if CanDraw(s, step.k) {
      WholeIsFront(fs, u);
      ConservedDraw(u, q, Wrap32(s.draws));
    }
    hide InOnePlace, UpOk, WellFormed, HasWhole, Decoded, BeginUp, TakeWhole;
  }

  lemma ConservedMove(s: State, step: Step)
    requires (step.PushPair? || step.SendHeader?) && step.k < |s.conns|
    requires InOnePlace(s.conns[step.k].u, s.conns[step.k].q) && !s.conns[step.k].q.requester.Stopped?
    ensures InOnePlace(NextUp(s, step), NextQueue(s, step)) && !NextQueue(s, step).requester.Stopped?
  {
    var u, q := s.conns[step.k].u, s.conns[step.k].q;
    if step.PushPair? {
      if q.requester.Drawn? && q.responder.Asleep? { ConservedPush(u, q); }
    } else if AtFound(q) {
      ConservedHeader(u, q);
      SamePlaces(u, q, u, q.(responder := At(q.responder.i)));
    }
    hide InOnePlace, GetTask;
  }

  // ---------------------------------------------------------------- the responder

  /** s' is later than s, and every lookup that succeeded still finds the same place. */
  ghost predicate SchedGrows(s: Sched, s': Sched) {
    Later(s, s') && forall tid :: tid in s.index ==> tid in s'.index && s'.index[tid] == s.index[tid]
  }

  lemma SchedulerGrows(s: State, step: Step)
    ensures SchedGrows(s.sched, NextSched(s, step)) && Apply(s, step).sched == NextSched(s, step)
  {
    hide NextUp, NextQueue, NextDown;
    if step.SchedulerPass? {
      PassEffect(s.sched, step.reloadOk);
      StepIsLater(s.sched, Pass(step.reloadOk));
    }
  }

  lemma {:induction false} SchedulerGrowsOver(s: State, a: seq<Step>, b: seq<Step>)
    ensures SchedGrows(RunSteps(s, a).sched, RunSteps(s, a + b).sched)
    decreases |b|
  {
    hide Apply, NextSched, SchedGrows;
    if b == [] {
      assert a + b == a;
      GrowsSelf(RunSteps(s, a).sched);
    } else {
      var n := |b| - 1;
      assert (a + b)[..|a + b| - 1] == a + b[..n];
      SchedulerGrowsOver(s, a, b[..n]);
      SchedulerGrows(RunSteps(s, a + b[..n]), b[n]);
      GrowsOn(RunSteps(s, a).sched, RunSteps(s, a + b[..n]).sched, RunSteps(s, a + b).sched);
    }
  }

  lemma GrowsSelf(a: Sched)
    ensures SchedGrows(a, a)
  {
  }

  lemma GrowsOn(a: Sched, b: Sched, c: Sched)
    requires SchedGrows(a, b) && SchedGrows(b, c)
    ensures SchedGrows(a, c)
  {
  }

  lemma StaysCompleted(s: Sched, s': Sched, tid: int)
    requires SchedGrows(s, s') && IsTaskCompleted(s, tid)
    ensures IsTaskCompleted(s', tid) && GetTask(s', tid) == GetTask(s, tid)
  {
  }

  /** Over every run of the machine: an id once filed keeps its place in the task list, the request there never
      changes, and a task seen completed is found completed, with the same code and value, ever after. */
  lemma CompletedStays(s: State, a: seq<Step>, b: seq<Step>, tid: int)
    ensures tid in RunSteps(s, a).sched.index ==>
              && tid in RunSteps(s, a + b).sched.index
              && RunSteps(s, a + b).sched.index[tid] == RunSteps(s, a).sched.index[tid]
    ensures forall i :: 0 <= i < |RunSteps(s, a).sched.tasks| ==>
              && i < |RunSteps(s, a + b).sched.tasks|
              && RunSteps(s, a + b).sched.tasks[i].SameRequest(RunSteps(s, a).sched.tasks[i])
    ensures IsTaskCompleted(RunSteps(s, a).sched, tid) ==>
              && IsTaskCompleted(RunSteps(s, a + b).sched, tid)
              && GetTask(RunSteps(s, a + b).sched, tid) == GetTask(RunSteps(s, a).sched, tid)
  {
    SchedulerGrowsOver(s, a, b);
    hide RunSteps;
    if IsTaskCompleted(RunSteps(s, a).sched, tid) {
      StaysCompleted(RunSteps(s, a).sched, RunSteps(s, a + b).sched, tid);
    }
  }

  /** A task the responder has seen completed, and a task it has answered, are there and completed. */
  predicate ResponderOk(q: Queue, sched: Sched) {
    && (q.responder.At? ==> q.responder.i <= |q.pairs|)
    && (q.responder.Found? || q.responder.HeaderSent? ==>
          q.responder.i < |q.pairs| && IsTaskCompleted(sched, q.pairs[q.responder.i].stid))
    && (forall i :: 0 <= i < |q.answered| ==> IsTaskCompleted(sched, q.answered[i].stid))
  }

  lemma ResponderGrows(q: Queue, s: Sched, s': Sched)
    requires ResponderOk(q, s) && SchedGrows(s, s')
    ensures ResponderOk(q, s')
  {
    if q.responder.Found? || q.responder.HeaderSent? { StaysCompleted(s, s', q.pairs[q.responder.i].stid); }
    forall i | 0 <= i < |q.answered|
      ensures IsTaskCompleted(s', q.answered[i].stid)
    {
      StaysCompleted(s, s', q.answered[i].stid);
    }
  }

  lemma ResponderNext(s: State, step: Step)
    requires !step.SchedulerPass? && step.k < |s.conns| && ResponderOk(s.conns[step.k].q, s.sched)
    ensures ResponderOk(NextQueue(s, step), s.sched)
  {
  }

  ghost predicate QueueInv(s: State) {
    && (forall k :: 0 <= k < |s.conns| ==> Conserved(s.conns[k].u, s.conns[k].q))
    && (forall k :: 0 <= k < |s.conns| ==> ResponderOk(s.conns[k].q, s.sched))
  }

  lemma QueueInvStep(s: State, step: Step)
    requires RequestsInv(s) && QueueInv(s)
    ensures QueueInv(Apply(s, step))
  {
    hide NextUp, NextQueue, NextDown, NextSched, Conserved, ResponderOk, UpOk, SchedGrows;
    var s' := Apply(s, step);
    SchedulerGrows(s, step);
    if !step.SchedulerPass? && step.k < |s.conns| {
      ConservedStep(s, step);
      ResponderNext(s, step);
    }
    forall k | 0 <= k < |s'.conns|
      ensures ResponderOk(s'.conns[k].q, s'.sched)
    {
      ResponderGrows(s'.conns[k].q, s.sched, s'.sched);
    }
  }

  lemma QueueInitially(s: State)
    requires Initial(s)
    ensures QueueInv(s)
  {
    forall k | 0 <= k < |s.conns|
      ensures Conserved(s.conns[k].u, s.conns[k].q)
    {
      var u, q := s.conns[k].u, s.conns[k].q;
      assert RequestTids(u.inflight) == [] && Tids(Waiting(q)) == [] && Tids(q.answered) == [];
      assert u.asked.Keys == {};
    }
  }

  lemma {:induction false} QueueAlways(s: State, steps: seq<Step>)
    requires Initial(s)
    ensures QueueInv(RunSteps(s, steps))
  {
    if steps == [] {
      QueueInitially(s);
    } else {
      var p := steps[..|steps| - 1];
      QueueAlways(s, p);
      RequestsAlways(s, p);
      QueueInvStep(RunSteps(s, p), steps[|steps| - 1]);
    }
  }

  /** In every interleaving, on a connection on which no read of an argument gave up, each request the client
      issued is in exactly one place, so none is lost and none is answered twice. */
  lemma NoneLostNoneRepeated(s: State, steps: seq<Step>, k: nat, tid: int)
    requires Initial(s) && k < |s.conns|
    ensures k < |RunSteps(s, steps).conns|
    ensures var c := RunSteps(s, steps).conns[k]; !c.u.gaveUp ==>
            && InOnePlace(c.u, c.q)
            && (tid in Tids(c.q.answered) ==>
                  multiset(Tids(c.q.answered))[tid] == 1 && tid !in Tids(Waiting(c.q)) && tid in c.u.asked)
  {
    QueueAlways(s, steps);
    SameConnections(s, steps);
    var c := RunSteps(s, steps).conns[k];
    if tid in Tids(c.q.answered) {
      assert multiset(c.u.asked.Keys)[tid] <= 1;
    }
  }

  lemma {:induction false} SameConnections(s: State, steps: seq<Step>)
    ensures |RunSteps(s, steps).conns| == |s.conns|
  {
    hide NextUp, NextQueue, NextDown, NextSched;
    if steps != [] { SameConnections(s, steps[..|steps| - 1]); }
  }

  /** The responder never sees a completed task for which getTask then finds nothing. */
  lemma NeverCompletedButNull(s: State, steps: seq<Step>, k: nat)
    requires Initial(s) && k < |RunSteps(s, steps).conns| && RunSteps(s, steps).conns[k].q.responder.Found?
    ensures var r := RunSteps(s, steps); var q := r.conns[k].q;
            q.responder.i < |q.pairs| && GetTask(r.sched, q.pairs[q.responder.i].stid).Some?
  {
    QueueAlways(s, steps);
  }
}
