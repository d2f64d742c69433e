/** How long a finished task waits for its answer: each scan of the response thread skips the entry behind one it
    erases, yet an entry at position p is answered within p + 1 scans, whatever is added and whatever finishes
    meanwhile. */
module ServiceWaits {
  import opened Bytes
  import opened Scheduling
  import opened Service
  import opened ServiceRequests
  import opened ServiceQueue
  import opened ServiceScan

  /** The step ends a scan of connection k. */
  predicate EndsOne(s: State, step: Step, k: nat) {
    && step == EndScan(k) && k < |s.conns| && s.conns[k].q.responder.At?
    && s.conns[k].q.responder.i >= |s.conns[k].q.pairs|
  }

  /** How many scans of connection k a run ends. */
  function ScansEnded(s: State, steps: seq<Step>, k: nat): nat {
    if steps == [] then 0
    else
      var before := steps[..|steps| - 1];
      ScansEnded(s, before, k) + if EndsOne(RunSteps(s, before), steps[|steps| - 1], k) then 1 else 0
  }

  /** The scans within which the entry at position j is answered: a scan that has passed it does not count. */
  function Due(q: Queue, j: nat): nat {
    if q.responder.Asleep? || q.responder.i <= j then j + 1 else j + 2
  }

  /** The entry waits at position j. */
  predicate WaitsAt(q: Queue, e: Pair, j: nat) {
    j < |q.pairs| && q.pairs[j] == e && q.responder != HeaderSent(j)
  }

  /** The entry is answered, or will be within m scans. */
  ghost predicate DueWithin(q: Queue, e: Pair, m: int) {
    e in q.answered || exists j: nat :: WaitsAt(q, e, j) && Due(q, j) <= m
  }

  lemma EraseMovesUp(q: Queue, e: Pair, j: nat)
    requires WaitsAt(q, e, j) && AtHeaderSent(q)
    ensures var j' := if j < q.responder.i then j else j - 1;
            j' >= 0 && WaitsAt(Erase(q), e, j') && Due(Erase(q), j') <= Due(q, j)
  {
    var left := Without(q.pairs, q.responder.i);
    assert left == q.pairs[..q.responder.i] + q.pairs[q.responder.i + 1..];
  }

  /** What a step of the responder does to an entry whose task is done. */
  lemma ActServes(act: Act, q: Queue, sched: Sched, q': Queue, e: Pair, m: int)
    requires Acts(act, q, sched, q') && DueWithin(q, e, m) && IsTaskCompleted(sched, e.stid)
    ensures DueWithin(q', e, if act.Ends? then m - 1 else m)
  {
    if e !in q.answered {
      var j: nat :| WaitsAt(q, e, j) && Due(q, j) <= m;
      match act {
        case Nothing => assert WaitsAt(q', e, j);
        case Finds => assert WaitsAt(q', e, j);
        case Keeps => assert WaitsAt(q', e, j);
        case Announces => if q.responder.i != j { assert WaitsAt(q', e, j); }
        case Erases =>
          EraseMovesUp(q, e, j);
          assert WaitsAt(q', e, if j < q.responder.i then j else j - 1);
        case Ends => assert WaitsAt(q', e, j);
      }
    }
  }

  /** Steps that are not of the scan may add entries, and do not move any. */
  lemma OthersAppend(s: State, step: Step, k: nat)
    requires k < |s.conns| && !OfResponder(step, k)
    ensures |Apply(s, step).conns| == |s.conns|
    ensures var q, q' := s.conns[k].q, Apply(s, step).conns[k].q;
            && q.pairs <= q'.pairs && q'.answered == q.answered
            && (q'.responder == q.responder || (q.responder.Asleep? && q'.responder == At(0)))
  {
    hide NextUp, NextDown, NextSched, Admissible, Decoded, IsTaskCompleted, GetTask, IsClose;
  }

  lemma AppendServes(q: Queue, q': Queue, e: Pair, m: int)
    requires q.pairs <= q'.pairs && q'.answered == q.answered && DueWithin(q, e, m)
    requires q'.responder == q.responder || (q.responder.Asleep? && q'.responder == At(0))
    ensures DueWithin(q', e, m)
  {
    if e !in q.answered {
      var j: nat :| WaitsAt(q, e, j) && Due(q, j) <= m;
      assert WaitsAt(q', e, j);
    }
  }

  /** Nothing is done by the scan while it sleeps. */
  lemma AsleepWaits(s: State, step: Step, k: nat)
    requires k < |s.conns| && OfResponder(step, k) && s.conns[k].q.responder.Asleep?
    ensures Apply(s, step).conns[k].q == s.conns[k].q
  {
    hide NextUp, NextDown;
  }

  lemma StaysStopped(s: State, step: Step, k: nat)
    requires k < |s.conns| && s.conns[k].q.requester.Stopped?
    ensures k < |Apply(s, step).conns| && Apply(s, step).conns[k].q.requester.Stopped?
  {
    hide NextUp, NextDown, NextSched, Admissible, Decoded, IsTaskCompleted, GetTask, IsClose;
  }

  lemma WaitStep(s: State, step: Step, k: nat, e: Pair, m: int)
    requires k < |s.conns| && ResponderOk(s.conns[k].q, s.sched) && !s.conns[k].q.requester.Stopped?
    requires IsTaskCompleted(s.sched, e.stid) && DueWithin(s.conns[k].q, e, m)
    ensures k < |Apply(s, step).conns|
    ensures DueWithin(Apply(s, step).conns[k].q, e, if EndsOne(s, step, k) then m - 1 else m)
  {
    var q := s.conns[k].q;
    Unchanging(s, step);
    hide Apply, DueWithin, IsTaskCompleted;
    if !OfResponder(step, k) {
      OthersAppend(s, step, k);
      AppendServes(q, Apply(s, step).conns[k].q, e, m);
    } else if q.responder.Asleep? {
      AsleepWaits(s, step, k);
    } else {
      ResponderActs(s, step, k);
      ActServes(ActOf(step, q, s.sched), q, s.sched, Apply(s, step).conns[k].q, e, m);
    }
  }

  lemma {:induction false} WaitRun(s: State, before: seq<Step>, more: seq<Step>, k: nat, e: Pair, m: int)
    requires Initial(s) && k < |RunSteps(s, before).conns| && k < |RunSteps(s, before + more).conns|
    requires !RunSteps(s, before + more).conns[k].q.requester.Stopped?
    requires IsTaskCompleted(RunSteps(s, before).sched, e.stid) && DueWithin(RunSteps(s, before).conns[k].q, e, m)
    ensures DueWithin(RunSteps(s, before + more).conns[k].q, e, m - ScansEnded(RunSteps(s, before), more, k))
    decreases |more|
  {
    hide Apply, Initial, DueWithin, IsTaskCompleted, QueueInv;
    if more == [] {
      assert before + more == before;
    } else {
      var n := |more| - 1;
      assert (before + more)[..|before + more| - 1] == before + more[..n];
      var r, step := RunSteps(s, before + more[..n]), more[n];
      Unchanging(r, step);
      if r.conns[k].q.requester.Stopped? { StaysStopped(r, step, k); }
      WaitRun(s, before, more[..n], k, e, m);
      CompletedStays(s, before, more[..n], e.stid);
      RunStepsAppend(s, before, more[..n]);
      ResponderAlways(s, before + more[..n], k);
      WaitStep(r, step, k, e, m - ScansEnded(RunSteps(s, before), more[..n], k));
    }
  }

  lemma ResponderAlways(s: State, steps: seq<Step>, k: nat)
    requires Initial(s) && k < |RunSteps(s, steps).conns|
    ensures ResponderOk(RunSteps(s, steps).conns[k].q, RunSteps(s, steps).sched)
  {
    hide Initial, RunSteps, ResponderOk;
    QueueAlways(s, steps);
  }

  /** From every reachable state and in every run from there, among any steps of others: the entry at position p of
      a finished task, for which no header has been written yet, is answered by the time p + 1 scans have ended, not
      counting one that had already passed it. */
  lemma BoundedWait(s: State, before: seq<Step>, more: seq<Step>, k: nat, p: nat)
    requires Initial(s) && k < |RunSteps(s, before).conns| && k < |RunSteps(s, before + more).conns|
    requires !RunSteps(s, before + more).conns[k].q.requester.Stopped?
    requires var r := RunSteps(s, before); var q := r.conns[k].q;
             && p < |q.pairs| && q.responder != HeaderSent(p) && IsTaskCompleted(r.sched, q.pairs[p].stid)
             && ScansEnded(r, more, k) >= Due(q, p)
    ensures RunSteps(s, before).conns[k].q.pairs[p] in RunSteps(s, before + more).conns[k].q.answered
  {
    hide Initial, RunSteps, IsTaskCompleted, ScansEnded;
    var q := RunSteps(s, before).conns[k].q;
    assert WaitsAt(q, q.pairs[p], p);
    WaitRun(s, before, more, k, q.pairs[p], Due(q, p));
  }
}
