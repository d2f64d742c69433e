/** A scan of the response thread inside the machine, interleaved with everything else, is a pass of
    ResponseScan in which the scheduler is asked again at each entry. */
module ServiceScan {
  import opened Bytes
  import opened Scheduling
  import opened Service
  import opened ServiceRequests
  import opened ServiceQueue
  import opened ResponseScan

  lemma {:induction false} RunStepsAppend(s: State, a: seq<Step>, b: seq<Step>)
    ensures RunSteps(s, a + b) == RunSteps(RunSteps(s, a), b)
    decreases |b|
  {
    hide Apply;
    if b == [] {
      assert a + b == a;
    } else {
      assert (a + b)[..|a + b| - 1] == a + b[..|b| - 1];
      RunStepsAppend(s, a, b[..|b| - 1]);
    }
  }

  lemma RunFirst(s: State, step: Step, rest: seq<Step>)
    ensures RunSteps(s, [step] + rest) == RunSteps(Apply(s, step), rest)
  {
    RunStepsAppend(s, [step], rest);
    assert [step][..0] == [];
  }

  lemma Unchanging(s: State, step: Step)
    ensures |Apply(s, step).conns| == |s.conns|
  {
    hide NextUp, NextQueue, NextDown, NextSched;
  }

  predicate Scanning(s: State, k: nat) {
    k < |s.conns| && !s.conns[k].q.responder.Asleep? && !s.conns[k].q.requester.Stopped?
  }

  predicate Ended(s: State, k: nat) {
    k < |s.conns| && s.conns[k].q.responder.Asleep? && !s.conns[k].q.requester.Stopped?
  }

  /** The steps end the scan of connection k, and not before the last of them; the connection stays open. */
  ghost predicate EndsScan(s: State, steps: seq<Step>, k: nat)
    decreases |steps|
  {
    && Scanning(s, k) && steps != []
    && var t := Apply(s, steps[0]); EndsScan(t, steps[1..], k) || (|steps| == 1 && Ended(t, k))
  }

  predicate OfResponder(step: Step, k: nat) {
    (step.LookAt? || step.SendHeader? || step.SendValue? || step.EndScan?) && step.k == k
  }

  /** Steps of others leave the scan where it is. */
  lemma OthersWait(s: State, step: Step, k: nat)
    requires Scanning(s, k) && !OfResponder(step, k)
    ensures var q, q' := s.conns[k].q, Apply(s, step).conns[k].q;
            && |Apply(s, step).conns| == |s.conns| && q'.responder == q.responder
            && q'.pairs == q.pairs && q'.answered == q.answered
  {
    hide NextUp, NextDown, NextSched, Admissible, Decoded, IsTaskCompleted, GetTask, IsClose;
  }

  /** The entries from the one the scan stands on. */
  function Ahead(q: Queue): seq<Pair> {
    if !q.responder.Asleep? && q.responder.i <= |q.pairs| then q.pairs[q.responder.i..] else []
  }

  function Passed(q: Queue): seq<Pair> {
    if !q.responder.Asleep? && q.responder.i <= |q.pairs| then q.pairs[..q.responder.i] else q.pairs
  }

  /** The queue after the rest of a pass over what is ahead. */
  predicate PassLeads(q: Queue, looks: seq<bool>, q': Queue) {
    && |looks| == |Ahead(q)|
    && q'.pairs == Passed(q) + Left(Ahead(q), looks, |looks|)
    && (q.responder.Found? || q.responder.HeaderSent? ==> looks != [] && looks[0])
    && var sent := Sent(Ahead(q), looks, |looks|);
       q'.answered == q.answered + if q.responder.HeaderSent? && sent != [] then sent[1..] else sent
  }

  /** Each look lies between the scheduler at the start and at the end. */
  ghost predicate LooksBetween(ps: seq<Pair>, a: Sched, looks: seq<bool>, b: Sched) {
    && |looks| == |ps|
    && (forall j :: 0 <= j < |ps| && IsTaskCompleted(a, ps[j].stid) ==> looks[j])
    && (forall j :: 0 <= j < |ps| && looks[j] ==> IsTaskCompleted(b, ps[j].stid))
  }

  lemma {:induction false} EnoughWrites<T>(es: seq<T>, looks: seq<bool>, w: nat, w': nat)
    requires |looks| == |es| && w >= |es| && w' >= |es|
    ensures Left(es, looks, w) == Left(es, looks, w') && Sent(es, looks, w) == Sent(es, looks, w')
    decreases |es|
  {
    if es != [] {
      if !looks[0] {
        EnoughWrites(es[1..], looks[1..], w, w');
      } else if |es| > 1 {
        EnoughWrites(es[2..], looks[2..], w - 1, w' - 1);
      }
    }
  }

  /** A look that finds the task unfinished keeps the entry. */
  lemma KeepLeads(q: Queue, t: Queue, later: seq<bool>, q': Queue)
    requires q.responder.At? && q.responder.i < |q.pairs| && t == q.(responder := At(q.responder.i + 1))
    requires PassLeads(t, later, q')
    ensures PassLeads(q, [false] + later, q')
  {
    var es, looks := Ahead(q), [false] + later;
    assert es[1..] == Ahead(t) && looks[1..] == later && Passed(t) == Passed(q) + es[..1];
    EnoughWrites(Ahead(t), later, |later|, |looks|);
    Regroup(Passed(q), es[..1], Left(Ahead(t), later, |later|));
  }

  /** The write of the header. */
  lemma HeaderLeads(q: Queue, t: Queue, looks: seq<bool>, q': Queue)
    requires AtFound(q)
    requires t == q.(responder := HeaderSent(q.responder.i), answered := q.answered + [q.pairs[q.responder.i]])
    requires PassLeads(t, looks, q')
    ensures PassLeads(q, looks, q')
  {
    var es := Ahead(q);
    var sent := Sent(es, looks, |looks|);
    assert Ahead(t) == es && es != [] && es[0] == q.pairs[q.responder.i];
    assert sent == if |es| == 1 then es else es[..1] + Sent(es[2..], looks[2..], |looks| - 1);
    assert sent != [] && sent[0] == es[0] && sent == [es[0]] + sent[1..];
    Regroup(q.answered, [es[0]], sent[1..]);
  }

  lemma EraseAhead(q: Queue)
    requires AtHeaderSent(q) && |Ahead(q)| > 1
    ensures Ahead(Erase(q)) == Ahead(q)[2..]
  {
    var i := q.responder.i;
    assert Without(q.pairs, i)[i + 1..] == q.pairs[i + 2..];
  }

  /** The erase and the second advance of the iterator. */
  lemma EraseLeads(q: Queue, later: seq<bool>, skipped: bool, q': Queue)
    requires AtHeaderSent(q) && PassLeads(Erase(q), later, q')
    ensures PassLeads(q, if |Ahead(q)| == 1 then [true] else [true, skipped] + later, q')
  {
    var es, t, i := Ahead(q), Erase(q), q.responder.i;
    var left := Without(q.pairs, i);
    if |es| == 1 {
      assert left == q.pairs[..i] && Ahead(t) == [] && Passed(t) == Passed(q);
      assert Left(es, [true], 1) == [] && Sent(es, [true], 1) == es && es[1..] == [];
    } else {
      var looks := [true, skipped] + later;
      assert left[..i] == q.pairs[..i] && left[i..] == q.pairs[i + 1..];
      EraseAhead(q);
      assert Ahead(t) == es[2..] && looks[2..] == later;
      assert left[i] == q.pairs[i + 1] == es[1] && es[1..2] == [es[1]] && left[..i + 1] == left[..i] + [left[i]];
      assert Passed(t) == left[..i + 1] == Passed(q) + es[1..2];
      EnoughWrites(es[2..], later, |later|, |looks| - 1);
      Regroup(Passed(q), es[1..2], Left(es[2..], later, |later|));
      var sent := Sent(es, looks, |looks|);
      assert sent == es[..1] + Sent(es[2..], later, |later|) && sent[1..] == Sent(es[2..], later, |later|);
    }
  }

  lemma SameLeads(q: Queue, t: Queue, looks: seq<bool>, q': Queue)
    requires PassLeads(t, looks, q') && t.responder == q.responder && t.pairs == q.pairs && t.answered == q.answered
    ensures PassLeads(q, looks, q') && Ahead(q) == Ahead(t)
  {
  }

  lemma LooksEarlier(ps: seq<Pair>, a: Sched, b: Sched, looks: seq<bool>, c: Sched)
    requires LooksBetween(ps, b, looks, c) && SchedGrows(a, b)
    ensures LooksBetween(ps, a, looks, c)
  {
    forall j | 0 <= j < |ps| && IsTaskCompleted(a, ps[j].stid)
      ensures looks[j]
    {
      StaysCompleted(a, b, ps[j].stid);
    }
  }

  lemma LooksKeep(ps: seq<Pair>, a: Sched, later: seq<bool>, b: Sched)
    requires ps != [] && !IsTaskCompleted(a, ps[0].stid) && LooksBetween(ps[1..], a, later, b)
    ensures LooksBetween(ps, a, [false] + later, b)
  {
    var looks := [false] + later;
    forall j | 0 <= j < |ps|
      ensures (IsTaskCompleted(a, ps[j].stid) ==> looks[j]) && (looks[j] ==> IsTaskCompleted(b, ps[j].stid))
    {
      if j > 0 { assert ps[j] == ps[1..][j - 1]; }
    }
  }

  lemma LooksErase(ps: seq<Pair>, a: Sched, later: seq<bool>, b: Sched)
    requires |ps| > 1 && IsTaskCompleted(b, ps[0].stid) && LooksBetween(ps[2..], a, later, b)
    requires IsTaskCompleted(a, ps[1].stid) ==> IsTaskCompleted(b, ps[1].stid)
    ensures LooksBetween(ps, a, [true, IsTaskCompleted(a, ps[1].stid)] + later, b)
  {
    var looks := [true, IsTaskCompleted(a, ps[1].stid)] + later;
    forall j | 0 <= j < |ps|
      ensures (IsTaskCompleted(a, ps[j].stid) ==> looks[j]) && (looks[j] ==> IsTaskCompleted(b, ps[j].stid))
    {
      if j > 1 { assert ps[j] == ps[2..][j - 2]; }
    }
  }

  /** The possible effects of a step of the responder. */
  datatype Act = Nothing | Finds | Keeps | Announces | Erases | Ends

  predicate Acts(act: Act, q: Queue, sched: Sched, q': Queue) {
    match act
    case Nothing => q' == q
    case Finds => q.responder.At? && q.responder.i < |q.pairs| && q' == q.(responder := Found(q.responder.i))
    case Keeps =>
      && q.responder.At? && q.responder.i < |q.pairs| && !IsTaskCompleted(sched, q.pairs[q.responder.i].stid)
      && q' == q.(responder := At(q.responder.i + 1))
    case Announces =>
      AtFound(q) && q' == q.(responder := HeaderSent(q.responder.i), answered := q.answered + [q.pairs[q.responder.i]])
    case Erases => AtHeaderSent(q) && q' == Erase(q)
    case Ends => q.responder.At? && q.responder.i == |q.pairs| && q' == q.(responder := Asleep)
  }

  function ActOf(step: Step, q: Queue, sched: Sched): Act {
    if step.LookAt? && q.responder.At? && q.responder.i < |q.pairs| then
      if IsTaskCompleted(sched, q.pairs[q.responder.i].stid) then Finds else Keeps
    else if step.SendHeader? && AtFound(q) then Announces
    else if step.SendValue? && AtHeaderSent(q) then Erases
    else if step.EndScan? && q.responder.At? && q.responder.i >= |q.pairs| then Ends
    else Nothing
  }

  lemma ResponderActs(s: State, step: Step, k: nat)
    requires Scanning(s, k) && OfResponder(step, k) && ResponderOk(s.conns[k].q, s.sched)
    ensures |Apply(s, step).conns| == |s.conns| && Apply(s, step).sched == s.sched
    ensures Acts(ActOf(step, s.conns[k].q, s.sched), s.conns[k].q, s.sched, Apply(s, step).conns[k].q)
  {
    hide NextUp, NextDown, Erase;
  }

  /** One step of the responder, given the rest of the scan. */
  lemma ActLeads(act: Act, q: Queue, t: Queue, a: Sched, later: seq<bool>, q': Queue, b: Sched)
    returns (looks: seq<bool>)
    requires Acts(act, q, a, t) && !act.Ends? && ResponderOk(q, a) && SchedGrows(a, b)
    requires PassLeads(t, later, q') && LooksBetween(Ahead(t), a, later, b)
    ensures PassLeads(q, looks, q') && LooksBetween(Ahead(q), a, looks, b)
  {
    looks := later;
    match act {
      case Nothing =>
      case Finds => assert Ahead(t) == Ahead(q);
      case Keeps =>
        looks := [false] + later;
        assert Ahead(q)[1..] == Ahead(t) && Ahead(q)[0] == q.pairs[q.responder.i];
        KeepLeads(q, t, later, q');
        LooksKeep(Ahead(q), a, later, b);
      case Announces =>
        assert Ahead(t) == Ahead(q);
        HeaderLeads(q, t, later, q');
      case Erases => looks := EraseActs(q, a, later, q', b);
    }
  }

  lemma EraseActs(q: Queue, a: Sched, later: seq<bool>, q': Queue, b: Sched) returns (looks: seq<bool>)
    requires AtHeaderSent(q) && ResponderOk(q, a) && SchedGrows(a, b)
    requires PassLeads(Erase(q), later, q') && LooksBetween(Ahead(Erase(q)), a, later, b)
    ensures PassLeads(q, looks, q') && LooksBetween(Ahead(q), a, looks, b)
  {
    var es := Ahead(q);
    assert es[0] == q.pairs[q.responder.i];
    StaysCompleted(a, b, es[0].stid);
    hide PassLeads, LooksBetween, Erase, IsTaskCompleted, SchedGrows;
    if |es| == 1 {
      EraseLeads(q, later, false, q');
      looks := [true];
    } else {
      var skipped := IsTaskCompleted(a, es[1].stid);
      if skipped { StaysCompleted(a, b, es[1].stid); }
      EraseLeads(q, later, skipped, q');
      EraseAhead(q);
      LooksErase(es, a, later, b);
      looks := [true, skipped] + later;
    }
  }

  lemma EndLeads(q: Queue, a: Sched, q': Queue)
    requires Acts(Ends, q, a, q')
    ensures PassLeads(q, [], q') && LooksBetween(Ahead(q), a, [], a)
  {
    assert Ahead(q) == [] && Passed(q) == q.pairs && q.pairs + [] == q.pairs && q.answered + [] == q.answered;
  }

  /** From any point of a scan to its end. */
  lemma {:induction false} ScanFrom(s: State, steps: seq<Step>, k: nat) returns (looks: seq<bool>)
    requires RequestsInv(s) && QueueInv(s) && EndsScan(s, steps, k)
    ensures k < |RunSteps(s, steps).conns| && PassLeads(s.conns[k].q, looks, RunSteps(s, steps).conns[k].q)
    ensures LooksBetween(Ahead(s.conns[k].q), s.sched, looks, RunSteps(s, steps).sched)
    decreases |steps|
  {
    var step, rest, t, q := steps[0], steps[1..], Apply(s, steps[0]), s.conns[k].q;
    StepFacts(s, steps, k);
    hide Apply, RunSteps, RequestsInv, QueueInv, SchedGrows, PassLeads, LooksBetween, ResponderOk, Acts, ActOf;
    if !OfResponder(step, k) {
      OthersWait(s, step, k);
      looks := ScanFrom(t, rest, k);
      SameLeads(q, t.conns[k].q, looks, RunSteps(t, rest).conns[k].q);
      LooksEarlier(Ahead(q), s.sched, t.sched, looks, RunSteps(t, rest).sched);
    } else {
      ResponderActs(s, step, k);
      var act := ActOf(step, q, s.sched);
      if act.Ends? {
        EndingIsLast(s, steps, k);
        EndLeads(q, s.sched, t.conns[k].q);
        looks := [];
      } else {
        NotAsleepYet(act, q, s.sched, t.conns[k].q);
        var later := ScanFrom(t, rest, k);
        looks := ActLeads(act, q, t.conns[k].q, s.sched, later, RunSteps(t, rest).conns[k].q, RunSteps(t, rest).sched);
      }
    }
  }

  lemma NotAsleepYet(act: Act, q: Queue, sched: Sched, q': Queue)
    requires Acts(act, q, sched, q') && !act.Ends? && !q.responder.Asleep?
    ensures !q'.responder.Asleep?
  {
  }

  lemma EndingIsLast(s: State, steps: seq<Step>, k: nat)
    requires EndsScan(s, steps, k) && k < |Apply(s, steps[0]).conns|
    requires Acts(Ends, s.conns[k].q, s.sched, Apply(s, steps[0]).conns[k].q)
    ensures |steps| == 1 && RunSteps(s, steps) == Apply(s, steps[0])
  {
    hide Apply;
    assert steps == [steps[0]] + steps[1..];
    assert |steps| == 1 ==> steps[..0] == [];
  }

  /** What is known of the state after the first step. */
  lemma StepFacts(s: State, steps: seq<Step>, k: nat)
    requires RequestsInv(s) && QueueInv(s) && EndsScan(s, steps, k)
    ensures var t := Apply(s, steps[0]);
            && RunSteps(s, steps) == RunSteps(t, steps[1..]) && RequestsInv(t) && QueueInv(t) && |t.conns| == |s.conns|
            && ResponderOk(s.conns[k].q, s.sched)
            && SchedGrows(s.sched, t.sched) && SchedGrows(s.sched, RunSteps(s, steps).sched)
            && (!t.conns[k].q.responder.Asleep? ==> EndsScan(t, steps[1..], k))
  {
    var step, rest, t := steps[0], steps[1..], Apply(s, steps[0]);
    assert steps == [step] + rest;
    RunFirst(s, step, rest);
    RequestsStep(s, step);
    QueueInvStep(s, step);
    SchedulerGrows(s, step);
    SchedulerGrowsOver(s, [], steps);
    assert [] + steps == steps;
    Unchanging(s, step);
    hide Apply, SchedGrows, RequestsInv, ResponderOk, Conserved;
  }

  /** In every reachable state: a scan that starts with an idle responder and runs to its end, among any steps of
      others, does to the list and to the answers what one pass does, where the scheduler is asked again at each
      entry while tasks go on completing. */
  lemma ScanIsPass(s: State, before: seq<Step>, scan: seq<Step>, k: nat) returns (looks: seq<bool>)
    requires Initial(s) && k < |RunSteps(s, before).conns|
    requires RunSteps(s, before).conns[k].q.responder.Asleep?
    requires EndsScan(Apply(RunSteps(s, before), StartScan(k)), scan, k)
    ensures var a, b := RunSteps(s, before), RunSteps(s, before + ([StartScan(k)] + scan));
            && k < |b.conns| && LooksBetween(a.conns[k].q.pairs, a.sched, looks, b.sched)
            && b.conns[k].q.pairs == Left(a.conns[k].q.pairs, looks, |looks|)
            && b.conns[k].q.answered == a.conns[k].q.answered + Sent(a.conns[k].q.pairs, looks, |looks|)
  {
    var a, t := RunSteps(s, before), Apply(RunSteps(s, before), StartScan(k));
    RequestsAlways(s, before);
    QueueAlways(s, before);
    RequestsStep(a, StartScan(k));
    QueueInvStep(a, StartScan(k));
    RunStepsAppend(s, before, [StartScan(k)] + scan);
    RunFirst(a, StartScan(k), scan);
    ScanStarts(a, k);
    hide Apply, RunSteps, RequestsInv, QueueInv;
    looks := ScanFrom(t, scan, k);
    var q := t.conns[k].q;
    assert Ahead(q) == q.pairs[0..] == q.pairs && Passed(q) == [];
    assert [] + Left(q.pairs, looks, |looks|) == Left(q.pairs, looks, |looks|);
  }

  lemma ScanStarts(a: State, k: nat)
    requires k < |a.conns| && a.conns[k].q.responder.Asleep?
    ensures var t := Apply(a, StartScan(k));
            |t.conns| == |a.conns| && t.sched == a.sched && t.conns[k].q == a.conns[k].q.(responder := At(0))
  {
    hide NextUp, NextDown;
  }
}
