/** The two scheduling policies compared: they give every task the same result and make the same
    calls, and reordering needs the fewest reconfigurations any plan could need. */
module SchedulingPolicy {
  import opened Bytes
  import opened Scheduling
  import opened SchedulingRuns

  // ---------------------------------------------------------------- which tasks are held

  function Submissions(es: seq<Event>): seq<Task> {
    if es == [] then [] else Submissions(es[..|es| - 1]) + if es[|es| - 1].Submit? then [es[|es| - 1].task] else []
  }

  /** The submissions addTask keeps: those for a registered function whose id is new. */
  function Admitted(functions: map<int, Func>, subs: seq<Task>): seq<Task> {
    if subs == [] then []
    else
      var a, t := Admitted(functions, subs[..|subs| - 1]), subs[|subs| - 1];
      if t.fid in functions && Search(a, t.tid).None? then a + [t] else a
  }

  predicate SameRequests(a: seq<Task>, b: seq<Task>) {
    |a| == |b| && forall i :: 0 <= i < |a| ==> a[i].SameRequest(b[i])
  }

  lemma AddTaskAdmits(s: Sched, subs: seq<Task>, t: Task)
    requires IndexAgrees(s) && SameRequests(s.tasks, Admitted(s.cfg.functions, subs))
    ensures SameRequests(AddTask(s, t).tasks, Admitted(s.cfg.functions, subs + [t])) && AddTask(s, t).cfg == s.cfg
  {
    hide Admitted, SameRequests, Search;
    var a := Admitted(s.cfg.functions, subs);
    AdmittedOne(s.cfg.functions, subs, t);
    SameSearch(s.tasks, a, t.tid);
    SameRequestsAppend(s.tasks, a, t);
    assert Search(s.tasks, t.tid) == if t.tid in s.index then Some(s.index[t.tid]) else None;
  }

  lemma SameSearch(a: seq<Task>, b: seq<Task>, tid: int)
    requires SameRequests(a, b)
    ensures Search(a, tid) == Search(b, tid)
  {
    SearchSameIds(a, b, tid);
  }

  lemma SameRequestsAppend(a: seq<Task>, b: seq<Task>, t: Task)
    requires SameRequests(a, b)
    ensures SameRequests(a + [t], b + [t])
  {
  }

  lemma AdmittedOne(functions: map<int, Func>, subs: seq<Task>, t: Task)
    ensures var a := Admitted(functions, subs);
            Admitted(functions, subs + [t]) == if t.fid in functions && Search(a, t.tid).None? then a + [t] else a
  {
    hide Search;
    assert (subs + [t])[..|subs|] == subs;
  }

  /** The task list is the admitted submissions in submission order, whatever passes ran meanwhile. */
  lemma {:induction false} RunHoldsAdmitted(s: Sched, es: seq<Event>)
    requires Init(s)
    ensures Run(s, es).cfg == s.cfg
    ensures SameRequests(Run(s, es).tasks, Admitted(s.cfg.functions, Submissions(es)))
  {
    if es != [] {
      var p, e := es[..|es| - 1], es[|es| - 1];
      RunHoldsAdmitted(s, p);
      hide Admitted, SameRequests, AddTask, Iterate;
      match e {
        case Submit(t) =>
          IndexIsSearch(s, p, t.tid);
          AddTaskAdmits(Run(s, p), Submissions(p), t);
        case Pass(ok) =>
          PassKeepsRequests(Run(s, p), Admitted(s.cfg.functions, Submissions(p)), ok);
          assert Submissions(es) == Submissions(p);
      }
    }
  }

  lemma PassKeepsRequests(s: Sched, admitted: seq<Task>, ok: bool)
    requires SameRequests(s.tasks, admitted)
    ensures SameRequests(Iterate(s, ok).tasks, admitted) && Iterate(s, ok).cfg == s.cfg
  {
    PassEffect(s, ok);
  }

  // ---------------------------------------------------------------- results do not depend on the policy

  /** The task gets to run at all: its bitstream is loaded from the start, or can be loaded. */
  predicate GetsToRun(cfg: Config, initial: string, t: Task) {
    cfg.Supported(t) && (cfg.enPr || cfg.Bitstream(t) == initial)
  }

  function ExpectedResult(cfg: Config, initial: string, t: Task): (int, seq<Byte>) {
    if GetsToRun(cfg, initial, t) then
      match cfg.Result(t)
      case Returned(v) => (0, v)
      case Threw => (1, [])
    else (1, [])
  }

  /** Results and executions are as a function of the request alone. */
  ghost predicate Settled(s: Sched, initial: string) {
    && (!s.cfg.enPr ==> s.current == initial)
    && (forall i :: 0 <= i < |s.tasks| && s.tasks[i].completed ==>
          (s.tasks[i].code, s.tasks[i].value) == ExpectedResult(s.cfg, initial, s.tasks[i]))
    && (forall i :: 0 <= i < |s.tasks| && s.tasks[i].completed ==>
          (Executed(s, i) <==> GetsToRun(s.cfg, initial, s.tasks[i])))
  }

  lemma ExecutedAfterPass(s: Sched, s': Sched, c: nat, ok: bool, i: nat)
    requires Accounted(s) && PassShape(s, s', c, ok) && i < |s.tasks|
    ensures Executed(s', i) <==> Executed(s, i) || (i == c && |s'.ran| > |s.ran|)
  {
    if Executed(s, i) {
      var k :| 0 <= k < |s.ran| && s.ran[k].idx == i;
      assert s'.ran[k].idx == i;
    } else if i == c && |s'.ran| > |s.ran| {
      assert s'.ran[|s.ran|].idx == i;
    }
  }

  lemma PassKeepsSettled(s: Sched, s': Sched, c: nat, ok: bool, initial: string)
    requires Accounted(s) && Settled(s, initial) && PassShape(s, s', c, ok)
    requires s.cfg.enPr ==> ok
    ensures Settled(s', initial)
  {
    forall i: nat | i < |s'.tasks| && s'.tasks[i].completed
      ensures Executed(s', i) <==> GetsToRun(s'.cfg, initial, s'.tasks[i])
    {
      ExecutedAfterPass(s, s', c, ok, i);
    }
  }

  lemma InsertKeepsSettled(s: Sched, t: Task, initial: string)
    requires Settled(s, initial) && t.Fresh()
    ensures Settled(Insert(s, t), initial)
  {
    var s' := Insert(s, t);
    forall i: nat | i < |s'.tasks| && s'.tasks[i].completed
      ensures Executed(s', i) <==> GetsToRun(s'.cfg, initial, s'.tasks[i])
    {
      assert Executed(s', i) == Executed(s, i);
    }
  }

  /** In every run, under either policy and with submissions at any time: with reconfiguration on and
      reloads succeeding every supported task is executed, with it off exactly those matching the
      initial bitstream are, and each completed task shows its own result. */
  lemma {:induction false} RunIsSettled(s: Sched, es: seq<Event>)
    requires Init(s) && FreshSubmissions(es)
    requires s.cfg.enPr ==> ReloadsSucceed(es)
    ensures Settled(Run(s, es), s.current)
  {
    if es != [] {
      var p, e := es[..|es| - 1], es[|es| - 1];
      assert forall i :: 0 <= i < |p| ==> p[i] == es[i];
      RunIsSettled(s, p);
      RunIsAccounted(s, p);
      RunIsLater(s, p);
      var q := Run(s, p);
      match e {
        case Submit(t) => InsertKeepsSettled(q, t, s.current);
        case Pass(ok) =>
          PassEffect(q, ok);
          PassKeepsSettled(q, Iterate(q, ok), Choice(q.cfg, q.tasks, q.current), ok, s.current);
      }
    }
  }

  /** What becomes of a task, said of the fields of its record. In every run: while it is pending it has code -1, no
      value and was not executed; one without a thread or without a registered function fails; one that was executed
      has both, ran with the bitstream of its function loaded, and has what its function returned, or has failed if it
      threw; and if reloads succeed every other one is executed that can have its bitstream. */
  lemma RunEndsTask(s: Sched, es: seq<Event>, i: nat)
    requires Init(s) && FreshSubmissions(es) && i < |Run(s, es).tasks|
    ensures var r, fs := Run(s, es), s.cfg.functions; var t := r.tasks[i];
            && (!t.completed ==> t.code == -1 && t.value == [] && !Executed(r, i))
            && (t.completed && (t.thread.None? || t.fid !in fs) ==> t.code == 1 && t.value == [] && !Executed(r, i))
            && (Executed(r, i) ==>
                  && t.thread.Some? && t.fid in fs && t.completed
                  && (forall v :: fs[t.fid].Run(t.args) == Returned(v) ==> t.code == 0 && t.value == v)
                  && (fs[t.fid].Run(t.args) == Threw ==> t.code == 1 && t.value == [])
                  && (forall k :: 0 <= k < |r.ran| && r.ran[k].idx == i ==> r.ran[k].loaded == fs[t.fid].bitstream))
            && (t.completed && t.thread.Some? && t.fid in fs && (s.cfg.enPr ==> ReloadsSucceed(es)) ==>
                  (Executed(r, i) <==> s.cfg.enPr || fs[t.fid].bitstream == s.current))
  {
    RunIsAccounted(s, es);
    RunIsLater(s, es);
    if s.cfg.enPr ==> ReloadsSucceed(es) { RunIsSettled(s, es); }
    hide Run;
  }

  /** The calls made: function and arguments of every execution. */
  function Calls(s: Sched): seq<(int, seq<seq<Byte>>)>
    requires forall k :: 0 <= k < |s.ran| ==> s.ran[k].idx < |s.tasks|
  {
    Map(i => if 0 <= i < |s.tasks| then (s.tasks[i].fid, s.tasks[i].args) else (0, []), Indices(s))
  }

  function Indices(s: Sched): (r: seq<int>)
    ensures |r| == |s.ran| && forall k :: 0 <= k < |r| ==> r[k] == s.ran[k].idx
  {
    seq(|s.ran|, k requires 0 <= k < |s.ran| => s.ran[k].idx)
  }

  function Map<A, B>(f: A -> B, a: seq<A>): (r: seq<B>)
    ensures |r| == |a| && forall k :: 0 <= k < |a| ==> r[k] == f(a[k])
  {
    seq(|a|, k requires 0 <= k < |a| => f(a[k]))
  }

  lemma {:induction false} DistinctMultiset(a: seq<int>)
    requires forall j, k :: 0 <= j < k < |a| ==> a[j] != a[k]
    ensures forall x :: multiset(a)[x] == if x in a then 1 else 0
  {
    if a != [] {
      DistinctMultiset(a[1..]);
      assert a == [a[0]] + a[1..];
      assert a[0] !in a[1..];
    }
  }

  lemma MultisetWithout<A>(a: seq<A>, j: nat)
    requires j < |a|
    ensures multiset(a) == multiset{a[j]} + multiset(Without(a, j))
  {
    assert a == a[..j] + ([a[j]] + a[j + 1..]);
  }

  lemma MapWithout<A, B>(f: A -> B, a: seq<A>, j: nat)
    requires j < |a|
    ensures multiset(Map(f, a)) == multiset{f(a[j])} + multiset(Map(f, Without(a, j)))
  {
    MultisetWithout(Map(f, a), j);
    assert Without(Map(f, a), j) == Map(f, Without(a, j));
  }

  lemma {:induction false} MapPermutation<A, B>(f: A -> B, a: seq<A>, b: seq<A>)
    requires multiset(a) == multiset(b)
    ensures multiset(Map(f, a)) == multiset(Map(f, b))
  {
    if a == [] {
      assert |multiset(b)| == 0;
      assert Map(f, a) == Map(f, b);
    } else {
      assert a[0] in multiset(b);
      var j :| 0 <= j < |b| && b[j] == a[0];
      MultisetWithout(a, 0);
      MultisetWithout(b, j);
      assert multiset(Without(a, 0)) == multiset(a) - multiset{a[0]} == multiset(Without(b, j));
      MapPermutation(f, Without(a, 0), Without(b, j));
      MapWithout(f, a, 0);
      MapWithout(f, b, j);
    }
  }

  lemma IndexMember(s: Sched, x: int)
    ensures x in Indices(s) <==> x >= 0 && Executed(s, x)
  {
    if x >= 0 && Executed(s, x) {
      var k :| 0 <= k < |s.ran| && s.ran[k].idx == x;
      assert Indices(s)[k] == x;
    }
  }

  lemma SameCalls(s1: Sched, s2: Sched)
    requires Accounted(s1) && Accounted(s2) && s1.tasks == s2.tasks
    requires forall i: nat :: Executed(s1, i) <==> Executed(s2, i)
    ensures multiset(Calls(s1)) == multiset(Calls(s2))
  {
    var a, b := Indices(s1), Indices(s2);
    DistinctMultiset(a);
    DistinctMultiset(b);
    forall x
      ensures x in a <==> x in b
    {
      IndexMember(s1, x);
      IndexMember(s2, x);
    }
    assert multiset(a) == multiset(b);
    var f := i => if 0 <= i < |s1.tasks| then (s1.tasks[i].fid, s1.tasks[i].args) else (0, []);
    MapPermutation(f, a, b);
    assert Calls(s1) == Map(f, a) && Calls(s2) == Map(f, b);
  }

  /** Two drained runs over the same submissions, one under each policy or under the same one, end
      with the same codes and values and have made the same calls, however passes and arrivals were
      interleaved in either. */
  lemma {:induction false} PolicyIndependence(s1: Sched, s2: Sched, es1: seq<Event>, es2: seq<Event>)
    requires Init(s1) && Init(s2) && s1.current == s2.current
    requires s1.cfg.enPr == s2.cfg.enPr && s1.cfg.functions == s2.cfg.functions
    requires FreshSubmissions(es1) && FreshSubmissions(es2) && Submissions(es1) == Submissions(es2)
    requires s1.cfg.enPr ==> ReloadsSucceed(es1) && ReloadsSucceed(es2)
    requires Pending(Run(s1, es1)) == {} && Pending(Run(s2, es2)) == {}
    ensures Accounted(Run(s1, es1)) && Accounted(Run(s2, es2))
    ensures Run(s1, es1).tasks == Run(s2, es2).tasks
    ensures multiset(Calls(Run(s1, es1))) == multiset(Calls(Run(s2, es2)))
  {
    var r1, r2 := Run(s1, es1), Run(s2, es2);
    RunIsAccounted(s1, es1);
    RunIsAccounted(s2, es2);
    RunIsSettled(s1, es1);
    RunIsSettled(s2, es2);
    RunHoldsAdmitted(s1, es1);
    RunHoldsAdmitted(s2, es2);
    forall i: nat | i < |r1.tasks|
      ensures r1.tasks[i] == r2.tasks[i]
    {
      assert i !in Pending(r1) && i !in Pending(r2);
    }
    SameCalls(r1, r2);
  }

  // ---------------------------------------------------------------- fewest reconfigurations

  /** The bitstreams the batch still needs. */
  function Needed(s: Sched): set<string> {
    set i | 0 <= i < |s.tasks| && s.cfg.Runnable(s.tasks[i]) :: s.cfg.Bitstream(s.tasks[i])
  }

  function Missing(s: Sched): set<string> {
    Needed(s) - {s.current}
  }

  lemma SetDropSize<T>(a: set<T>, b: set<T>, x: T)
    requires a - {x} <= b <= a
    ensures |b| <= |a| <= |b| + 1
  {
    SubsetSize(b, a);
    SubsetSize(a, b + {x});
  }

  lemma NeededAfterPass(s: Sched, s': Sched, c: nat, ok: bool)
    requires PassShape(s, s', c, ok)
    ensures Needed(s') <= Needed(s)
    ensures c < |s.tasks| ==>
              s.cfg.Bitstream(s.tasks[c]) in Needed(s) && Needed(s) - {s.cfg.Bitstream(s.tasks[c])} <= Needed(s')
    ensures c >= |s.tasks| ==> Needed(s) <= Needed(s')
  {
    forall b | b in Needed(s')
      ensures b in Needed(s)
    {
      var i :| 0 <= i < |s'.tasks| && s'.cfg.Runnable(s'.tasks[i]) && s'.cfg.Bitstream(s'.tasks[i]) == b;
      assert s.cfg.Runnable(s.tasks[i]);
    }
    forall b | b in Needed(s) && (c < |s.tasks| ==> b != s.cfg.Bitstream(s.tasks[c]))
      ensures b in Needed(s')
    {
      var i :| 0 <= i < |s.tasks| && s.cfg.Runnable(s.tasks[i]) && s.cfg.Bitstream(s.tasks[i]) == b;
      assert s'.cfg.Runnable(s'.tasks[i]);
    }
  }

  /** Under any policy a pass that reloads removes at most one missing bitstream, and one that does
      not reload removes none, provided the reload it tried did not fail. */
  lemma PassLoadsAtLeast(s: Sched, ok: bool)
    requires s.cfg.enPr && ok
    ensures |Iterate(s, ok).loads| - |s.loads| >= |Missing(s)| - |Missing(Iterate(s, ok))|
  {
    PassEffect(s, ok);
    var s', c := Iterate(s, ok), Choice(s.cfg, s.tasks, s.current);
    NeededAfterPass(s, s', c, ok);
    if |s'.loads| > |s.loads| {
      SetDropSize(Missing(s), Missing(s) - {s'.current}, s'.current);
      SubsetSize(Missing(s) - {s'.current}, Missing(s'));
    } else {
      SubsetSize(Missing(s), Missing(s'));
    }
  }

  /** With reordering a pass reloads only when nothing pending matches, so each reload settles one
      missing bitstream for good. */
  lemma GreedyPassLoads(s: Sched, ok: bool)
    requires s.cfg.reorder && s.cfg.enPr && ok
    ensures |Iterate(s, ok).loads| - |s.loads| == |Missing(s)| - |Missing(Iterate(s, ok))|
  {
    PassLoadsAtLeast(s, ok);
    PassEffect(s, ok);
    var s', c := Iterate(s, ok), Choice(s.cfg, s.tasks, s.current);
    NeededAfterPass(s, s', c, ok);
    if |s'.loads| > |s.loads| {
      assert forall k :: 0 <= k < |s.tasks| ==> !s.cfg.Matching(s.tasks[k], s.current);
      assert s.current !in Needed(s);
      assert s'.current in Missing(s);
      assert Missing(s') <= Missing(s) - {s'.current};
      SubsetSize(Missing(s'), Missing(s) - {s'.current});
    } else {
      SubsetSize(Missing(s'), Missing(s));
    }
  }

  lemma DrainedNeedsNothing(s: Sched)
    requires Pending(s) == {}
    ensures Missing(s) == {}
  {
    if b :| b in Missing(s) {
      var i: nat :| i < |s.tasks| && s.cfg.Runnable(s.tasks[i]) && s.cfg.Bitstream(s.tasks[i]) == b;
      assert i in Pending(s);
    }
  }

  lemma {:induction false} DrainLoads(s: Sched, oks: seq<bool>)
    requires s.cfg.enPr && forall i :: 0 <= i < |oks| ==> oks[i]
    ensures var r := Run(s, Passes(oks));
            && r.cfg == s.cfg
            && |r.loads| - |s.loads| >= |Missing(s)| - |Missing(r)|
            && (s.cfg.reorder ==> |r.loads| - |s.loads| == |Missing(s)| - |Missing(r)|)
  {
    hide Missing, Iterate;
    if oks != [] {
      var n := |oks| - 1;
      DrainLoads(s, oks[..n]);
      assert Passes(oks)[..n] == Passes(oks[..n]);
      var q := Run(s, Passes(oks[..n]));
      PassKeepsConfig(q, oks[n]);
      PassLoadsAtLeast(q, oks[n]);
      if s.cfg.reorder { GreedyPassLoads(q, oks[n]); }
    }
  }

  lemma PassKeepsConfig(s: Sched, ok: bool)
    ensures Iterate(s, ok).cfg == s.cfg
  {
    PassEffect(s, ok);
  }

  /** A plan made by anyone: load a bitstream, or execute a task of the batch. */
  datatype Action = Load(bitstream: string) | Exec(idx: nat)

  /** A plan is sound when every execution happens with the task's own bitstream loaded. */
  predicate Sound(s: Sched, loaded: string, plan: seq<Action>)
    decreases |plan|
  {
    plan == [] ||
    match plan[0]
    case Load(b) => Sound(s, b, plan[1..])
    case Exec(i) =>
      && i < |s.tasks| && s.cfg.Runnable(s.tasks[i]) && s.cfg.Bitstream(s.tasks[i]) == loaded
      && Sound(s, loaded, plan[1..])
  }

  function LoadCount(plan: seq<Action>): nat {
    if plan == [] then 0 else (if plan[0].Load? then 1 else 0) + LoadCount(plan[1..])
  }

  /** The bitstreams under which a plan executes something. */
  function Served(s: Sched, plan: seq<Action>): set<string> {
    set a | a in plan && a.Exec? && a.idx < |s.tasks| && s.cfg.Supported(s.tasks[a.idx]) ::
      s.cfg.Bitstream(s.tasks[a.idx])
  }

  lemma {:induction false} PlanLoads(s: Sched, loaded: string, plan: seq<Action>)
    requires Sound(s, loaded, plan)
    ensures |Served(s, plan) - {loaded}| <= LoadCount(plan)
    decreases |plan|
  {
    if plan == [] {
      assert Served(s, plan) == {};
    } else {
      var rest := plan[1..];
      match plan[0] {
        case Load(b) =>
          PlanLoads(s, b, rest);
          assert Served(s, plan) == Served(s, rest);
          SubsetSize(Served(s, plan) - {loaded}, (Served(s, rest) - {b}) + {b});
        case Exec(i) =>
          PlanLoads(s, loaded, rest);
          SubsetSize(Served(s, plan) - {loaded}, Served(s, rest) - {loaded});
      }
    }
  }

  lemma MissingIgnoresPolicy(s: Sched, fifo: Sched)
    requires fifo == s.(cfg := s.cfg.(reorder := false))
    ensures Pending(fifo) == Pending(s) && Missing(fifo) == Missing(s)
  {
    assert forall i :: 0 <= i < |s.tasks| ==> fifo.cfg.Supported(fifo.tasks[i]) == s.cfg.Supported(s.tasks[i]);
    assert forall b :: b in Needed(s) ==> b in Needed(fifo);
  }

  /** Draining a batch with reordering reloads exactly once per needed bitstream that is not loaded;
      no sound plan that executes the whole batch loads less, and neither does draining it in
      submission order. */
  lemma GreedyIsOptimal(s: Sched, oks: seq<bool>, plan: seq<Action>, fifo: Sched)
    requires s.cfg.reorder && s.cfg.enPr && |Pending(s)| <= |oks| && forall i :: 0 <= i < |oks| ==> oks[i]
    requires Sound(s, s.current, plan)
    requires forall i: nat :: i < |s.tasks| && s.cfg.Runnable(s.tasks[i]) ==> Exec(i) in plan
    requires fifo == s.(cfg := s.cfg.(reorder := false))
    ensures |Run(s, Passes(oks)).loads| - |s.loads| == |Missing(s)|
    ensures |Missing(s)| <= LoadCount(plan)
    ensures |Missing(s)| <= |Run(fifo, Passes(oks)).loads| - |s.loads|
  {
    hide Run, Passes, Pending;
    DrainCosts(s, oks);
    PlanServesAll(s, plan);
    MissingIgnoresPolicy(s, fifo);
    DrainCosts(fifo, oks);
  }

  /** Draining a batch reloads at least once per needed bitstream that is not loaded, and with reordering exactly
      once. */
  lemma DrainCosts(s: Sched, oks: seq<bool>)
    requires s.cfg.enPr && |Pending(s)| <= |oks| && forall i :: 0 <= i < |oks| ==> oks[i]
    ensures |Run(s, Passes(oks)).loads| - |s.loads| >= |Missing(s)|
    ensures s.cfg.reorder ==> |Run(s, Passes(oks)).loads| - |s.loads| == |Missing(s)|
  {
    PassesDrain(s, oks);
    DrainLoads(s, oks);
    DrainedNeedsNothing(Run(s, Passes(oks)));
    hide Run, Passes, Pending, Missing;
  }

  lemma PlanServesAll(s: Sched, plan: seq<Action>)
    requires Sound(s, s.current, plan)
    requires forall i: nat :: i < |s.tasks| && s.cfg.Runnable(s.tasks[i]) ==> Exec(i) in plan
    ensures |Missing(s)| <= LoadCount(plan)
  {
    PlanLoads(s, s.current, plan);
    forall b | b in Needed(s)
      ensures b in Served(s, plan)
    {
      var i: nat :| i < |s.tasks| && s.cfg.Runnable(s.tasks[i]) && s.cfg.Bitstream(s.tasks[i]) == b;
      assert Exec(i) in plan;
    }
    SubsetSize(Missing(s), Served(s, plan) - {s.current});
  }
}
