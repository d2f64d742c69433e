/** What holds of every run of the scheduler: executions are sound and happen at most once, every
    pass makes progress, and completion follows submission order. */
module SchedulingRuns {
  import opened Scheduling

  // ---------------------------------------------------------------- sets of pending tasks

  function Pending(s: Sched): set<nat> {
    set i: nat | i < |s.tasks| && !s.tasks[i].completed
  }

  lemma {:induction false} SubsetSize<T>(a: set<T>, b: set<T>)
    requires a <= b
    ensures |a| <= |b|
    ensures a != b ==> |a| < |b|
  {
    assert b == a + (b - a);
    assert a != b ==> b - a != {};
  }

  /** A pass that starts with something pending leaves strictly less pending. */
  lemma PassMakesProgress(s: Sched, ok: bool)
    ensures Pending(Iterate(s, ok)) <= Pending(s)
    ensures Pending(s) != {} ==> |Pending(Iterate(s, ok))| < |Pending(s)|
  {
    PassEffect(s, ok);
    var s', c := Iterate(s, ok), Choice(s.cfg, s.tasks, s.current);
    if i :| i in Pending(s) {
      if c < |s.tasks| {
        assert c in Pending(s) && c !in Pending(s');
      } else {
        assert s'.tasks[i].completed;
        assert i !in Pending(s');
      }
    }
    SubsetSize(Pending(s'), Pending(s));
  }

  /** n pending tasks are drained by n passes, whether reloads succeed or fail. */
  lemma {:induction false} PassesDrain(s: Sched, oks: seq<bool>)
    requires |Pending(s)| <= |oks|
    ensures Pending(Run(s, Passes(oks))) == {}
  {
    DrainCount(s, oks);
  }

  lemma {:induction false} DrainCount(s: Sched, oks: seq<bool>)
    ensures |Pending(Run(s, Passes(oks)))| <= if |Pending(s)| <= |oks| then 0 else |Pending(s)| - |oks|
  {
    if oks != [] {
      var n := |oks| - 1;
      DrainCount(s, oks[..n]);
      assert Passes(oks)[..n] == Passes(oks[..n]);
      PassMakesProgress(Run(s, Passes(oks[..n])), oks[n]);
    }
  }

  // ---------------------------------------------------------------- executions

  ghost predicate Executed(s: Sched, i: nat) {
    exists k :: 0 <= k < |s.ran| && s.ran[k].idx == i
  }

  /** The task shows the outcome of its own function on its own arguments. */
  predicate ShowsResult(cfg: Config, t: Task)
    requires cfg.Supported(t)
  {
    match cfg.Result(t)
    case Returned(v) => t.code == 0 && t.value == v
    case Threw => t.code == 1 && t.value == []
  }

  /** Every execution was of a supported task, with that task's bitstream loaded; the task shows its
      own result, and no task was executed twice. */
  ghost predicate ExecutionsSound(s: Sched) {
    && (forall k :: 0 <= k < |s.ran| ==>
          && s.ran[k].idx < |s.tasks|
          && s.tasks[s.ran[k].idx].completed
          && s.cfg.Supported(s.tasks[s.ran[k].idx])
          && s.ran[k].loaded == s.cfg.Bitstream(s.tasks[s.ran[k].idx])
          && ShowsResult(s.cfg, s.tasks[s.ran[k].idx]))
    && (forall j, k :: 0 <= j < k < |s.ran| ==> s.ran[j].idx != s.ran[k].idx)
  }

  /** A completed task that was not executed failed, and a pending task is as it was submitted. */
  ghost predicate OthersUntouched(s: Sched) {
    && (forall i :: 0 <= i < |s.tasks| && s.tasks[i].completed && !Executed(s, i) ==>
          s.tasks[i].code == 1 && s.tasks[i].value == [])
    && (forall i :: 0 <= i < |s.tasks| && !s.tasks[i].completed ==> s.tasks[i].Fresh())
  }

  ghost predicate Accounted(s: Sched) {
    ExecutionsSound(s) && OthersUntouched(s)
  }

  lemma InsertKeepsAccounted(s: Sched, t: Task)
    requires Accounted(s) && t.Fresh()
    ensures Accounted(Insert(s, t))
  {
    var s' := Insert(s, t);
    forall i | 0 <= i < |s'.tasks| && s'.tasks[i].completed && !Executed(s', i)
      ensures s'.tasks[i].code == 1 && s'.tasks[i].value == []
    {
      assert s'.tasks[i] == s.tasks[i] && !Executed(s, i);
    }
  }

  lemma PassKeepsExecutionsSound(s: Sched, s': Sched, c: nat, ok: bool)
    requires Accounted(s) && PassShape(s, s', c, ok)
    ensures ExecutionsSound(s')
  {
    forall k | 0 <= k < |s.ran|
      ensures s'.tasks[s.ran[k].idx] == s.tasks[s.ran[k].idx]
    {
      assert s.tasks[s.ran[k].idx].completed;
    }
  }

  lemma PassKeepsOthersUntouched(s: Sched, s': Sched, c: nat, ok: bool)
    requires Accounted(s) && PassShape(s, s', c, ok)
    ensures OthersUntouched(s')
  {
    forall i: nat | Executed(s, i)
      ensures Executed(s', i)
    {
      var k :| 0 <= k < |s.ran| && s.ran[k].idx == i;
      assert s'.ran[k].idx == i;
    }
    if |s'.ran| > |s.ran| {
      assert s'.ran[|s.ran|].idx == c;
      assert Executed(s', c);
    }
  }

  /** A function is executed only with its own bitstream loaded, at most once per task, and the
      result is the task's own, in every run and under either policy. */
  lemma {:induction false} RunIsAccounted(s: Sched, es: seq<Event>)
    requires Init(s) && FreshSubmissions(es)
    ensures Accounted(Run(s, es))
  {
    if es != [] {
      var p, e := es[..|es| - 1], es[|es| - 1];
      assert forall i :: 0 <= i < |p| ==> p[i] == es[i];
      RunIsAccounted(s, p);
      match e {
        case Submit(t) => InsertKeepsAccounted(Run(s, p), t);
        case Pass(ok) =>
          var q := Run(s, p);
          PassEffect(q, ok);
          PassKeepsExecutionsSound(q, Iterate(q, ok), Choice(q.cfg, q.tasks, q.current), ok);
          PassKeepsOthersUntouched(q, Iterate(q, ok), Choice(q.cfg, q.tasks, q.current), ok);
      }
    }
  }

  // ---------------------------------------------------------------- order of completion

  predicate CompletedIsPrefix(s: Sched) {
    forall i, j :: 0 <= i < j < |s.tasks| && s.tasks[j].completed ==> s.tasks[i].completed
  }

  /** Among supported tasks that need the same bitstream, the completed ones come first. */
  predicate CompletedIsPrefixPerBitstream(s: Sched) {
    forall i, j | 0 <= i < j < |s.tasks| && s.cfg.Supported(s.tasks[i]) && s.cfg.Supported(s.tasks[j]) ::
      s.cfg.Bitstream(s.tasks[i]) == s.cfg.Bitstream(s.tasks[j]) && s.tasks[j].completed ==> s.tasks[i].completed
  }

  lemma PassKeepsFifoOrder(s: Sched, ok: bool)
    requires !s.cfg.reorder && CompletedIsPrefix(s)
    ensures CompletedIsPrefix(Iterate(s, ok))
  {
    PassEffect(s, ok);
  }

  lemma PassKeepsBitstreamOrder(s: Sched, ok: bool)
    requires CompletedIsPrefixPerBitstream(s)
    ensures CompletedIsPrefixPerBitstream(Iterate(s, ok))
  {
    PassEffect(s, ok);
    var s', c := Iterate(s, ok), Choice(s.cfg, s.tasks, s.current);
    forall i, j | 0 <= i < j < |s'.tasks| && s'.cfg.Supported(s'.tasks[i]) && s'.cfg.Supported(s'.tasks[j])
      && s'.cfg.Bitstream(s'.tasks[i]) == s'.cfg.Bitstream(s'.tasks[j]) && s'.tasks[j].completed
      ensures s'.tasks[i].completed
    {
      if j == c && i != c && !s.tasks[i].completed {
        assert s.cfg.Runnable(s.tasks[i]);
        assert false;
      }
    }
  }

  /** Completion order over every run, with submissions arriving at any time and reloads failing at
      will: submission order without reordering, and per bitstream under either policy. */
  lemma {:induction false} RunKeepsOrder(s: Sched, es: seq<Event>)
    requires Init(s) && FreshSubmissions(es)
    ensures !s.cfg.reorder ==> CompletedIsPrefix(Run(s, es))
    ensures CompletedIsPrefixPerBitstream(Run(s, es))
  {
    if es != [] {
      var p, e := es[..|es| - 1], es[|es| - 1];
      assert forall i :: 0 <= i < |p| ==> p[i] == es[i];
      RunKeepsOrder(s, p);
      RunIsLater(s, p);
      if e.Pass? {
        if !s.cfg.reorder { PassKeepsFifoOrder(Run(s, p), e.reloadOk); }
        PassKeepsBitstreamOrder(Run(s, p), e.reloadOk);
      }
    }
  }
}
