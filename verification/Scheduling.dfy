/** The task scheduler of sw/src/cSched.cpp on values: one pass of its loop, the insertion of a
    task, and runs in which insertions and passes alternate in any way. */
module Scheduling {
  import opened Bytes

  /** What a user function does: it returns a value, or it throws. */
  datatype Outcome = Returned(value: seq<Byte>) | Threw

  /** A registered function (sw/include/cFunc.hpp). */
  datatype Func = Func(bitstream: string, argSizes: seq<nat>, retSize: nat, fn: seq<seq<Byte>> -> Outcome)
  {
    /** cFunc::run: a wrong number of buffers throws; otherwise each argument is copied out of the
        front of its buffer, argSizes[i] bytes long, and the user function is applied. */
    function Run(args: seq<seq<Byte>>): Outcome {
      if |args| != |argSizes| then Threw else fn(Unpack(args))
    }

    function Unpack(args: seq<seq<Byte>>): seq<seq<Byte>>
      requires |args| == |argSizes|
    {
      seq(|args|, i requires 0 <= i < |args| =>
        if argSizes[i] <= |args[i]| then args[i][..argSizes[i]] else args[i])
    }
  }

  /** A function throws on a wrong number of buffers, and otherwise gets the front of each. */
  lemma FunctionGetsFronts(f: Func, args: seq<seq<Byte>>, fronts: seq<seq<Byte>>)
    ensures |args| != |f.argSizes| ==> f.Run(args) == Threw
    ensures && |args| == |f.argSizes| == |fronts|
            && (forall i :: 0 <= i < |args| ==> f.argSizes[i] <= |args[i]| && fronts[i] == args[i][..f.argSizes[i]]) ==>
              f.Run(args) == f.fn(fronts)
  {
    if && |args| == |f.argSizes| == |fronts|
       && forall i :: 0 <= i < |args| ==> f.argSizes[i] <= |args[i]| && fronts[i] == args[i][..f.argSizes[i]]
    {
      assert f.Unpack(args) == fronts;
    }
  }

  /** A task record (sw/src/cTask.cpp). `thread` is the cThread the task runs on, if it has one. */
  datatype Task = Task(
    tid: int, fid: int, retSize: nat, thread: Option<nat>, args: seq<seq<Byte>>,
    completed: bool, code: int, value: seq<Byte>)
  {
    predicate Fresh() {
      !completed && code == -1 && value == []
    }

    /** The fields that no step of the scheduler writes. */
    predicate SameRequest(other: Task) {
      tid == other.tid && fid == other.fid && retSize == other.retSize
      && thread == other.thread && args == other.args
    }

    function Fail(): Task {
      this.(completed := true, code := 1)
    }

    function Finish(o: Outcome): Task {
      match o
      case Returned(v) => this.(completed := true, code := 0, value := v)
      case Threw => Fail()
    }
  }

  datatype Config = Config(reorder: bool, enPr: bool, functions: map<int, Func>)
  {
    /** The sanity check made before a task is considered. */
    predicate Supported(t: Task) {
      t.thread.Some? && t.fid in functions
    }

    predicate Runnable(t: Task) {
      !t.completed && Supported(t)
    }

    function Bitstream(t: Task): string
      requires Supported(t)
    {
      functions[t.fid].bitstream
    }

    predicate Matching(t: Task, current: string) {
      Runnable(t) && Bitstream(t) == current
    }

    function Result(t: Task): Outcome
      requires Supported(t)
    {
      functions[t.fid].Run(t.args)
    }
  }

  /** One execution of a function: which task, and the bitstream loaded at that moment. */
  datatype Execution = Execution(idx: nat, loaded: string)

  /** The scheduler's fields, and the history of executions and of successful reconfigurations. */
  datatype Sched = Sched(
    cfg: Config, tasks: seq<Task>, index: map<int, nat>, current: string,
    ran: seq<Execution>, loads: seq<string>)

  predicate Init(s: Sched) {
    s.tasks == [] && s.index == map[] && s.ran == [] && s.loads == []
  }

  // ---------------------------------------------------------------- choosing a task

  /** The first runnable task at or after i, or |tasks|. */
  function FirstRunnable(cfg: Config, tasks: seq<Task>, i: nat): (r: nat)
    requires i <= |tasks|
    ensures i <= r <= |tasks|
    ensures r < |tasks| ==> cfg.Runnable(tasks[r])
    ensures forall k :: i <= k < r ==> !cfg.Runnable(tasks[k])
    decreases |tasks| - i
  {
    if i == |tasks| || cfg.Runnable(tasks[i]) then i else FirstRunnable(cfg, tasks, i + 1)
  }

  /** The first runnable task at or after i whose bitstream is loaded, or |tasks|. */
  function FirstMatching(cfg: Config, tasks: seq<Task>, current: string, i: nat): (r: nat)
    requires i <= |tasks|
    ensures i <= r <= |tasks|
    ensures r < |tasks| ==> cfg.Matching(tasks[r], current)
    ensures forall k :: i <= k < r ==> !cfg.Matching(tasks[k], current)
    decreases |tasks| - i
  {
    if i == |tasks| || cfg.Matching(tasks[i], current) then i else FirstMatching(cfg, tasks, current, i + 1)
  }

  /** The task a pass selects, or |tasks| when there is none. */
  function Choice(cfg: Config, tasks: seq<Task>, current: string): (c: nat)
    ensures c <= |tasks|
    ensures c < |tasks| ==> cfg.Runnable(tasks[c])
    ensures c == |tasks| ==> forall k :: 0 <= k < |tasks| ==> !cfg.Runnable(tasks[k])
  {
    var m := FirstMatching(cfg, tasks, current, 0);
    if cfg.reorder && m < |tasks| then m else FirstRunnable(cfg, tasks, 0)
  }

  /** How far the pass looked: it stops early only at a task it can settle on. */
  function ScanEnd(cfg: Config, tasks: seq<Task>, current: string): (e: nat)
    ensures e <= |tasks|
  {
    if cfg.reorder then FirstMatching(cfg, tasks, current, 0) else FirstRunnable(cfg, tasks, 0)
  }

  /** What the scan knows before it comes to task i: the task it will fall back to, if any, and that none so far
      lets it stop. */
  ghost predicate Looked(cfg: Config, tasks: seq<Task>, current: string, i: nat, next: int) {
    && i <= |tasks| && -1 <= next < i && (!cfg.reorder ==> next == -1)
    && (next == -1 ==> forall k :: 0 <= k < i ==> !cfg.Runnable(tasks[k]))
    && (next >= 0 ==> cfg.Runnable(tasks[next]) && forall k :: 0 <= k < next ==> !cfg.Runnable(tasks[k]))
    && forall k :: 0 <= k < i ==> !cfg.Matching(tasks[k], current)
  }

  lemma LookedNowhere(cfg: Config, tasks: seq<Task>, current: string)
    ensures Looked(cfg, tasks, current, 0, -1)
  {
  }

  /** The scan stops at a task it can settle on, and goes on past any other. */
  lemma LookedHere(cfg: Config, tasks: seq<Task>, current: string, i: nat, next: int)
    requires i < |tasks| && Looked(cfg, tasks, current, i, next)
    ensures !cfg.Runnable(tasks[i]) ==> Looked(cfg, tasks, current, i + 1, next)
    ensures cfg.Runnable(tasks[i]) && cfg.reorder && !cfg.Matching(tasks[i], current) ==>
              Looked(cfg, tasks, current, i + 1, if next == -1 then i else next)
    ensures cfg.Runnable(tasks[i]) && (!cfg.reorder || cfg.Matching(tasks[i], current)) ==>
              Choice(cfg, tasks, current) == i && ScanEnd(cfg, tasks, current) == i
  {
  }

  lemma LookedEverywhere(cfg: Config, tasks: seq<Task>, current: string, next: int)
    requires Looked(cfg, tasks, current, |tasks|, next)
    ensures -1 <= next < |tasks| && Choice(cfg, tasks, current) == if next == -1 then |tasks| else next
    ensures ScanEnd(cfg, tasks, current) == |tasks|
  {
  }

  /** Every unsupported pending task that the pass looked at is failed. */
  function Swept(cfg: Config, t: Task): Task {
    if !t.completed && !cfg.Supported(t) then t.Fail() else t
  }

  function Sweep(cfg: Config, tasks: seq<Task>, end: nat): (r: seq<Task>)
    requires end <= |tasks|
    ensures |r| == |tasks|
    ensures forall i :: 0 <= i < |tasks| ==> r[i] == if i < end then Swept(cfg, tasks[i]) else tasks[i]
  {
    seq(|tasks|, i requires 0 <= i < |tasks| => if i < end then Swept(cfg, tasks[i]) else tasks[i])
  }

  /** The second half of a pass: task c gets its bitstream loaded, if it can be, and is executed. */
  function Settle(s: Sched, c: nat, reloadOk: bool): Sched
    requires c < |s.tasks| && s.cfg.Supported(s.tasks[c])
  {
    var t := s.tasks[c];
    var target := s.cfg.Bitstream(t);
    if s.current == target then
      s.(tasks := s.tasks[c := t.Finish(s.cfg.Result(t))], ran := s.ran + [Execution(c, s.current)])
    else if s.cfg.enPr && reloadOk then
      s.(tasks := s.tasks[c := t.Finish(s.cfg.Result(t))], ran := s.ran + [Execution(c, target)],
         current := target, loads := s.loads + [target])
    else s.(tasks := s.tasks[c := t.Fail()])
  }

  /** One pass of the scheduler loop; `reloadOk` says whether a reconfiguration tried in it succeeds. */
  function Iterate(s: Sched, reloadOk: bool): Sched {
    var c := Choice(s.cfg, s.tasks, s.current);
    var swept := s.(tasks := Sweep(s.cfg, s.tasks, ScanEnd(s.cfg, s.tasks, s.current)));
    if c == |s.tasks| then swept else Settle(swept, c, reloadOk)
  }

  // ---------------------------------------------------------------- inserting a task

  /** The unlocked half of addTask: would the task be accepted? */
  predicate Accepts(s: Sched, t: Task) {
    t.tid !in s.index && t.fid in s.cfg.functions
  }

  /** The locked half of addTask. `emplace` leaves an existing key alone. */
  function Insert(s: Sched, t: Task): Sched {
    s.(tasks := s.tasks + [t], index := if t.tid in s.index then s.index else s.index[t.tid := |s.tasks|])
  }

  function AddTask(s: Sched, t: Task): Sched {
    if Accepts(s, t) then Insert(s, t) else s
  }

  /** taskChecker followed by the access through the index (getTask). */
  function GetTask(s: Sched, tid: int): Option<Task> {
    if tid in s.index && s.index[tid] < |s.tasks| && s.tasks[s.index[tid]].tid == tid
    then Some(s.tasks[s.index[tid]]) else None
  }

  predicate IsTaskCompleted(s: Sched, tid: int) {
    var t := GetTask(s, tid);
    t.Some? && t.value.completed
  }

  /** The reference the index is compared with: the position of the id in the task list. */
  function Search(tasks: seq<Task>, tid: int): (r: Option<nat>)
    ensures r.Some? ==> r.value < |tasks| && tasks[r.value].tid == tid
    ensures r.Some? ==> forall k :: 0 <= k < r.value ==> tasks[k].tid != tid
    ensures r.None? ==> forall k :: 0 <= k < |tasks| ==> tasks[k].tid != tid
  {
    if tasks == [] then None
    else
      var r := Search(tasks[..|tasks| - 1], tid);
      if r.Some? then r else if tasks[|tasks| - 1].tid == tid then Some(|tasks| - 1) else None
  }

  ghost predicate IndexAgrees(s: Sched) {
    forall tid :: Search(s.tasks, tid) == if tid in s.index then Some(s.index[tid]) else None
  }

  // ---------------------------------------------------------------- runs

  datatype Event = Submit(task: Task) | Pass(reloadOk: bool)

  function Step(s: Sched, e: Event): Sched {
    match e
    case Submit(t) => AddTask(s, t)
    case Pass(ok) => Iterate(s, ok)
  }

  function Run(s: Sched, es: seq<Event>): Sched {
    if es == [] then s else Step(Run(s, es[..|es| - 1]), es[|es| - 1])
  }

  /** Tasks enter as the cTask constructor leaves them. */
  predicate FreshSubmissions(es: seq<Event>) {
    forall i :: 0 <= i < |es| && es[i].Submit? ==> es[i].task.Fresh()
  }

  predicate ReloadsSucceed(es: seq<Event>) {
    forall i :: 0 <= i < |es| && es[i].Pass? ==> es[i].reloadOk
  }

  /** k passes and nothing else. */
  function Passes(ok: seq<bool>): (es: seq<Event>)
    ensures |es| == |ok| && forall i :: 0 <= i < |ok| ==> es[i] == Pass(ok[i])
  {
    seq(|ok|, i requires 0 <= i < |ok| => Pass(ok[i]))
  }

  lemma RunStep(s: Sched, es: seq<Event>, e: Event)
    ensures Run(s, es + [e]) == Step(Run(s, es), e)
  {
    assert (es + [e])[..|es|] == es;
  }

  // ---------------------------------------------------------------- what one pass does

  /** What a pass that chose c does to each task, without saying how c was found: every other
      supported task is untouched, an unsupported one is untouched or failed, and the chosen one is
      executed with its bitstream loaded, or fails because its bitstream could not be loaded. */
  ghost predicate PassShape(s: Sched, s': Sched, c: nat, ok: bool) {
    && s'.cfg == s.cfg && s'.index == s.index && |s'.tasks| == |s.tasks|
    && (forall i :: 0 <= i < |s.tasks| && i != c ==>
          s'.tasks[i] == s.tasks[i] || s'.tasks[i] == Swept(s.cfg, s.tasks[i]))
    && (c >= |s.tasks| ==> s'.ran == s.ran && s'.current == s.current && s'.loads == s.loads)
    && (c < |s.tasks| ==> s.cfg.Runnable(s.tasks[c]) && ChosenShape(s, s', c, ok))
  }

  ghost predicate ChosenShape(s: Sched, s': Sched, c: nat, ok: bool)
    requires c < |s.tasks| == |s'.tasks| && s.cfg.Supported(s.tasks[c])
  {
    var t := s.tasks[c];
    var target := s.cfg.Bitstream(t);
    || (&& s'.tasks[c] == t.Finish(s.cfg.Result(t))
        && s'.ran == s.ran + [Execution(c, s'.current)] && s'.current == target
        && s'.loads == (if s.current == target then s.loads else s.loads + [target])
        && (s.current == target || (s.cfg.enPr && ok)))
    || (&& s'.tasks[c] == t.Fail() && s.current != target && !(s.cfg.enPr && ok)
        && s'.ran == s.ran && s'.current == s.current && s'.loads == s.loads)
  }

  lemma PassEffect(s: Sched, ok: bool)
    ensures PassShape(s, Iterate(s, ok), Choice(s.cfg, s.tasks, s.current), ok)
  {
  }

  // ---------------------------------------------------------------- index agreement

  lemma {:induction false} SearchAppend(tasks: seq<Task>, t: Task, tid: int)
    ensures Search(tasks + [t], tid) ==
            var r := Search(tasks, tid); if r.Some? then r else if t.tid == tid then Some(|tasks|) else None
  {
    assert (tasks + [t])[..|tasks|] == tasks;
  }

  lemma {:induction false} SearchSameIds(a: seq<Task>, b: seq<Task>, tid: int)
    requires |a| == |b| && forall i :: 0 <= i < |a| ==> a[i].tid == b[i].tid
    ensures Search(a, tid) == Search(b, tid)
  {
    if a != [] { SearchSameIds(a[..|a| - 1], b[..|b| - 1], tid); }
  }

  lemma IndexLookup(s: Sched, tid: int)
    requires IndexAgrees(s)
    ensures tid in s.index ==> s.index[tid] < |s.tasks| && s.tasks[s.index[tid]].tid == tid
    ensures tid !in s.index ==> forall k :: 0 <= k < |s.tasks| ==> s.tasks[k].tid != tid
  {
    assert Search(s.tasks, tid) == if tid in s.index then Some(s.index[tid]) else None;
  }

  lemma InsertKeepsIndex(s: Sched, t: Task)
    requires IndexAgrees(s)
    ensures IndexAgrees(Insert(s, t))
  {
    var n := Insert(s, t);
    forall tid
      ensures Search(n.tasks, tid) == if tid in n.index then Some(n.index[tid]) else None
    {
      SearchAppend(s.tasks, t, tid);
      SearchAppend(s.tasks, t, t.tid);
    }
  }

  lemma PassKeepsIndex(s: Sched, ok: bool)
    requires IndexAgrees(s)
    ensures IndexAgrees(Iterate(s, ok))
  {
    PassEffect(s, ok);
    forall tid
      ensures Search(Iterate(s, ok).tasks, tid) == if tid in s.index then Some(s.index[tid]) else None
    {
      SearchSameIds(s.tasks, Iterate(s, ok).tasks, tid);
    }
  }

  /** In every run the index is a linear search, so a lookup misses exactly the ids never inserted. */
  lemma {:induction false} IndexIsSearch(s: Sched, es: seq<Event>, tid: int)
    requires Init(s)
    ensures IndexAgrees(Run(s, es))
    ensures GetTask(Run(s, es), tid) ==
            var r := Search(Run(s, es).tasks, tid);
            if r.Some? then Some(Run(s, es).tasks[r.value]) else None
    ensures IsTaskCompleted(Run(s, es), tid) <==>
              var r := Search(Run(s, es).tasks, tid); r.Some? && Run(s, es).tasks[r.value].completed
  {
    if es != [] {
      var p, e := es[..|es| - 1], es[|es| - 1];
      IndexIsSearch(s, p, tid);
      match e {
        case Submit(t) => InsertKeepsIndex(Run(s, p), t);
        case Pass(ok) => PassKeepsIndex(Run(s, p), ok);
      }
    }
    assert Search(Run(s, es).tasks, tid) == if tid in Run(s, es).index then Some(Run(s, es).index[tid]) else None;
  }

  // ---------------------------------------------------------------- stability

  /** s' is later than s: nothing a client could have observed has changed. */
  ghost predicate Later(s: Sched, s': Sched) {
    && s.cfg == s'.cfg
    && |s.tasks| <= |s'.tasks|
    && (forall i :: 0 <= i < |s.tasks| ==> s'.tasks[i].SameRequest(s.tasks[i]))
    && (forall i :: 0 <= i < |s.tasks| && s.tasks[i].completed ==> s'.tasks[i] == s.tasks[i])
    && s.ran <= s'.ran
    && s.loads <= s'.loads
  }

  lemma ShapeIsLater(s: Sched, s': Sched, c: nat, ok: bool)
    requires PassShape(s, s', c, ok)
    ensures Later(s, s')
  {
  }

  lemma StepIsLater(s: Sched, e: Event)
    ensures Later(s, Step(s, e))
  {
    if e.Pass? {
      PassEffect(s, e.reloadOk);
      ShapeIsLater(s, Iterate(s, e.reloadOk), Choice(s.cfg, s.tasks, s.current), e.reloadOk);
    }
  }

  /** Positions never move; the code and the value of a completed task never change again. */
  lemma {:induction false} RunIsLater(s: Sched, es: seq<Event>)
    ensures Later(s, Run(s, es))
  {
    if es != [] {
      RunIsLater(s, es[..|es| - 1]);
      StepIsLater(Run(s, es[..|es| - 1]), es[|es| - 1]);
    }
  }
}
