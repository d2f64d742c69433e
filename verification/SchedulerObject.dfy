/** The scheduler as the object it is in sw/src/cSched.cpp: its methods change the task records, the
    index and the loaded bitstream in place, and are proved against the functions of `Scheduling`. */
module SchedulerObject {
  import opened Bytes
  import opened Scheduling

  /** Who holds the mutex of a virtual FPGA, which processes share: nobody, another process, or a thread here. */
  datatype Holder = Free | OtherProcess | Here(thread: CThread)

  class VLock {
    var holder: Holder

    constructor (holder: Holder)
      ensures this.holder == holder
    {
      this.holder := holder;
    }
  }

  /** A Coyote thread: the mutex it uses and its own flag (sw/src/cThread.cpp). */
  class CThread {
    const ctid: nat
    const vlock: VLock
    var lockAcquired: bool

    constructor (ctid: nat, vlock: VLock)
      ensures this.ctid == ctid && this.vlock == vlock && !lockAcquired
    {
      this.ctid, this.vlock := ctid, vlock;
      lockAcquired := false;
    }

    /** The flag says whether this thread holds the mutex. */
    ghost predicate FlagRight()
      reads this, vlock
    {
      lockAcquired <==> vlock.holder == Here(this)
    }

    /** No other thread of the process holds the mutex. */
    ghost predicate Ready()
      reads this, vlock
    {
      FlagRight() && (vlock.holder.Here? ==> vlock.holder == Here(this))
    }

    /** Takes the mutex unless the thread has it. It waits until another process that holds it lets go; while
        another thread of this process holds it the call does not return, which is `acquired` false. */
    method Lock() returns (acquired: bool)
      requires FlagRight()
      modifies this, vlock
      ensures acquired <==> old(Ready())
      ensures acquired ==> FlagRight() && lockAcquired && vlock.holder == Here(this)
      ensures !acquired || old(lockAcquired) ==> unchanged(this, vlock)
    {
      acquired := true;
      if !lockAcquired {
        if vlock.holder.Here? {
          return false;
        }
        vlock.holder := Here(this);
        lockAcquired := true;
      }
    }

    /** Releases the mutex if the thread has it, and never one it does not have. */
    method Unlock()
      requires FlagRight()
      modifies this, vlock
      ensures FlagRight() && !lockAcquired
      ensures vlock.holder == if old(lockAcquired) then Free else old(vlock.holder)
    {
      if lockAcquired {
        vlock.holder := Free;
        lockAcquired := false;
      }
    }
  }

  /** A task record (sw/src/cTask.cpp). */
  class CTask {
    const tid: int
    const fid: int
    const retSize: nat
    const cthread: CThread?
    const args: seq<seq<Byte>>
    var isCompleted: bool
    var retCode: int
    var retVal: seq<Byte>

    constructor (tid: int, fid: int, retSize: nat, cthread: CThread?, args: seq<seq<Byte>>)
      ensures var thread := if cthread == null then None else Some(cthread.ctid);
              View() == Task(tid, fid, retSize, thread, args, false, -1, [])
      ensures View().Fresh() && this.cthread == cthread
    {
      this.tid, this.fid, this.retSize, this.cthread, this.args := tid, fid, retSize, cthread, args;
      isCompleted, retCode, retVal := false, -1, [];
    }

    function View(): Task
      reads this
    {
      Task(tid, fid, retSize, if cthread == null then None else Some(cthread.ctid), args, isCompleted, retCode, retVal)
    }

    method SetFailed()
      modifies this
      ensures View() == old(View()).Fail()
    {
      retCode := 1;
      isCompleted := true;
    }

    method SetResult(value: seq<Byte>)
      modifies this
      ensures View() == old(View()).Finish(Returned(value))
    {
      retVal := value;
      retCode := 0;
      isCompleted := true;
    }
  }

  class CSched {
    const cfg: Config
    var tasks: seq<CTask>
    var taskIdMap: map<int, nat>
    var currentBitstream: string
    ghost var ran: seq<Execution>
    ghost var loads: seq<string>

    constructor (cfg: Config, currentBitstream: string)
      ensures Valid() && Init(View()) && this.cfg == cfg && this.currentBitstream == currentBitstream
    {
      this.cfg, this.currentBitstream := cfg, currentBitstream;
      tasks, taskIdMap, ran, loads := [], map[], [], [];
    }

    /** The task list owns its records: no record is in it twice. */
    ghost predicate Valid()
      reads this
    {
      && (forall i, j :: 0 <= i < j < |tasks| ==> tasks[i] != tasks[j])
      && (forall tid :: tid in taskIdMap ==> taskIdMap[tid] < |tasks|)
    }

    ghost function Views(): (r: seq<Task>)
      reads this, tasks
      ensures |r| == |tasks| && forall i :: 0 <= i < |tasks| ==> r[i] == tasks[i].View()
    {
      seq(|tasks|, i requires 0 <= i < |tasks| reads this, tasks => tasks[i].View())
    }

    ghost function View(): Sched
      reads this, tasks
    {
      Sched(cfg, Views(), taskIdMap, currentBitstream, ran, loads)
    }

    ghost function Threads(): set<CThread>
      reads this
    {
      set t | t in tasks && t.cthread != null :: t.cthread
    }

    ghost function Locks(): set<VLock>
      reads this
    {
      set t | t in tasks && t.cthread != null :: t.cthread.vlock
    }

    /** No thread of a task waits for a mutex that another thread of this process holds. */
    ghost predicate AllReady()
      reads this, Threads(), Locks()
    {
      forall t :: t in Threads() ==> t.vlock in Locks() && t.Ready()
    }

    // -------------------------------------------------------------- lookup and insertion

    method AddTask(task: CTask?) returns (added: bool)
      requires Valid() && task !in tasks
      modifies this
      ensures Valid()
      ensures task == null ==> !added && View() == old(View())
      ensures task != null ==>
                View() == Scheduling.AddTask(old(View()), task.View()) && (added <==> Accepts(old(View()), task.View()))
      ensures tasks == if added then old(tasks) + [task] else old(tasks)
    {
      if task == null || task.tid in taskIdMap || task.fid !in cfg.functions {
        return false;
      }
      tasks := tasks + [task];
      taskIdMap := taskIdMap[task.tid := |tasks| - 1];
      assert Views() == old(Views()) + [task.View()];
      return true;
    }

    method GetTask(tid: int) returns (task: CTask?)
      requires Valid()
      ensures task != null ==> task in tasks && Scheduling.GetTask(View(), tid) == Some(task.View())
      ensures task == null ==> Scheduling.GetTask(View(), tid) == None
    {
      if tid !in taskIdMap || tasks[taskIdMap[tid]].tid != tid {
        return null;
      }
      task := tasks[taskIdMap[tid]];
    }

    method IsTaskCompleted(tid: int) returns (completed: bool)
      requires Valid()
      ensures completed <==> Scheduling.IsTaskCompleted(View(), tid)
    {
      if tid !in taskIdMap || tasks[taskIdMap[tid]].tid != tid {
        return false;
      }
      completed := tasks[taskIdMap[tid]].isCompleted;
    }

    // -------------------------------------------------------------- one pass

    /** The scan over the task list: fails the unsupported tasks it meets and settles on one. */
    method Select() returns (next: int)
      requires Valid()
      modifies tasks
      ensures tasks == old(tasks)
      ensures Views() == Sweep(cfg, old(Views()), ScanEnd(cfg, old(Views()), currentBitstream))
      ensures next == var c := Choice(cfg, old(Views()), currentBitstream); if c == |tasks| then -1 else c
    {
      hide Looked, Choice, ScanEnd, Swept;
      ghost var v := Views();
      next := -1;
      var i, found := 0, false;
      LookedNowhere(cfg, v, currentBitstream);
      while i < |tasks| && !found
        invariant 0 <= i <= |tasks| == |v|
        invariant forall k :: 0 <= k < |tasks| ==> tasks[k].View() == if k < i then Swept(cfg, v[k]) else v[k]
        invariant !found ==> Looked(cfg, v, currentBitstream, i, next)
        invariant found ==> next == i < |v|
        invariant found ==> Choice(cfg, v, currentBitstream) == i == ScanEnd(cfg, v, currentBitstream)
        decreases |tasks| - i, !found
      {
        LookedHere(cfg, v, currentBitstream, i, next);
        found, next := Consider(tasks[i], i, next);
        if !found {
          i := i + 1;
        }
      }
      if !found {
        LookedEverywhere(cfg, v, currentBitstream, next);
      }
      assert Views() == Sweep(cfg, v, i);
    }

    /** The body of the scan: whether it settles on this task, and the task it will fall back to. */
    method Consider(task: CTask, i: nat, next: int) returns (found: bool, next': int)
      modifies task
      ensures var t := old(task.View());
              found <==> cfg.Runnable(t) && (!cfg.reorder || cfg.Matching(t, currentBitstream))
      ensures task.View() == if found then old(task.View()) else Swept(cfg, old(task.View()))
      ensures next' == if found || (cfg.Runnable(old(task.View())) && next == -1) then i else next
    {
      found, next' := false, next;
      if !task.isCompleted {
        if task.cthread == null || task.fid !in cfg.functions {
          task.SetFailed();
        } else if !cfg.reorder {
          found, next' := true, i;
        } else {
          if next' == -1 {
            next' := i;
          }
          if currentBitstream == cfg.functions[task.fid].bitstream {
            found, next' := true, i;
          }
        }
      }
    }

    /** Runs the task's function under the lock of its thread; the lock is released on either exit. */
    method Execute(task: CTask, idx: nat)
      requires cfg.Supported(task.View()) && task.cthread.Ready()
      modifies this`ran, task, task.cthread, task.cthread.vlock
      ensures task.View() == old(task.View()).Finish(cfg.Result(old(task.View())))
      ensures ran == old(ran) + [Execution(idx, currentBitstream)]
      ensures task.cthread.Ready() && task.cthread.vlock.holder == Free
    {
      var cthread := task.cthread;
      var acquired := cthread.Lock();
      ran := ran + [Execution(idx, currentBitstream)];
      var outcome := cfg.functions[task.fid].Run(task.args);
      cthread.Unlock();
      match outcome {
        case Returned(value) => task.SetResult(value);
        case Threw => task.SetFailed();
      }
    }

    /** The second half of a pass: load the bitstream of the chosen task if need be, then execute it. */
    method SettleTask(next: nat, reloadOk: bool)
      requires Valid() && next < |tasks| && cfg.Runnable(tasks[next].View()) && tasks[next].cthread.Ready()
      modifies this, tasks[next], tasks[next].cthread, tasks[next].cthread.vlock
      ensures Valid() && tasks == old(tasks)
      ensures View() == Settle(old(View()), next, reloadOk)
      ensures tasks[next].cthread.Ready()
      ensures |ran| > |old(ran)| ==> tasks[next].cthread.vlock.holder == Free
      ensures |ran| <= |old(ran)| ==> unchanged(tasks[next].cthread, tasks[next].cthread.vlock)
    {
      var task := tasks[next];
      var target := cfg.functions[task.fid].bitstream;
      if currentBitstream != target {
        if cfg.enPr && reloadOk {
          currentBitstream := target;
          loads := loads + [target];
        } else {
          task.SetFailed();
        }
      }
      if !task.isCompleted {
        Execute(task, next);
      }
      assert Views() == old(Views())[next := task.View()];
    }

    /** The same among the threads of all tasks. */
    method RunTask(next: nat, reloadOk: bool)
      requires Valid() && AllReady() && next < |tasks| && cfg.Runnable(tasks[next].View())
      modifies this, tasks, Threads(), Locks()
      ensures Valid() && tasks == old(tasks)
      ensures View() == Settle(old(View()), next, reloadOk)
      ensures AllReady()
      ensures forall t :: t in Threads() && t.lockAcquired ==> old(t.lockAcquired)
    {
      hide Settle;
      ghost var threads := Threads();
      var thread := tasks[next].cthread;
      assert thread in threads && thread.vlock in Locks() && thread.Ready();
      SettleTask(next, reloadOk);
      forall t | t in threads
        ensures t.Ready() && (t.lockAcquired ==> old(t.lockAcquired))
      {
        assert old(t.Ready());
      }
    }

    /** The task the scan settles on is still there to run after the sweep. */
    static lemma ChoiceRuns(s: Sched)
      ensures var c, end := Choice(s.cfg, s.tasks, s.current), ScanEnd(s.cfg, s.tasks, s.current);
              var swept := Sweep(s.cfg, s.tasks, end);
              c < |s.tasks| ==> s.cfg.Runnable(swept[c])
    {
    }

    /** One pass of the loop in schedule(); `reloadOk` is the outcome of a reconfiguration tried in it. */
    method Pass(reloadOk: bool)
      requires Valid() && AllReady()
      modifies this, tasks, Threads(), Locks()
      ensures Valid() && tasks == old(tasks)
      ensures View() == Iterate(old(View()), reloadOk)
      // No thread and no mutex is left locked by the pass, whether the function returned or threw.
      ensures AllReady()
      ensures forall t :: t in Threads() && t.lockAcquired ==> old(t.lockAcquired)
    {
      hide Settle, Sweep, ScanEnd, Choice;
      ghost var was := View();
      var next := Select();
      ChoiceRuns(was);
      assert View() == was.(tasks := Views());
      if next != -1 {
        RunTask(next, reloadOk);
      }
    }

    /** schedule(): passes until the scheduler is stopped; one entry of `reloads` per pass. */
    method Schedule(reloads: seq<bool>)
      requires Valid() && AllReady()
      modifies this, tasks, Threads(), Locks()
      ensures Valid() && AllReady() && tasks == old(tasks)
      ensures View() == Run(old(View()), Passes(reloads))
    {
      hide Iterate;
      var i := 0;
      while i < |reloads|
        invariant 0 <= i <= |reloads| && Valid() && AllReady() && tasks == old(tasks)
        invariant View() == Run(old(View()), Passes(reloads[..i]))
      {
        Pass(reloads[i]);
        assert Passes(reloads[..i + 1]) == Passes(reloads[..i]) + [Event.Pass(reloads[i])];
        RunStep(old(View()), Passes(reloads[..i]), Event.Pass(reloads[i]));
        i := i + 1;
      }
      assert reloads[..i] == reloads;
    }
  }
}
