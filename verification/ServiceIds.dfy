/** Server ids in every interleaving, whatever reads gave up: each id belongs to one request of one connection, and
    the check-then-insert of addTask never refuses a task, never files two tasks under one id and keeps the index
    equal to a search of the task list. */
module ServiceIds {
  import opened Bytes
  import opened Scheduling
  import opened Framing
  import opened Service
  import opened ServiceRequests

  predicate RequesterOk(q: Queue, k: nat, owner: Owners, index: map<int, nat>) {
    !q.requester.Reading? && !q.requester.Stopped? ==>
      q.requester.stid in owner && owner[q.requester.stid] == Owner(k, q.requester.req) && q.requester.stid !in index
  }

  predicate PairOk(p: Pair, k: nat, owner: Owners) {
    p.stid in owner && owner[p.stid].conn == k && owner[p.stid].req.tid == p.ctid
  }

  predicate PairsOk(ps: seq<Pair>, k: nat, owner: Owners) {
    forall i :: 0 <= i < |ps| ==> PairOk(ps[i], k, owner)
  }

  predicate IdsOk(q: Queue, k: nat, owner: Owners, index: map<int, nat>) {
    RequesterOk(q, k, owner, index) && PairsOk(q.pairs, k, owner) && PairsOk(q.answered, k, owner)
  }

  /** What an id was drawn for is a request for a known function and, unless a read of an argument gave up on
      the connection, one the client made there. */
  predicate AskedOf(functions: Functions, conns: seq<Conn>, o: Owner) {
    && o.conn < |conns| && o.req.fid in functions
    && (!conns[o.conn].u.gaveUp ==> o.req.tid in conns[o.conn].u.asked && conns[o.conn].u.asked[o.req.tid] == o.req)
  }

  ghost predicate OwnersAsked(functions: Functions, conns: seq<Conn>, owner: Owners) {
    forall stid :: stid in owner ==> AskedOf(functions, conns, owner[stid])
  }

  /** A task is the one made for the request its id was drawn for. */
  predicate TaskOwned(t: Task, functions: Functions, owner: Owners) {
    && t.tid in owner && owner[t.tid].req.fid in functions
    && t.SameRequest(TaskFor(functions, owner[t.tid].conn, owner[t.tid].req, t.tid))
  }

  predicate TasksOwned(sched: Sched, owner: Owners) {
    forall i :: 0 <= i < |sched.tasks| ==> TaskOwned(sched.tasks[i], sched.cfg.functions, owner)
  }

  predicate DistinctTids(tasks: seq<Task>) {
    forall i, j :: 0 <= i < j < |tasks| ==> tasks[i].tid != tasks[j].tid
  }

  ghost predicate SchedIds(sched: Sched, owner: Owners) {
    IndexAgrees(sched) && DistinctTids(sched.tasks) && TasksOwned(sched, owner)
  }

  ghost predicate IdsInv(s: State) {
    && CounterOk(s.draws, s.owner) && OwnersAsked(s.sched.cfg.functions, s.conns, s.owner) && SchedIds(s.sched, s.owner)
    && forall k :: 0 <= k < |s.conns| ==> IdsOk(s.conns[k].q, k, s.owner, s.sched.index)
  }

  /** An id that was never drawn is in no task. */
  lemma UndrawnIsUnused(sched: Sched, owner: Owners, stid: int)
    requires SchedIds(sched, owner) && stid !in owner
    ensures stid !in sched.index
  {
    IndexLookup(sched, stid);
  }

  // ---------------------------------------------------------------- the parts of a step

  predicate OwnerGrows(owner: Owners, owner': Owners) {
    forall stid :: stid in owner ==> stid in owner' && owner'[stid] == owner[stid]
  }

  predicate AskedGrows(conns: seq<Conn>, conns': seq<Conn>) {
    && |conns'| == |conns|
    && (forall k, tid :: 0 <= k < |conns| && tid in conns[k].u.asked ==>
          tid in conns'[k].u.asked && conns'[k].u.asked[tid] == conns[k].u.asked[tid])
    && (forall k :: 0 <= k < |conns| && conns[k].u.gaveUp ==> conns'[k].u.gaveUp)
  }

  lemma NextAsked(s: State, step: Step)
    requires !step.SchedulerPass? && step.k < |s.conns| && UpOk(s.sched.cfg.functions, s.conns[step.k].u)
    ensures forall tid :: tid in s.conns[step.k].u.asked ==>
              tid in NextUp(s, step).asked && NextUp(s, step).asked[tid] == s.conns[step.k].u.asked[tid]
    ensures s.conns[step.k].u.gaveUp ==> NextUp(s, step).gaveUp
  {
    var u := s.conns[step.k].u;
    if step.Begin? && u.counter < TWO_TO_32 { assert Wrap32(u.counter) !in u.asked; }
  }

  lemma AskedSet(conns: seq<Conn>, k: nat, c: Conn)
    requires k < |conns| && (conns[k].u.gaveUp ==> c.u.gaveUp)
    requires forall tid :: tid in conns[k].u.asked ==> tid in c.u.asked && c.u.asked[tid] == conns[k].u.asked[tid]
    ensures AskedGrows(conns, conns[k := c])
  {
  }

  lemma AskedStep(s: State, step: Step)
    requires RequestsInv(s)
    ensures AskedGrows(s.conns, Apply(s, step).conns)
  {
    hide NextUp, NextQueue, NextDown, NextSched, NextOwner, UpOk;
    if !step.SchedulerPass? && step.k < |s.conns| {
      NextAsked(s, step);
      AskedSet(s.conns, step.k, Conn(NextUp(s, step), NextQueue(s, step), NextDown(s, step)));
      hide AskedGrows;
    }
  }

  lemma DrawnRequest(s: State, k: nat)
    requires RequestsInv(s) && CanDraw(s, k)
    ensures AskedOf(s.sched.cfg.functions, s.conns, Owner(k, Decoded(s.conns[k].u.got)))
  {
    var u, fs := s.conns[k].u, s.sched.cfg.functions;
    assert UpOk(fs, u);
    if !u.gaveUp {
      WholeIsFront(fs, u);
      assert u.asked[u.inflight[0].tid] == u.inflight[0];
    }
  }

  lemma OwnerStep(s: State, step: Step)
    requires RequestsInv(s) && CounterOk(s.draws, s.owner) && OwnersAsked(s.sched.cfg.functions, s.conns, s.owner)
    ensures var s' := Apply(s, step);
            && OwnerGrows(s.owner, s'.owner) && CounterOk(s'.draws, s'.owner)
            && OwnersAsked(s.sched.cfg.functions, s'.conns, s'.owner)
  {
    AskedStep(s, step);
    SameConfig(s, step);
    var s' := Apply(s, step);
    if step.Draw? && CanDraw(s, step.k) {
      CounterKeeps(s.draws, s.owner, Owner(step.k, Decoded(s.conns[step.k].u.got)));
      DrawnRequest(s, step.k);
    }
    forall stid | stid in s'.owner
      ensures AskedOf(s.sched.cfg.functions, s'.conns, s'.owner[stid])
    {
      assert AskedOf(s.sched.cfg.functions, s.conns, s'.owner[stid]);
    }
  }

  lemma SchedIdsStep(s: State, step: Step)
    requires RequestsInv(s) && IdsInv(s)
    ensures SchedIds(NextSched(s, step), Apply(s, step).owner)
  {
    OwnerStep(s, step);
    var s' := Apply(s, step);
    if step.SchedulerPass? {
      PassEffect(s.sched, step.reloadOk);
      PassKeepsIndex(s.sched, step.reloadOk);
      ShapeKeepsIds(s.sched, s'.sched, Choice(s.sched.cfg, s.sched.tasks, s.sched.current), step.reloadOk, s.owner);
    } else if step.Enqueue? && CanEnqueue(s, step.k) {
      EnqueueKeepsIds(s, step.k);
    } else {
      assert forall i :: 0 <= i < |s.sched.tasks| ==> TaskOwned(s.sched.tasks[i], s.sched.cfg.functions, s.owner);
    }
  }

  lemma ShapeKeepsIds(a: Sched, b: Sched, c: nat, ok: bool, owner: Owners)
    requires PassShape(a, b, c, ok) && DistinctTids(a.tasks) && TasksOwned(a, owner)
    ensures DistinctTids(b.tasks) && TasksOwned(b, owner)
  {
    forall i | 0 <= i < |b.tasks|
      ensures b.tasks[i].SameRequest(a.tasks[i]) && TaskOwned(b.tasks[i], b.cfg.functions, owner)
    {
      assert TaskOwned(a.tasks[i], a.cfg.functions, owner);
    }
  }

  lemma EnqueueKeepsIds(s: State, k: nat)
    requires RequestsInv(s) && IdsInv(s) && CanEnqueue(s, k)
    ensures SchedIds(NextSched(s, Enqueue(k)), s.owner)
  {
    var r := s.conns[k].q.requester;
    var t := TaskFor(s.sched.cfg.functions, k, r.req, r.stid);
    InsertKeepsIndex(s.sched, t);
    assert IdsOk(s.conns[k].q, k, s.owner, s.sched.index);
    IndexLookup(s.sched, t.tid);
    assert TaskOwned(t, s.sched.cfg.functions, s.owner);
  }

  lemma IdsGrow(q: Queue, k: nat, owner: Owners, owner': Owners, index: map<int, nat>)
    requires IdsOk(q, k, owner, index) && OwnerGrows(owner, owner')
    ensures IdsOk(q, k, owner', index)
  {
    PairsGrow(q.pairs, k, owner, owner');
    PairsGrow(q.answered, k, owner, owner');
  }

  lemma PairsGrow(ps: seq<Pair>, k: nat, owner: Owners, owner': Owners)
    requires PairsOk(ps, k, owner) && OwnerGrows(owner, owner')
    ensures PairsOk(ps, k, owner')
  {
    forall i | 0 <= i < |ps|
      ensures PairOk(ps[i], k, owner')
    {
      assert PairOk(ps[i], k, owner);
    }
  }

  lemma ScanKeepsIds(q: Queue, q': Queue, k: nat, owner: Owners, index: map<int, nat>)
    requires IdsOk(q, k, owner, index) && q'.requester == q.requester
    requires q'.pairs == q.pairs || (q.responder.HeaderSent? && q'.pairs == Without(q.pairs, q.responder.i))
    requires q'.answered == q.answered || (AtFound(q) && q'.answered == q.answered + [q.pairs[q.responder.i]])
    ensures IdsOk(q', k, owner, index)
  {
    var left := Without(q.pairs, if q.responder.HeaderSent? then q.responder.i else |q.pairs|);
    forall j | 0 <= j < |left|
      ensures PairOk(left[j], k, owner)
    {
      assert left[j] == q.pairs[j] || left[j] == q.pairs[j + 1];
    }
  }

  lemma PushKeepsIds(q: Queue, k: nat, owner: Owners, index: map<int, nat>)
    requires IdsOk(q, k, owner, index) && q.requester.Drawn?
    ensures IdsOk(Push(q), k, owner, index)
  {
  }

  lemma QueueStep(s: State, step: Step)
    requires RequestsInv(s) && IdsInv(s) && !step.SchedulerPass? && step.k < |s.conns|
    ensures IdsOk(NextQueue(s, step), step.k, NextOwner(s, step), NextSched(s, step).index)
  {
    hide UpOk, SchedIds, AskedOf, Admissible, IsTaskCompleted, GetTask, HasWhole, Decoded;
    var q := s.conns[step.k].q;
    assert IdsOk(q, step.k, s.owner, s.sched.index);
    if step.Draw? && CanDraw(s, step.k) {
      assert Wrap32(s.draws) !in s.owner;
      UndrawnIsUnused(s.sched, s.owner, Wrap32(s.draws));
      IdsGrow(q, step.k, s.owner, NextOwner(s, step), s.sched.index);
    } else if step.PushPair? && q.requester.Drawn? {
      PushKeepsIds(q, step.k, s.owner, s.sched.index);
    } else if step.StartScan? || step.LookAt? || step.SendHeader? || step.SendValue? || step.EndScan? {
      ScanKeepsIds(q, NextQueue(s, step), step.k, s.owner, s.sched.index);
    }
  }

  /** The index gains at most an id of the connection that takes the step. */
  lemma OtherQueues(s: State, step: Step, j: nat)
    requires IdsInv(s) && j < |s.conns| && (step.SchedulerPass? || step.k != j)
    requires OwnerGrows(s.owner, Apply(s, step).owner)
    ensures IdsOk(s.conns[j].q, j, Apply(s, step).owner, Apply(s, step).sched.index)
  {
    assert IdsOk(s.conns[j].q, j, s.owner, s.sched.index);
    if step.SchedulerPass? {
      PassEffect(s.sched, step.reloadOk);
    } else if step.Enqueue? && CanEnqueue(s, step.k) {
      assert IdsOk(s.conns[step.k].q, step.k, s.owner, s.sched.index);
    }
  }

  lemma IdsStep(s: State, step: Step)
    requires RequestsInv(s) && IdsInv(s)
    ensures IdsInv(Apply(s, step))
  {
    hide UpOk, IdsOk, SchedIds, AskedOf, NextUp, NextQueue, NextDown, NextSched, NextOwner;
    SameConfig(s, step);
    OwnerStep(s, step);
    SchedIdsStep(s, step);
    var s' := Apply(s, step);
    forall j: nat | j < |s'.conns|
      ensures IdsOk(s'.conns[j].q, j, s'.owner, s'.sched.index)
    {
      if !step.SchedulerPass? && step.k == j { QueueStep(s, step); } else { OtherQueues(s, step, j); }
    }
  }

  lemma IdsInitially(s: State)
    requires Initial(s)
    ensures IdsInv(s)
  {
    hide WellTyped, UpOk;
  }

  lemma {:induction false} IdsAlways(s: State, steps: seq<Step>)
    requires Initial(s)
    ensures RequestsInv(RunSteps(s, steps)) && IdsInv(RunSteps(s, steps))
  {
    hide RequestsInv, IdsInv, Apply, Initial;
    RequestsAlways(s, steps);
    if steps == [] {
      IdsInitially(s);
    } else {
      var p := steps[..|steps| - 1];
      IdsAlways(s, p);
      IdsStep(RunSteps(s, p), steps[|steps| - 1]);
    }
  }

  lemma PairedIsAdmissible(s: State, k: nat)
    requires RequestsInv(s) && IdsInv(s) && k < |s.conns| && s.conns[k].q.requester.Paired?
    ensures Admissible(s.sched, k, s.conns[k].q)
  {
    var q := s.conns[k].q;
    assert IdsOk(q, k, s.owner, s.sched.index);
    assert AskedOf(s.sched.cfg.functions, s.conns, s.owner[q.requester.stid]);
  }

  /** In every reachable state the index is a linear search of the task list and no two tasks share an
      id, although ids are drawn, checked and inserted by several threads at once; so the service's
      error path for a task the scheduler refuses is never taken. */
  lemma IndexUnderConcurrency(s: State, steps: seq<Step>)
    requires Initial(s)
    ensures var r := RunSteps(s, steps);
            && IndexAgrees(r.sched) && DistinctTids(r.sched.tasks)
            && (forall k :: 0 <= k < |r.conns| && r.conns[k].q.requester.Paired? ==>
                  Admissible(r.sched, k, r.conns[k].q))
  {
    IdsAlways(s, steps);
    var r := RunSteps(s, steps);
    forall k: nat | k < |r.conns| && r.conns[k].q.requester.Paired?
      ensures Admissible(r.sched, k, r.conns[k].q)
    {
      PairedIsAdmissible(r, k);
    }
  }
}
