/** cThread::postCmd (sw/src/cThread.cpp) keeps the command FIFO of a virtual FPGA from filling up: each
    thread counts its own commands and reads the real occupancy back only when its count is high. */
module Throttle {
  import opened Bytes

  const CMD_FIFO_DEPTH := 32
  const CMD_FIFO_THR := 10
  const LIMIT := CMD_FIFO_DEPTH - CMD_FIFO_THR

  /** One thread in postCmd: its counter, and whether it has written a command it has not counted yet. */
  datatype Thread = Thread(count: nat, wrote: bool)

  /** The threads that share the FIFO, and the number of commands in it. */
  datatype State = State(threads: seq<Thread>, queued: nat)

  datatype Step =
    | Reread(i: nat)   // the counter is high: load CTRL_REG into it
    | Write(i: nat)    // the counter is low enough: write the command
    | Count(i: nat)    // increment the counter
    | Drain            // the hardware takes a command

  function Start(k: nat): State {
    State(seq(k, _ => Thread(0, false)), 0)
  }

  function Next(s: State, step: Step): Option<State> {
    match step
    case Reread(i) =>
      if i < |s.threads| && !s.threads[i].wrote && s.threads[i].count > LIMIT then
        Some(s.(threads := s.threads[i := Thread(s.queued, false)]))
      else None
    case Write(i) =>
      if i < |s.threads| && !s.threads[i].wrote && s.threads[i].count <= LIMIT then
        Some(State(s.threads[i := s.threads[i].(wrote := true)], s.queued + 1))
      else None
    case Count(i) =>
      if i < |s.threads| && s.threads[i].wrote then
        Some(s.(threads := s.threads[i := Thread(s.threads[i].count + 1, false)]))
      else None
    case Drain => if s.queued > 0 then Some(s.(queued := s.queued - 1)) else None
  }

  function Run(s: State, steps: seq<Step>): Option<State>
    decreases |steps|
  {
    if steps == [] then Some(s)
    else
      var t := Next(s, steps[0]);
      if t.None? then None else Run(t.value, steps[1..])
  }

  /** A thread has one step to take at any time. */
  lemma OneStepEach(s: State, i: nat)
    requires i < |s.threads|
    ensures Next(s, Count(i)).Some? <==> s.threads[i].wrote
    ensures Next(s, Count(i)).Some? || (Next(s, Reread(i)).Some? <==> Next(s, Write(i)).None?)
    ensures Next(s, Count(i)).Some? ==> Next(s, Reread(i)).None? && Next(s, Write(i)).None?
  {
  }

  /** A thread that its counter has stopped cannot post. It can after reading the occupancy back exactly if enough
      commands have been drained meanwhile. */
  lemma {:induction false} StoppedUntilDrained(s: State, i: nat, n: nat)
    requires i < |s.threads| && !s.threads[i].wrote && s.threads[i].count > LIMIT && n <= s.queued
    ensures Next(s, Write(i)).None?
    ensures Run(s, Drains(n) + [Reread(i), Write(i)]).Some? <==> s.queued - n <= LIMIT
    decreases n
  {
    var steps := Drains(n) + [Reread(i), Write(i)];
    if n == 0 {
      assert steps == [Reread(i), Write(i)] && steps[1..] == [Write(i)] && [Write(i)][1..] == [];
      var t := Next(s, Reread(i)).value;
      assert t.threads[i] == Thread(s.queued, false);
      assert Run(t, [Write(i)]).Some? <==> Next(t, Write(i)).Some?;
    } else {
      assert steps[1..] == Drains(n - 1) + [Reread(i), Write(i)];
      StoppedUntilDrained(Next(s, Drain).value, i, n - 1);
    }
  }

  function Drains(n: nat): (steps: seq<Step>)
    ensures |steps| == n && forall i :: 0 <= i < n ==> steps[i] == Drain
  {
    seq(n, _ => Drain)
  }

  /** The commands of the FIFO a thread accounts for. */
  function Share(t: Thread): (n: nat)
    ensures n <= LIMIT + 1
  {
    var n := if t.wrote then t.count + 1 else t.count;
    if n <= LIMIT + 1 then n else LIMIT + 1
  }

  function Shares(ts: seq<Thread>): (n: nat) {
    if ts == [] then 0 else Share(ts[0]) + Shares(ts[1..])
  }

  lemma {:induction false} SharesUpdate(ts: seq<Thread>, i: nat, t: Thread)
    requires i < |ts|
    ensures Shares(ts[i := t]) == Shares(ts) - Share(ts[i]) + Share(t)
    decreases |ts|
  {
    var us := ts[i := t];
    if i == 0 {
      assert us[1..] == ts[1..];
    } else {
      assert us[1..] == ts[1..][i - 1 := t];
      SharesUpdate(ts[1..], i - 1, t);
    }
  }

  lemma {:induction false} SharesBounds(ts: seq<Thread>, i: nat)
    ensures Shares(ts) <= (LIMIT + 1) * |ts|
    ensures i < |ts| ==> Share(ts[i]) <= Shares(ts)
    decreases |ts|
  {
    if ts != [] {
      SharesBounds(ts[1..], if i == 0 then 0 else i - 1);
    }
  }

  /** Every queued command is in some thread's share, and a thread that wrote had room to. */
  ghost predicate Inv(s: State) {
    && s.queued <= Shares(s.threads)
    && forall i :: 0 <= i < |s.threads| && s.threads[i].wrote ==> s.threads[i].count <= LIMIT
  }

  lemma NextKeeps(s: State, step: Step)
    requires Inv(s) && Next(s, step).Some?
    ensures Inv(Next(s, step).value) && |Next(s, step).value.threads| == |s.threads|
  {
    var t := Next(s, step).value;
    if !step.Drain? {
      SharesUpdate(s.threads, step.i, t.threads[step.i]);
      SharesBounds(s.threads, step.i);
    }
  }

  lemma {:induction false} RunKeeps(s: State, steps: seq<Step>)
    requires Inv(s) && Run(s, steps).Some?
    ensures Inv(Run(s, steps).value) && |Run(s, steps).value.threads| == |s.threads|
    decreases |steps|
  {
    if steps != [] {
      NextKeeps(s, steps[0]);
      RunKeeps(Next(s, steps[0]).value, steps[1..]);
    }
  }

  /** With k threads, no run ever has more than k times 23 commands in the FIFO. */
  lemma QueuedBound(k: nat, steps: seq<Step>)
    requires Run(Start(k), steps).Some?
    ensures Run(Start(k), steps).value.queued <= (LIMIT + 1) * k
  {
    RunKeeps(Start(k), steps);
    SharesBounds(Run(Start(k), steps).value.threads, 0);
  }

  // ---------------------------------------------------------------- the bound is reached

  lemma {:induction false} RunConcat(s: State, a: seq<Step>, b: seq<Step>)
    requires Run(s, a).Some?
    ensures Run(s, a + b) == Run(Run(s, a).value, b)
    decreases |a|
  {
    if a == [] {
      assert a + b == b;
    } else {
      assert (a + b)[1..] == a[1..] + b;
      RunConcat(Next(s, a[0]).value, a[1..], b);
    }
  }

  /** Thread i posts until its counter stops it, while nothing is drained. */
  lemma {:induction false} Fill(s: State, i: nat) returns (steps: seq<Step>)
    requires i < |s.threads| && !s.threads[i].wrote && s.threads[i].count <= LIMIT + 1
    ensures var threads := s.threads[i := Thread(LIMIT + 1, false)];
            Run(s, steps) == Some(State(threads, s.queued + LIMIT + 1 - s.threads[i].count))
    decreases LIMIT + 1 - s.threads[i].count
  {
    if s.threads[i].count == LIMIT + 1 {
      steps := [];
      assert s.threads[i := Thread(LIMIT + 1, false)] == s.threads;
    } else {
      var t := Next(s, Write(i)).value;
      var u := Next(t, Count(i)).value;
      assert u.threads == s.threads[i := Thread(s.threads[i].count + 1, false)];
      var rest := Fill(u, i);
      assert u.threads[i := Thread(LIMIT + 1, false)] == s.threads[i := Thread(LIMIT + 1, false)];
      steps := [Write(i), Count(i)] + rest;
      assert steps[1..] == [Count(i)] + rest && steps[1..][1..] == rest;
    }
  }

  /** The first `done` of k threads have posted until their counters stopped them. */
  function Filled(k: nat, done: nat): (threads: seq<Thread>)
    ensures |threads| == k && forall i :: 0 <= i < k ==> threads[i] == Thread(if i < done then LIMIT + 1 else 0, false)
  {
    seq(k, i => Thread(if i < done then LIMIT + 1 else 0, false))
  }

  lemma {:induction false} FillAll(k: nat, done: nat) returns (steps: seq<Step>)
    requires done <= k
    ensures Run(Start(k), steps) == Some(State(Filled(k, done), (LIMIT + 1) * done))
    decreases done
  {
    if done == 0 {
      steps := [];
      assert Start(k).threads == Filled(k, 0);
    } else {
      var a := FillAll(k, done - 1);
      var s := Run(Start(k), a).value;
      var b := Fill(s, done - 1);
      RunConcat(Start(k), a, b);
      steps := a + b;
      assert s.threads[done - 1 := Thread(LIMIT + 1, false)] == Filled(k, done);
    }
  }

  /** The bound is exact, so the throttle protects the FIFO exactly when one thread uses it. */
  lemma ProtectsExactlyOne(k: nat)
    ensures exists steps :: Run(Start(k), steps).Some? && Run(Start(k), steps).value.queued == (LIMIT + 1) * k
    ensures (forall steps :: Run(Start(k), steps).Some? ==> Run(Start(k), steps).value.queued <= CMD_FIFO_DEPTH)
              <==> k <= 1
  {
    var full := FillAll(k, k);
    assert Run(Start(k), full).value.queued == (LIMIT + 1) * k;
    forall steps | Run(Start(k), steps).Some?
      ensures Run(Start(k), steps).value.queued <= (LIMIT + 1) * k
    {
      QueuedBound(k, steps);
    }
  }
}
