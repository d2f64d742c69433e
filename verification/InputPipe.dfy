/** Writing to the simulator (sim/unit_test/io_writer.py): one producer queues elements and finally sets
    the done event; the writer thread dequeues them and writes each into a buffered file over a pipe that
    does not block and may take only part. */
module InputPipe {
  import opened Bytes

  datatype Writer =
    | Top                                                  // at the head of the outer loop
    | Waiting                                              // inside the dequeue that gives up on the done event
    | Flushing(elem: seq<Byte>, written: nat, draining: bool)
    | Draining                                             // the done event was seen
    | Closing(drained: bool)                               // leaving the `with`: the file is being closed
    | Closed                                               // the last flush wrote everything
    | Failed                                               // the last flush would have blocked: the rest is lost
    | Aborted                                              // closed after the stop event

  /** `buffered` is what the file object has accepted and not yet written to the pipe. */
  datatype State = State(
    queue: seq<seq<Byte>>, done: bool, writer: Writer, buffered: seq<Byte>, piped: seq<Byte>, put: seq<seq<Byte>>)

  /** What can happen next, in any order the two threads allow. Accept(n) is a write of which the file object
      takes n bytes, whether the call returns n or reports it in its BlockingIOError. Flush(m) is the file object
      writing m bytes to the pipe, in a write or in a flush, which need not be all. Close(m) is the last flush. */
  datatype Step =
    | Put(elem: seq<Byte>) | Done | Look | Dequeue | GiveUp | Accept(n: nat) | Flush(m: nat) | Flushed | Drain
    | Stop | Close(m: nat)

  const START := State([], false, Top, [], [], [])

  function Next(s: State, step: Step): Option<State> {
    match step
    case Put(elem) => if s.done then None else Some(s.(queue := s.queue + [elem], put := s.put + [elem]))
    case Done => Some(s.(done := true))
    case Look => if s.writer.Top? then Some(s.(writer := if s.done then Draining else Waiting)) else None
    case Dequeue =>
      if s.writer.Waiting? && s.queue != [] then
        Some(s.(queue := s.queue[1..], writer := if s.queue[0] == [] then Top else Flushing(s.queue[0], 0, false)))
      else None
    case GiveUp => if s.writer.Waiting? && s.done then Some(s.(writer := Top)) else None
    case Accept(n) =>
      if s.writer.Flushing? && s.writer.written + n <= |s.writer.elem| then
        Some(s.(buffered := s.buffered + s.writer.elem[s.writer.written..s.writer.written + n],
                writer := s.writer.(written := s.writer.written + n)))
      else None
    case Flush(m) => if s.writer.Flushing? && m <= |s.buffered| then Some(ToPipe(s, m)) else None
    case Flushed =>
      if s.writer.Flushing? && s.writer.written == |s.writer.elem| then
        Some(s.(writer := if s.writer.draining then Draining else Top))
      else None
    case Drain =>
      if !s.writer.Draining? then None
      else if s.queue == [] then Some(s.(writer := Closing(true)))
      else Some(s.(queue := s.queue[1..], writer := Flushing(s.queue[0], 0, true)))
    case Stop => if Open(s.writer) then Some(s.(writer := Closing(false))) else None
    case Close(m) =>
      if s.writer.Closing? && m <= |s.buffered| then
        var end := if !s.writer.drained then Aborted else if m == |s.buffered| then Closed else Failed;
        Some(ToPipe(s, m).(buffered := [], writer := end))
      else None
  }

  predicate Open(w: Writer) {
    !w.Closing? && !w.Closed? && !w.Failed? && !w.Aborted?
  }

  function ToPipe(s: State, m: nat): State
    requires m <= |s.buffered|
  {
    s.(piped := s.piped + s.buffered[..m], buffered := s.buffered[m..])
  }

  function Run(s: State, steps: seq<Step>): Option<State>
    decreases |steps|
  {
    if steps == [] then Some(s)
    else
      var t := Next(s, steps[0]);
      if t.None? then None else Run(t.value, steps[1..])
  }

  /** The bytes of the current element that the file object has not taken. */
  function Rest(w: Writer): seq<Byte> {
    if w.Flushing? && w.written <= |w.elem| then w.elem[w.written..] else []
  }

  /** All bytes of the queued elements, wherever they are now. */
  function Everywhere(s: State): seq<Byte> {
    s.piped + s.buffered + Rest(s.writer) + Flatten(s.queue)
  }

  /** The writer has not been told to stop, and lost nothing yet. */
  predicate Whole(w: Writer) {
    Open(w) || (w.Closing? && w.drained) || w.Closed?
  }

  ghost predicate Inv(s: State) {
    && (s.writer.Flushing? ==> s.writer.written <= |s.writer.elem| && (s.writer.draining ==> s.done))
    && (s.writer.Draining? ==> s.done)
    && (s.writer == Closing(true) || s.writer.Closed? || s.writer.Failed? ==> s.done && s.queue == [])
    && (s.writer.Closed? || s.writer.Failed? || s.writer.Aborted? ==> s.buffered == [])
    && (Whole(s.writer) ==> Everywhere(s) == Flatten(s.put))
    && (s.writer.Failed? ==> s.piped < Flatten(s.put))
    && s.piped + s.buffered <= Flatten(s.put)
  }

  lemma PutKeeps(s: State, elem: seq<Byte>)
    requires Inv(s) && !s.done
    ensures Inv(Next(s, Put(elem)).value)
  {
    FlattenConcat(s.queue, [elem]);
    FlattenConcat(s.put, [elem]);
    FlattenOne(elem);
    Regroup(s.piped + s.buffered + Rest(s.writer), Flatten(s.queue), elem);
  }

  lemma AcceptKeeps(s: State, n: nat)
    requires Inv(s) && Next(s, Accept(n)).Some?
    ensures Inv(Next(s, Accept(n)).value)
  {
    var w, t := s.writer, Next(s, Accept(n)).value;
    var taken := w.elem[w.written..w.written + n];
    assert Rest(w) == taken + Rest(t.writer);
    Regroup(s.piped + s.buffered, taken, Rest(t.writer));
    Regroup(s.piped, s.buffered, taken);
    assert Everywhere(t) == Everywhere(s);
    assert Everywhere(t) == (t.piped + t.buffered) + (Rest(t.writer) + Flatten(t.queue));
  }

  /** Writing to the pipe moves bytes from the buffer and no others. */
  lemma PipedKeeps(s: State, m: nat)
    requires m <= |s.buffered|
    ensures ToPipe(s, m).piped + ToPipe(s, m).buffered == s.piped + s.buffered
    ensures ToPipe(s, m).piped == (s.piped + s.buffered)[..|s.piped| + m]
  {
    assert s.buffered == s.buffered[..m] + s.buffered[m..];
    Regroup(s.piped, s.buffered[..m], s.buffered[m..]);
  }

  lemma CloseKeeps(s: State, m: nat)
    requires Inv(s) && Next(s, Close(m)).Some?
    ensures Inv(Next(s, Close(m)).value)
    ensures s.writer.drained ==>
              (Next(s, Close(m)).value.piped == Flatten(s.put) <==> m == |s.buffered|)
  {
    var t, all := Next(s, Close(m)).value, s.piped + s.buffered;
    PipedKeeps(s, m);
    assert t.piped == all[..|s.piped| + m];
    assert t.piped + [] == t.piped && t.piped + [] + [] + Flatten([]) == t.piped;
    if s.writer.drained {
      assert Everywhere(s) == all + [] + Flatten([]) == all;
      assert all == Flatten(s.put);
    }
  }

  lemma DequeueKeeps(s: State, step: Step)
    requires Inv(s) && (step.Dequeue? || step.Drain?) && Next(s, step).Some?
    ensures Inv(Next(s, step).value)
  {
    if s.queue != [] {
      var t, front := Next(s, step).value, s.piped + s.buffered;
      assert s.queue[0][0..] == s.queue[0];
      assert front + [] + (s.queue[0] + Flatten(s.queue[1..])) == front + s.queue[0] + Flatten(s.queue[1..]);
      assert Everywhere(t) == Everywhere(s);
    }
  }

  lemma NextKeeps(s: State, step: Step)
    requires Inv(s) && Next(s, step).Some?
    ensures Inv(Next(s, step).value)
  {
    match step {
      case Put(elem) => PutKeeps(s, elem);
      case Accept(n) => AcceptKeeps(s, n);
      case Flush(m) => PipedKeeps(s, m);
      case Close(m) => CloseKeeps(s, m);
      case Dequeue => DequeueKeeps(s, step);
      case Drain => DequeueKeeps(s, step);
      case Stop =>
      case Done =>
      case Look =>
      case GiveUp =>
      case Flushed =>
    }
  }

  lemma StartKeeps()
    ensures Inv(START)
  {
    assert [] + [] + [] + Flatten([]) == Flatten([]);
  }

  lemma {:induction false} RunKeeps(s: State, steps: seq<Step>)
    requires Inv(s) && Run(s, steps).Some?
    ensures Inv(Run(s, steps).value)
    decreases |steps|
  {
    hide Inv, Next;
    if steps != [] {
      NextKeeps(s, steps[0]);
      RunKeeps(Next(s, steps[0]).value, steps[1..]);
    }
  }

  /** In every interleaving and for every pattern of partial writes and flushes: what is in the pipe, in the
      buffer, in the current element and in the queue is together what was queued, in order; the pipe always
      carries a prefix of it, all of it once the file has been closed, and less if the last flush would have
      blocked. */
  lemma PipeCarriesAll(steps: seq<Step>)
    requires Run(START, steps).Some?
    ensures var s := Run(START, steps).value;
            && s.piped <= Flatten(s.put)
            && (Whole(s.writer) ==> Everywhere(s) == Flatten(s.put))
            && (s.writer.Closed? ==> s.piped == Flatten(s.put))
            && (s.writer.Failed? ==> s.piped < Flatten(s.put))
  {
    StartKeeps();
    RunKeeps(START, steps);
    var s := Run(START, steps).value;
    if s.writer.Closed? {
      assert s.piped + [] + [] + Flatten([]) == s.piped;
    }
  }

  /** Closing after the queue was drained carries everything exactly when the pipe takes all that is left in the
      buffer. */
  lemma CloseCarriesAllIff(steps: seq<Step>, m: nat)
    requires Run(START, steps).Some? && Run(START, steps).value.writer == Closing(true)
    requires m <= |Run(START, steps).value.buffered|
    ensures var s := Run(START, steps).value; var t := Next(s, Close(m)).value;
            && (t.piped == Flatten(s.put) <==> m == |s.buffered|)
            && (t.writer.Closed? <==> m == |s.buffered|) && (t.writer.Failed? <==> m < |s.buffered|)
  {
    StartKeeps();
    RunKeeps(START, steps);
    CloseKeeps(Run(START, steps).value, m);
  }

  /** Whatever is in the buffer when the queue is empty is lost if the last flush finds the pipe full. */
  lemma LostAtClose(s: State)
    requires s.writer.Top? && !s.done && s.queue == [] && s.buffered != []
    ensures Run(s, [Done, Look, Drain, Close(0)]) == Some(s.(done := true, writer := Failed, buffered := []))
  {
    var a, t := s.(done := true), s.(done := true, writer := Failed, buffered := []);
    var b, c := a.(writer := Draining), a.(writer := Closing(true));
    assert s.piped + s.buffered[..0] == s.piped;
    assert Next(s, Done) == Some(a) && Next(a, Look) == Some(b);
    assert Next(b, Drain) == Some(c) && Next(c, Close(0)) == Some(t);
    hide Next;
    After(c, Close(0), [], t);
    After(b, Drain, [Close(0)], c);
    After(a, Look, [Drain, Close(0)], b);
    After(s, Done, [Look, Drain, Close(0)], a);
    assert [Close(0)] + [] == [Close(0)] && [Drain] + [Close(0)] == [Drain, Close(0)];
    assert [Look] + [Drain, Close(0)] == [Look, Drain, Close(0)];
    assert [Done] + [Look, Drain, Close(0)] == [Done, Look, Drain, Close(0)];
    hide Run;
  }

  /** The file object accepts an element; the flush after the write and the one in the close find the pipe full. */
  function LossyRun(elem: seq<Byte>): seq<Step> {
    var rest := [Flush(0)] + ([Flushed] + [Done, Look, Drain, Close(0)]);
    [Put(elem)] + ([Look] + ([Dequeue] + ([Accept(|elem|)] + rest)))
  }

  /** A run that loses any one element, although everything was counted as written. */
  lemma ElementLost(elem: seq<Byte>)
    requires elem != []
    ensures var s := Run(START, LossyRun(elem));
            && s.Some? && s.value.writer.Failed? && s.value.put == [elem]
            && s.value.piped == [] && Flatten(s.value.put) != []
  {
    var queued := State([elem], false, Top, [], [], [elem]);
    var taken := State([], false, Flushing(elem, 0, false), [], [], [elem]);
    var held := State([], false, Flushing(elem, |elem|, false), elem, [], [elem]);
    assert [] + [elem] == [elem] && [elem][1..] == [] && elem[0..|elem|] == elem;
    assert [] + elem == elem && elem[..0] == [] && elem[0..] == elem && [] + elem[..0] == [];
    assert Next(START, Put(elem)) == Some(queued) && Next(queued, Look) == Some(queued.(writer := Waiting));
    assert Next(queued.(writer := Waiting), Dequeue) == Some(taken) && Next(taken, Accept(|elem|)) == Some(held);
    assert Next(held, Flush(0)) == Some(held) && Next(held, Flushed) == Some(held.(writer := Top));
    LostAtClose(held.(writer := Top));
    hide Next, Run;
    var r6 := [Done, Look, Drain, Close(0)];
    var r5 := [Flushed] + r6;
    var r4 := [Flush(0)] + r5;
    var r3 := [Accept(|elem|)] + r4;
    After(held, Flushed, r6, held.(writer := Top));
    After(held, Flush(0), r5, held);
    After(taken, Accept(|elem|), r4, held);
    After(queued.(writer := Waiting), Dequeue, r3, taken);
    After(queued, Look, [Dequeue] + r3, queued.(writer := Waiting));
    After(START, Put(elem), [Look] + ([Dequeue] + r3), queued);
    FlattenOne(elem);
  }

  lemma After(s: State, step: Step, rest: seq<Step>, t: State)
    requires Next(s, step) == Some(t)
    ensures Run(s, [step] + rest) == Run(t, rest)
  {
    assert ([step] + rest)[1..] == rest;
  }

  // ---------------------------------------------------------------- the stop event and the end of the queue

  /** At any time before the file is closed the writer can be stopped. Whatever happens then, the rest of the current
      element and the queue are abandoned: the pipe gets at most what is in the buffer. */
  lemma StopAbandons(s: State, steps: seq<Step>)
    requires Open(s.writer)
    ensures Next(s, Stop).Some?
    ensures Run(s, [Stop] + steps).Some? ==>
              var t := Run(s, [Stop] + steps).value;
              && (t.writer == Closing(false) || t.writer.Aborted?)
              && s.piped <= t.piped <= s.piped + s.buffered
  {
    var stopped := Next(s, Stop).value;
    assert stopped.writer == Closing(false);
    After(s, Stop, steps, stopped);
    if Run(stopped, steps).Some? { StaysStopped(stopped, steps); }
  }

  lemma {:induction false} StaysStopped(s: State, steps: seq<Step>)
    requires (s.writer == Closing(false) || s.writer.Aborted?) && Run(s, steps).Some?
    ensures var t := Run(s, steps).value;
            && (t.writer == Closing(false) || t.writer.Aborted?)
            && s.piped <= t.piped <= s.piped + s.buffered
            && (s.writer.Aborted? ==> t.piped == s.piped && t.writer.Aborted?)
    decreases |steps|
  {
    if steps != [] {
      var t := Next(s, steps[0]).value;
      StaysStopped(t, steps[1..]);
    }
  }

  /** The writer has seen the done event. */
  predicate Ending(w: Writer) {
    w.Draining? || (w.Flushing? && w.draining) || !Open(w)
  }

  /** Once the writer drains the queue it never waits again. */
  lemma {:induction false} DrainsToTheEnd(s: State, steps: seq<Step>)
    requires Ending(s.writer) && Run(s, steps).Some?
    ensures Ending(Run(s, steps).value.writer)
    decreases |steps|
  {
    if steps != [] { DrainsToTheEnd(Next(s, steps[0]).value, steps[1..]); }
  }

  // ---------------------------------------------------------------- the writer alone can always finish

  function Stage(w: Writer): nat {
    match w
    case Waiting => 5
    case Flushing(_, _, _) => 6
    case Top => 4
    case Draining => 3
    case Closing(_) => 2
    case _ => 0
  }

  /** What the writer does next, when the done event is set and the file object and the pipe take what is offered. */
  function Forward(s: State): Step
    requires !s.writer.Closed? && !s.writer.Failed? && !s.writer.Aborted?
    requires s.writer.Flushing? ==> s.writer.written <= |s.writer.elem|
  {
    match s.writer
    case Top => Look
    case Waiting => GiveUp
    case Flushing(elem, written, _) =>
      if written < |elem| then Accept(|elem| - written)
      else if s.buffered != [] then Flush(|s.buffered|)
      else Flushed
    case Draining => Drain
    case Closing(_) => Close(|s.buffered|)
  }

  lemma {:induction false} ClosesFrom(s: State) returns (steps: seq<Step>)
    requires Inv(s) && s.done && Whole(s.writer)
    ensures Run(s, steps).Some?
    ensures var t := Run(s, steps).value; t.writer.Closed? && t.put == s.put && t.piped == Flatten(s.put)
    decreases |s.queue|, Stage(s.writer), |Rest(s.writer)|, |s.buffered|
  {
    if s.writer.Closed? {
      steps := [];
      assert s.piped + [] + [] + Flatten([]) == s.piped;
    } else {
      var step := Forward(s);
      ForwardSteps(s);
      NextKeeps(s, step);
      hide Inv, Next, Flatten, Forward, Stage, Rest, Everywhere;
      var rest := ClosesFrom(Next(s, step).value);
      steps := [step] + rest;
      assert steps[1..] == rest;
    }
  }

  /** After the done event the writer is never stuck: however a run went, as long as the writer has not been told to
      stop and has lost nothing, steps of its own drain the queue and close the file, with every element in the pipe
      if the pipe then takes what is buffered. */
  lemma WriterCloses(run: seq<Step>) returns (more: seq<Step>)
    requires Run(START, run).Some? && Run(START, run).value.done && Whole(Run(START, run).value.writer)
    ensures Run(START, run + more).Some?
    ensures var s, t := Run(START, run).value, Run(START, run + more).value;
            t.writer.Closed? && t.put == s.put && t.piped == Flatten(s.put)
  {
    StartKeeps();
    RunKeeps(START, run);
    more := ClosesFrom(Run(START, run).value);
    RunAppend(START, run, more);
  }

  lemma {:induction false} RunAppend(s: State, a: seq<Step>, b: seq<Step>)
    requires Run(s, a).Some?
    ensures Run(s, a + b) == Run(Run(s, a).value, b)
    decreases |a|
  {
    if a == [] {
      assert a + b == b;
    } else {
      assert (a + b)[1..] == a[1..] + b;
      RunAppend(Next(s, a[0]).value, a[1..], b);
    }
  }

  /** The next step is possible, moves the writer on and leaves the producer's side alone. */
  lemma ForwardSteps(s: State)
    requires Inv(s) && s.done && Whole(s.writer) && !s.writer.Closed?
    ensures Next(s, Forward(s)).Some?
    ensures var t := Next(s, Forward(s)).value;
            && t.done && Whole(t.writer) && t.put == s.put && |t.queue| <= |s.queue|
            && (|t.queue| == |s.queue| ==> Stage(t.writer) <= Stage(s.writer))
            && (|t.queue| == |s.queue| && Stage(t.writer) == Stage(s.writer) ==>
                  || |Rest(t.writer)| < |Rest(s.writer)|
                  || (|Rest(t.writer)| == |Rest(s.writer)| && |t.buffered| < |s.buffered|))
  {
    hide Flatten;
  }
}
