/** Reading what the simulator writes (sim/unit_test/io_writer.py): the reader collects exactly as many
    bytes as it asks for from a pipe that hands them out in pieces of its own choosing, until the stop
    event is set; the test goes on using the memory between the messages. */
module OutputPipe {
  import opened Bytes
  import opened SimMemory
  import opened SimMemoryObject

  /** The output pipe: the pieces in which it will hand out its bytes, and the number of reads after which the
      stop event is set. An empty piece is a read that returns nothing, as every read does after the last piece. */
  class Pipe {
    var pieces: seq<seq<Byte>>
    var patience: nat

    constructor (pieces: seq<seq<Byte>>, patience: nat)
      ensures this.pieces == pieces && this.patience == patience
    {
      this.pieces, this.patience := pieces, patience;
    }

    ghost function Stream(): seq<Byte>
      reads this
    {
      Flatten(pieces)
    }

    /** The stop event is not set before everything has been handed out and one more read has been tried. */
    ghost predicate Patient()
      reads this
    {
      patience > |Stream()| + |pieces|
    }

    /** output_file.read(n): at most n bytes, at most one piece. */
    method ReadSome(n: nat) returns (bytes: seq<Byte>)
      requires n > 0 && patience > 0
      modifies this
      ensures old(Stream()) == bytes + Stream() && |bytes| <= n && patience == old(patience) - 1
      ensures old(pieces) != [] ==> |Stream()| + |pieces| < |old(Stream())| + |old(pieces)|
    {
      patience := patience - 1;
      if pieces == [] {
        return [];
      }
      var piece, rest := pieces[0], pieces[1..];
      if |piece| <= n {
        bytes, pieces := piece, rest;
      } else {
        bytes, pieces := piece[..n], [piece[n..]] + rest;
        assert pieces[1..] == rest && piece == bytes + piece[n..];
        Regroup(bytes, piece[n..], Flatten(rest));
      }
    }

    /** _read_exactly_n_bytes_from_output_file: for every way the pipe splits its bytes the result is the first n
        of them, or None when the stop event is set, and it is not None if the event waits for the bytes. */
    method ReadExactly(n: int) returns (buffer: Option<seq<Byte>>)
      modifies this
      ensures buffer.Some? ==> old(Stream()) == buffer.value + Stream() && |buffer.value| == if n < 0 then 0 else n
      ensures buffer.None? <==> patience == 0
      ensures old(Patient()) && n <= |old(Stream())| ==> buffer.Some? && Patient()
      ensures n > |old(Stream())| && n > 0 ==> buffer.None?
    {
      var collected := [];
      ghost var all := Stream();
      assert [] + Stream() == all;
      while patience > 0 && |collected| < n
        invariant all == collected + Stream() && (|collected| <= n || collected == [])
        invariant old(Patient()) && n <= |all| ==> Patient()
        decreases patience
      {
        var bytes := ReadSome(n - |collected|);
        Regroup(collected, bytes, Stream());
        collected := collected + bytes;
      }
      buffer := if patience > 0 then Some(collected) else None;
    }
  }

  // ---------------------------------------------------------------- messages

  datatype Message =
    | CsrValue(value: int)
    | HostWrite(v: int, data: seq<Byte>)
    | Interrupt(pid: Byte, value: int)
    | CompletedCount(count: int)

  /** How the dispatch loop ends: with the stop event, or with an exception. */
  datatype End = Stopped | UnknownType(tag: Byte) | NotAllocated(v: int, length: int)

  /** What is at the front of a stream: a message that is not all there, a message the reader cannot
      accept, or a message and the number of bytes it takes. A host write of no bytes has no effect. */
  datatype Front = Stop(end: End) | Got(message: Option<Message>, size: nat)

  const GET_CSR := 0
  const HOST_WRITE := 1
  const IRQ := 2
  const CHECK_COMPLETED := 3

  function Header(tag: Byte): Option<nat> {
    if tag == GET_CSR then Some(8) else if tag == HOST_WRITE then Some(16)
    else if tag == IRQ then Some(5) else if tag == CHECK_COMPLETED then Some(4) else None
  }

  ghost function FrontOf(stream: seq<Byte>, flat: Flat): (r: Front)
    ensures r.Got? ==> 0 < r.size <= |stream|
  {
    if stream == [] then Stop(Stopped)
    else if Header(stream[0]).None? then Stop(UnknownType(stream[0]))
    else if |stream| - 1 < Header(stream[0]).value then Stop(Stopped)
    else AfterHeader(stream[0], stream[1..1 + Header(stream[0]).value], stream[1 + Header(stream[0]).value..], flat)
  }

  /** A host write: the memory is checked before the data is read, and no data has no effect. */
  ghost function HostWriteFront(flat: Flat, v: int, length: int, rest: seq<Byte>): (r: Front)
    ensures r.Got? ==> 17 <= r.size <= 17 + |rest|
  {
    if !Covered(flat, v, length) then Stop(NotAllocated(v, length))
    else if length <= 0 then Got(None, 17)
    else if |rest| < length then Stop(Stopped)
    else Got(Some(HostWrite(v, rest[..length])), 17 + length)
  }

  ghost function AfterHeader(tag: Byte, header: seq<Byte>, rest: seq<Byte>, flat: Flat): (r: Front)
    requires Header(tag) == Some(|header|)
    ensures r.Got? ==> 0 < r.size <= 1 + |header| + |rest|
  {
    if tag == GET_CSR then Got(Some(CsrValue(FromLe64(header))), 9)
    else if tag == IRQ then Got(Some(Interrupt(header[0], FromLe32(header[1..]))), 6)
    else if tag == CHECK_COMPLETED then Got(Some(CompletedCount(FromLe32(header))), 5)
    else HostWriteFront(flat, FromLe64(header[..8]), FromLe64(header[8..]), rest)
  }

  /** The data is in the memory from v on, and every other address is as before. */
  ghost predicate Written(before: Flat, v: int, data: seq<Byte>, after: Flat) {
    forall a :: after(a) == if v <= a < v + |data| then Some(data[a - v]) else before(a)
  }

  predicate IsHostWrite(front: Front) {
    front.Got? && front.message.Some? && front.message.value.HostWrite?
  }

  ghost function Effect(flat: Flat, m: Option<Message>): Flat {
    if m.Some? && m.value.HostWrite? then FlatWrite(flat, m.value.v, m.value.data) else flat
  }

  function Listed(m: Option<Message>): seq<Message> {
    if m.Some? then [m.value] else []
  }

  /** The messages handled, the memory afterwards and the way the loop ended. */
  datatype Log = Log(messages: seq<Message>, memory: FlatState, end: End)

  /** What the test does with the memory before each message is handled, message by message. */
  type Meanwhile = seq<seq<UpwardCall>>

  ghost function Before(st: FlatState, env: Meanwhile): FlatState {
    if env == [] then st else RunCalls(st, env[0])
  }

  function Later(env: Meanwhile): Meanwhile {
    if env == [] then [] else env[1..]
  }

  /** What the dispatch loop does with a stream of bytes, as a function of the bytes and of what the test does
      meanwhile. */
  ghost function Dispatch(stream: seq<Byte>, st: FlatState, env: Meanwhile): Log
    decreases |stream|
  {
    var now := Before(st, env);
    match FrontOf(stream, now.flat)
    case Stop(end) => Log([], now, end)
    case Got(m, size) =>
      var later := Dispatch(stream[size..], now.(flat := Effect(now.flat, m)), Later(env));
      later.(messages := Listed(m) + later.messages)
  }

  /** The same when the stop event ends the loop after at most n messages. */
  ghost function DispatchUpTo(stream: seq<Byte>, st: FlatState, env: Meanwhile, n: nat): Log
    decreases n
  {
    var now := Before(st, env);
    if n == 0 then Log([], now, Stopped)
    else
      match FrontOf(stream, now.flat)
      case Stop(end) => Log([], now, end)
      case Got(m, size) =>
        var later := DispatchUpTo(stream[size..], now.(flat := Effect(now.flat, m)), Later(env), n - 1);
        later.(messages := Listed(m) + later.messages)
  }

  /** Stopped early, the loop has handled the first messages of those it would have handled. */
  lemma {:induction false} UpToIsPrefix(stream: seq<Byte>, st: FlatState, env: Meanwhile, n: nat)
    ensures DispatchUpTo(stream, st, env, n).messages <= Dispatch(stream, st, env).messages
    ensures n > |stream| ==> DispatchUpTo(stream, st, env, n) == Dispatch(stream, st, env)
    decreases n
  {
    var now := Before(st, env);
    hide Before, FrontOf, Effect;
    if n > 0 && FrontOf(stream, now.flat).Got? {
      var front := FrontOf(stream, now.flat);
      UpToIsPrefix(stream[front.size..], now.(flat := Effect(now.flat, front.message)), Later(env), n - 1);
    }
  }

  // ---------------------------------------------------------------- the dispatch loop

  /** Reads one message: its type, its header and, for a host write, its data. */
  method ReadMessage(pipe: Pipe, memory: SimulationMemory) returns (front: Front)
    requires memory.Valid()
    modifies pipe, memory
    ensures memory.Valid() && memory.Top() == old(memory.Top())
    ensures front == FrontOf(old(pipe.Stream()), old(memory.flat)) || front == Stop(Stopped)
    ensures old(pipe.Patient()) ==>
              front == FrontOf(old(pipe.Stream()), old(memory.flat)) && (front.Got? ==> pipe.Patient())
    ensures front.Got? ==> pipe.Stream() == old(pipe.Stream())[front.size..]
    ensures memory.flat == if front.Got? then Effect(old(memory.flat), front.message) else old(memory.flat)
    ensures IsHostWrite(front) ==>
              Written(old(memory.flat), front.message.value.v, front.message.value.data, memory.flat)
    ensures !IsHostWrite(front) ==> memory.flat == old(memory.flat)
  {
    ghost var all := pipe.Stream();
    var byte := pipe.ReadExactly(1);
    if byte.None? {
      return Stop(Stopped);
    }
    var tag := byte.value[0];
    assert all[0] == tag && all[1..] == pipe.Stream();
    var size := Header(tag);
    if size.None? {
      return Stop(UnknownType(tag));
    }
    var header := pipe.ReadExactly(size.value);
    if header.None? {
      return Stop(Stopped);
    }
    Parts(all, header.value, pipe.Stream());
    if tag == GET_CSR {
      front := Got(Some(CsrValue(FromLe64(header.value))), 9);
    } else if tag == IRQ {
      front := Got(Some(Interrupt(header.value[0], FromLe32(header.value[1..]))), 6);
    } else if tag == CHECK_COMPLETED {
      front := Got(Some(CompletedCount(FromLe32(header.value))), 5);
    } else {
      front := ReadHostWrite(pipe, memory, FromLe64(header.value[..8]), FromLe64(header.value[8..]));
      assert front == AfterHeader(tag, header.value, all[17..], old(memory.flat)) || front == Stop(Stopped);
      assert front.Got? ==> all[front.size..] == all[17..][front.size - 17..];
    }
  }

  lemma Parts(all: seq<Byte>, header: seq<Byte>, rest: seq<Byte>)
    requires all != [] && all[1..] == header + rest
    ensures 1 + |header| <= |all| && all[1..1 + |header|] == header && all[1 + |header|..] == rest
  {
    assert forall k :: 0 <= k < |header + rest| ==> all[1 + k] == (header + rest)[k];
  }

  method ReadHostWrite(pipe: Pipe, memory: SimulationMemory, v: int, length: int) returns (front: Front)
    requires memory.Valid()
    modifies pipe, memory
    ensures memory.Valid() && memory.Top() == old(memory.Top())
    ensures front == HostWriteFront(old(memory.flat), v, length, old(pipe.Stream())) || front == Stop(Stopped)
    ensures old(pipe.Patient()) ==>
              && front == HostWriteFront(old(memory.flat), v, length, old(pipe.Stream()))
              && (front.Got? ==> pipe.Patient())
    ensures front.Got? ==> front.size >= 17 && pipe.Stream() == old(pipe.Stream())[front.size - 17..]
    ensures memory.flat == if front.Got? then Effect(old(memory.flat), front.message) else old(memory.flat)
    ensures IsHostWrite(front) ==>
              Written(old(memory.flat), front.message.value.v, front.message.value.data, memory.flat)
    ensures !IsHostWrite(front) ==> memory.flat == old(memory.flat)
  {
    LookupIffAllocated(memory.View(), memory.flat, v, length);
    if Containing(memory.View(), v, length).None? {
      return Stop(NotAllocated(v, length));
    }
    ghost var rest := pipe.Stream();
    var data := pipe.ReadExactly(length);
    if data.None? {
      return Stop(Stopped);
    }
    if data.value == [] {
      assert rest[0..] == rest;
      return Got(None, 17);
    }
    assert rest[..length] == data.value && rest[length..] == pipe.Stream();
    var ok := memory.WriteTo(v, data.value);
    front := Got(Some(HostWrite(v, data.value)), 17 + length);
  }

  /** _read_simulation_output: for every way the pipe splits its bytes, including empty reads, and whatever the
      test does with the memory between messages, the same messages with the same payloads come out in order
      and the same bytes reach the memory: the first `handled` ones if the stop event comes early, and all of
      them if it waits for the bytes. */
  method ReadSimulationOutput(pipe: Pipe, memory: SimulationMemory, env: Meanwhile)
    returns (messages: seq<Message>, end: End, ghost handled: nat)
    requires memory.Valid()
    modifies pipe, memory
    ensures memory.Valid()
    ensures Log(messages, FlatState(memory.flat, memory.Top()), end)
         == DispatchUpTo(old(pipe.Stream()), FlatState(old(memory.flat), old(memory.Top())), env, handled)
    ensures old(pipe.Patient()) ==>
              Log(messages, FlatState(memory.flat, memory.Top()), end)
              == Dispatch(old(pipe.Stream()), FlatState(old(memory.flat), old(memory.Top())), env)
  {
    hide Dispatch, DispatchUpTo, FrontOf, Before, Effect, Tracks;
    messages, end, handled := [], Stopped, 0;
    var meanwhile := env;
    ghost var whole := Start(pipe.Stream(), FlatState(memory.flat, memory.Top()), env);
    TracksStart(whole);
    while true
      invariant memory.Valid() && (old(pipe.Patient()) ==> pipe.Patient())
      invariant Tracks(whole, handled, messages, Start(pipe.Stream(), FlatState(memory.flat, memory.Top()), meanwhile))
      decreases |pipe.Stream()|
    {
      ghost var at := Start(pipe.Stream(), FlatState(memory.flat, memory.Top()), meanwhile);
      meanwhile := TestGoesOn(memory, meanwhile);
      ghost var now := memory.flat;
      var front := ReadMessage(pipe, memory);
      if front.Stop? {
        end := front.end;
        TracksStop(whole, handled, messages, at, end);
        handled := if FrontOf(at.stream, now) == front then handled + 1 else handled;
        return;
      }
      ghost var after := Start(pipe.Stream(), FlatState(memory.flat, memory.Top()), meanwhile);
      TracksOn(whole, handled, messages, at, front, after);
      messages, handled := messages + Listed(front.message), handled + 1;
    }
  }

  /** What the test does before the next message. */
  method TestGoesOn(memory: SimulationMemory, env: Meanwhile) returns (later: Meanwhile)
    requires memory.Valid()
    modifies memory
    ensures memory.Valid() && later == Later(env)
    ensures FlatState(memory.flat, memory.Top()) == Before(FlatState(old(memory.flat), old(memory.Top())), env)
  {
    if env != [] {
      StoredBelowTop(memory.View(), memory.flat);
      UpwardIsRoomy(FlatState(memory.flat, memory.Top()), env[0]);
      var answers := memory.Replay(env[0]);
    }
    later := Later(env);
  }

  /** Where the loop is: the bytes to come, the memory, and what the test will do. */
  datatype Start = Start(stream: seq<Byte>, memory: FlatState, env: Meanwhile)

  ghost function Continued(messages: seq<Message>, later: Log): Log {
    later.(messages := messages + later.messages)
  }

  /** After some messages, the rest of the loop completes the whole, wherever it is stopped. */
  ghost predicate Tracks(whole: Start, handled: nat, messages: seq<Message>, at: Start) {
    && Dispatch(whole.stream, whole.memory, whole.env) == Continued(messages, Dispatch(at.stream, at.memory, at.env))
    && forall n: nat :: DispatchUpTo(whole.stream, whole.memory, whole.env, handled + n)
                     == Continued(messages, DispatchUpTo(at.stream, at.memory, at.env, n))
  }

  lemma TracksStart(whole: Start)
    ensures Tracks(whole, 0, [], whole)
  {
    hide Dispatch, DispatchUpTo;
    var all := Dispatch(whole.stream, whole.memory, whole.env);
    assert [] + all.messages == all.messages;
    forall n: nat
      ensures DispatchUpTo(whole.stream, whole.memory, whole.env, 0 + n)
           == Continued([], DispatchUpTo(whole.stream, whole.memory, whole.env, n))
    {
      var l := DispatchUpTo(whole.stream, whole.memory, whole.env, n);
      assert [] + l.messages == l.messages;
    }
  }

  /** The loop ends at a message it cannot accept, or with the stop event. */
  lemma TracksStop(whole: Start, handled: nat, messages: seq<Message>, at: Start, end: End)
    requires Tracks(whole, handled, messages, at)
    ensures DispatchUpTo(whole.stream, whole.memory, whole.env, handled)
         == Log(messages, Before(at.memory, at.env), Stopped)
    ensures FrontOf(at.stream, Before(at.memory, at.env).flat) == Stop(end) ==>
              && Dispatch(whole.stream, whole.memory, whole.env) == Log(messages, Before(at.memory, at.env), end)
              && DispatchUpTo(whole.stream, whole.memory, whole.env, handled + 1)
              == Log(messages, Before(at.memory, at.env), end)
  {
    assert messages + [] == messages;
    assert DispatchUpTo(whole.stream, whole.memory, whole.env, handled + 0)
        == Continued(messages, DispatchUpTo(at.stream, at.memory, at.env, 0));
    assert DispatchUpTo(whole.stream, whole.memory, whole.env, handled + 1)
        == Continued(messages, DispatchUpTo(at.stream, at.memory, at.env, 1));
    hide FrontOf, Before;
  }

  /** The loop goes on with the next message. */
  lemma TracksOn(whole: Start, handled: nat, messages: seq<Message>, at: Start, front: Front, after: Start)
    requires Tracks(whole, handled, messages, at) && front.Got? && after.env == Later(at.env)
    requires FrontOf(at.stream, Before(at.memory, at.env).flat) == front && after.stream == at.stream[front.size..]
    requires var now := Before(at.memory, at.env); after.memory == now.(flat := Effect(now.flat, front.message))
    ensures Tracks(whole, handled + 1, messages + Listed(front.message), after)
  {
    hide FrontOf, Before, Effect;
    var later := Dispatch(after.stream, after.memory, after.env);
    assert messages + (Listed(front.message) + later.messages) == (messages + Listed(front.message)) + later.messages;
    forall n: nat
      ensures DispatchUpTo(whole.stream, whole.memory, whole.env, handled + 1 + n)
           == Continued(messages + Listed(front.message), DispatchUpTo(after.stream, after.memory, after.env, n))
    {
      var l := DispatchUpTo(after.stream, after.memory, after.env, n);
      assert handled + 1 + n == handled + (n + 1);
      assert DispatchUpTo(whole.stream, whole.memory, whole.env, handled + (n + 1))
          == Continued(messages, DispatchUpTo(at.stream, at.memory, at.env, n + 1));
      assert messages + (Listed(front.message) + l.messages) == (messages + Listed(front.message)) + l.messages;
    }
  }

  // ---------------------------------------------------------------- the simulator's side

  /** What the simulator writes for a message. */
  function Encode(m: Message): seq<Byte>
    requires Sendable(m)
  {
    match m
    case CsrValue(x) => [GET_CSR] + Le64(x)
    case HostWrite(v, data) => [HOST_WRITE] + Le64(v) + Le64(|data|) + data
    case Interrupt(pid, x) => [IRQ, pid] + Le32(x)
    case CompletedCount(n) => [CHECK_COMPLETED] + Le32(n)
  }

  predicate Sendable(m: Message) {
    match m
    case CsrValue(x) => IsInt64(x)
    case HostWrite(v, data) => IsInt64(v) && 0 < |data| < TWO_TO_63
    case Interrupt(_, x) => IsInt32(x)
    case CompletedCount(n) => IsInt32(n)
  }

  function EncodeAll(ms: seq<Message>): seq<Byte>
    requires forall i :: 0 <= i < |ms| ==> Sendable(ms[i])
  {
    if ms == [] then [] else Encode(ms[0]) + EncodeAll(ms[1..])
  }

  /** Every host write goes to memory that is allocated when it arrives. */
  ghost predicate AllCovered(ms: seq<Message>, st: FlatState, env: Meanwhile)
    decreases |ms|
  {
    ms == [] ||
    var now := Before(st, env);
    && (ms[0].HostWrite? ==> Covered(now.flat, ms[0].v, |ms[0].data|))
    && AllCovered(ms[1..], now.(flat := Effect(now.flat, Some(ms[0]))), Later(env))
  }

  lemma FrontOfParts(tag: Byte, header: seq<Byte>, rest: seq<Byte>, flat: Flat)
    requires Header(tag) == Some(|header|)
    ensures FrontOf([tag] + header + rest, flat) == AfterHeader(tag, header, rest, flat)
  {
    var s := [tag] + header + rest;
    assert s[1..1 + |header|] == header && s[1 + |header|..] == rest;
  }

  lemma FrontOfHostWrite(v: int, data: seq<Byte>, rest: seq<Byte>, flat: Flat)
    requires Sendable(HostWrite(v, data)) && Covered(flat, v, |data|)
    ensures AfterHeader(HOST_WRITE, Le64(v) + Le64(|data|), data + rest, flat)
         == Got(Some(HostWrite(v, data)), 17 + |data|)
  {
    var header := Le64(v) + Le64(|data|);
    assert header[..8] == Le64(v) && header[8..] == Le64(|data|) && (data + rest)[..|data|] == data;
    Le64RoundTrip(v);
    Le64RoundTrip(|data|);
    hide Le64, FromLe64, Covered;
  }

  lemma FrontOfInterrupt(pid: Byte, x: int, rest: seq<Byte>, flat: Flat)
    requires IsInt32(x)
    ensures AfterHeader(IRQ, [pid] + Le32(x), rest, flat) == Got(Some(Interrupt(pid, x)), 6)
  {
    Le32RoundTrip(x);
    hide Le32, FromLe32, Covered;
    var header := [pid] + Le32(x);
    assert header[1..] == Le32(x);
  }

  lemma EncodedHostWrite(v: int, data: seq<Byte>, rest: seq<Byte>, flat: Flat)
    requires Sendable(HostWrite(v, data)) && Covered(flat, v, |data|)
    ensures var m := HostWrite(v, data); FrontOf(Encode(m) + rest, flat) == Got(Some(m), |Encode(m)|)
  {
    hide FrontOf, AfterHeader, Covered, Le64;
    var header := Le64(v) + Le64(|data|);
    FrontOfHostWrite(v, data, rest, flat);
    FrontOfParts(HOST_WRITE, header, data + rest, flat);
    assert Encode(HostWrite(v, data)) == [HOST_WRITE] + header + data;
    Regroup([HOST_WRITE] + header, data, rest);
  }

  lemma EncodedInterrupt(pid: Byte, x: int, rest: seq<Byte>, flat: Flat)
    requires Sendable(Interrupt(pid, x))
    ensures var m := Interrupt(pid, x); FrontOf(Encode(m) + rest, flat) == Got(Some(m), |Encode(m)|)
  {
    hide FrontOf, AfterHeader, Le32;
    var header := [pid] + Le32(x);
    FrontOfInterrupt(pid, x, rest, flat);
    FrontOfParts(IRQ, header, rest, flat);
    assert Encode(Interrupt(pid, x)) == [IRQ] + header;
  }

  lemma FrontOfEncoded(m: Message, rest: seq<Byte>, flat: Flat)
    requires Sendable(m) && (m.HostWrite? ==> Covered(flat, m.v, |m.data|))
    ensures FrontOf(Encode(m) + rest, flat) == Got(Some(m), |Encode(m)|)
  {
    hide FrontOf, Covered, Le32, Le64, FromLe32, FromLe64;
    match m {
      case CsrValue(x) =>
        Le64RoundTrip(x);
        FrontOfParts(GET_CSR, Le64(x), rest, flat);
      case HostWrite(v, data) => EncodedHostWrite(v, data, rest, flat);
      case Interrupt(pid, x) => EncodedInterrupt(pid, x, rest, flat);
      case CompletedCount(n) =>
        Le32RoundTrip(n);
        FrontOfParts(CHECK_COMPLETED, Le32(n), rest, flat);
    }
  }

  /** The memory after the messages, and what the test does after them. */
  ghost function Effects(st: FlatState, ms: seq<Message>, env: Meanwhile): FlatState
    decreases |ms|
  {
    if ms == [] then st
    else
      var now := Before(st, env);
      Effects(now.(flat := Effect(now.flat, Some(ms[0]))), ms[1..], Later(env))
  }

  function Drop(env: Meanwhile, n: nat): Meanwhile {
    if n == 0 then env else Drop(Later(env), n - 1)
  }

  /** A stream that starts with one encoded message delivers it first. */
  lemma DispatchEncoded(m: Message, rest: seq<Byte>, st: FlatState, env: Meanwhile)
    requires Sendable(m) && (m.HostWrite? ==> Covered(Before(st, env).flat, m.v, |m.data|))
    ensures var now := Before(st, env);
            var later := Dispatch(rest, now.(flat := Effect(now.flat, Some(m))), Later(env));
            Dispatch(Encode(m) + rest, st, env) == later.(messages := [m] + later.messages)
  {
    FrontOfEncoded(m, rest, Before(st, env).flat);
    hide FrontOf, Encode, Covered, Effect, Before;
    assert (Encode(m) + rest)[|Encode(m)|..] == rest;
  }

  /** What the simulator sends is what the dispatch loop delivers, up to the last whole message, whatever the test
      does meanwhile. */
  lemma {:induction false} MessagesRoundTrip(ms: seq<Message>, rest: seq<Byte>, st: FlatState, env: Meanwhile)
    requires (forall i :: 0 <= i < |ms| ==> Sendable(ms[i])) && AllCovered(ms, st, env)
    ensures var later := Dispatch(rest, Effects(st, ms, env), Drop(env, |ms|));
            Dispatch(EncodeAll(ms) + rest, st, env) == later.(messages := ms + later.messages)
    decreases |ms|
  {
    hide Dispatch, Encode, Covered, Sendable, Effect, Before;
    var later := Dispatch(rest, Effects(st, ms, env), Drop(env, |ms|));
    if ms == [] {
      assert EncodeAll(ms) + rest == rest && ms + later.messages == later.messages;
    } else {
      var m, tail, now := ms[0], EncodeAll(ms[1..]) + rest, Before(st, env);
      DispatchEncoded(m, tail, st, env);
      Regroup(Encode(m), EncodeAll(ms[1..]), rest);
      MessagesRoundTrip(ms[1..], rest, now.(flat := Effect(now.flat, Some(m))), Later(env));
      assert [m] + (ms[1..] + later.messages) == ms + later.messages;
    }
  }

  // ---------------------------------------------------------------- how the loop ends

  lemma UnknownTypeEnds(tag: Byte, rest: seq<Byte>, st: FlatState, env: Meanwhile)
    requires tag > CHECK_COMPLETED
    ensures Dispatch([tag] + rest, st, env) == Log([], Before(st, env), UnknownType(tag))
  {
  }

  function HostWriteHeader(v: int, length: int): seq<Byte>
    requires IsInt64(v) && IsInt64(length)
  {
    [HOST_WRITE] + (Le64(v) + Le64(length))
  }

  lemma FrontOfHeader(v: int, length: int, rest: seq<Byte>, flat: Flat)
    requires IsInt64(v) && IsInt64(length)
    ensures FrontOf(HostWriteHeader(v, length) + rest, flat) == HostWriteFront(flat, v, length, rest)
  {
    hide Le64, FromLe64, HostWriteFront;
    var header := Le64(v) + Le64(length);
    Le64RoundTrip(v);
    Le64RoundTrip(length);
    assert header[..8] == Le64(v) && header[8..] == Le64(length);
    FrontOfParts(HOST_WRITE, header, rest, flat);
  }

  /** A host write to memory that is not allocated ends the loop before its data is read. An empty one to allocated
      memory is passed over. */
  lemma HostWriteChecked(v: int, length: int, rest: seq<Byte>, st: FlatState, env: Meanwhile)
    requires IsInt64(v) && IsInt64(length)
    ensures var now, log := Before(st, env), Dispatch(HostWriteHeader(v, length) + rest, st, env);
            && (!Covered(now.flat, v, length) ==> log == Log([], now, NotAllocated(v, length)))
            && (Covered(now.flat, v, length) && length <= 0 ==> log == Dispatch(rest, now, Later(env)))
            && (Covered(now.flat, v, length) && |rest| < length ==> log == Log([], now, Stopped))
  {
    var stream, now := HostWriteHeader(v, length) + rest, Before(st, env);
    FrontOfHeader(v, length, rest, now.flat);
    assert stream[17..] == rest;
    hide FrontOf, Before, Covered, HostWriteHeader;
    if Covered(now.flat, v, length) && length <= 0 {
      var later := Dispatch(rest, now, Later(env));
      assert [] + later.messages == later.messages;
    }
  }

  // ---------------------------------------------------------------- the memory afterwards

  /** What happens to the memory, in the order in which it happens: what the test does, and the messages. */
  datatype Op = Test(call: UpwardCall) | Sim(message: Message)

  /** A host write is a write of its data; another message leaves the memory alone, as a read does. */
  function CallOf(op: Op): Call {
    match op
    case Test(call) => call
    case Sim(m) => if m.HostWrite? then Write(m.v, m.data) else Read(0, 0)
  }

  function CallsOf(ops: seq<Op>): (calls: seq<Call>)
    ensures |calls| == |ops| && forall i :: 0 <= i < |ops| ==> calls[i] == CallOf(ops[i])
  {
    seq(|ops|, i requires 0 <= i < |ops| => CallOf(ops[i]))
  }

  function MessagesIn(ops: seq<Op>): seq<Message> {
    if ops == [] then [] else (if ops[0].Sim? then [ops[0].message] else []) + MessagesIn(ops[1..])
  }

  function TestsIn(ops: seq<Op>): seq<UpwardCall> {
    if ops == [] then [] else (if ops[0].Test? then [ops[0].call] else []) + TestsIn(ops[1..])
  }

  /** What the test does before each of the first k messages, one call after the other. */
  function Joined(env: Meanwhile, k: nat): seq<UpwardCall> {
    if env == [] || k == 0 then [] else env[0] + Joined(env[1..], k - 1)
  }

  lemma {:induction false} JoinedGrows(env: Meanwhile, k: nat)
    ensures Joined(env, k) <= Joined(env, k + 1)
    decreases k
  {
    if env != [] && k > 0 { JoinedGrows(env[1..], k - 1); }
  }

  /** The test has done all of that for the messages handled, and may have done more of what it does later. */
  predicate InTime(tests: seq<UpwardCall>, env: Meanwhile, handled: nat) {
    Joined(env, handled + 1) <= tests <= Joined(env, |env|)
  }

  lemma InTimeOn(tests: seq<UpwardCall>, env: Meanwhile, m: Option<Message>, handled: nat)
    requires InTime(tests, Later(env), handled)
    ensures InTime(FirstBatch(env) + tests, env, |Listed(m)| + handled)
  {
    JoinedGrows(env, handled + 1);
  }

  function Tests(calls: seq<UpwardCall>): (ops: seq<Op>)
    ensures |ops| == |calls| && forall i :: 0 <= i < |calls| ==> ops[i] == Test(calls[i])
  {
    seq(|calls|, i requires 0 <= i < |calls| => Test(calls[i]))
  }

  function FirstBatch(env: Meanwhile): seq<UpwardCall> {
    if env == [] then [] else env[0]
  }

  lemma {:induction false} TestsThen(calls: seq<UpwardCall>, ops: seq<Op>)
    ensures MessagesIn(Tests(calls) + ops) == MessagesIn(ops)
    ensures TestsIn(Tests(calls) + ops) == calls + TestsIn(ops)
    decreases |calls|
  {
    var all := Tests(calls) + ops;
    if calls == [] {
      assert all == ops;
    } else {
      TestsThen(calls[1..], ops);
      assert all[1..] == Tests(calls[1..]) + ops;
      assert [] + MessagesIn(ops) == MessagesIn(ops);
      assert [calls[0]] + (calls[1..] + TestsIn(ops)) == calls + TestsIn(ops);
    }
  }

  lemma {:induction false} RunCallsAppend(st: FlatState, a: seq<Call>, b: seq<Call>)
    ensures RunCalls(st, a + b) == RunCalls(RunCalls(st, a), b)
    decreases |b|
  {
    hide ApplyCall;
    if b == [] {
      assert a + b == a;
    } else {
      assert (a + b)[..|a + b| - 1] == a + b[..|b| - 1];
      RunCallsAppend(st, a, b[..|b| - 1]);
    }
  }

  /** Every host write finds its memory allocated. */
  ghost predicate AllAccepted(st: FlatState, ops: seq<Op>) {
    forall i :: 0 <= i < |ops| && ops[i].Sim? && ops[i].message.HostWrite? ==>
      Accepted(RunCalls(st, CallsOf(ops)[..i]), CallOf(ops[i]))
  }

  lemma AcceptedThen(st: FlatState, first: seq<Op>, later: seq<Op>)
    requires AllAccepted(st, first) && AllAccepted(RunCalls(st, CallsOf(first)), later)
    ensures AllAccepted(st, first + later)
  {
    hide RunCalls, Accepted, CallOf;
    var ops := first + later;
    forall i | 0 <= i < |ops| && ops[i].Sim? && ops[i].message.HostWrite?
      ensures Accepted(RunCalls(st, CallsOf(ops)[..i]), CallOf(ops[i]))
    {
      if i < |first| {
        assert CallsOf(ops)[..i] == CallsOf(first)[..i];
      } else {
        var j := i - |first|;
        assert CallsOf(ops)[..i] == CallsOf(first) + CallsOf(later)[..j];
        RunCallsAppend(st, CallsOf(first), CallsOf(later)[..j]);
      }
    }
  }

  /** One turn of the loop: what the test does, and the message if there is one. */
  function TurnOps(env: Meanwhile, m: Option<Message>): seq<Op> {
    Tests(FirstBatch(env)) + if m.Some? then [Sim(m.value)] else []
  }

  lemma TurnIsCalls(st: FlatState, env: Meanwhile, m: Option<Message>)
    requires m.Some? && m.value.HostWrite? ==> Covered(Before(st, env).flat, m.value.v, |m.value.data|)
    ensures var now := Before(st, env);
            RunCalls(st, CallsOf(TurnOps(env, m))) == now.(flat := Effect(now.flat, m))
    ensures AllAccepted(st, TurnOps(env, m))
  {
    var ops, calls, given := TurnOps(env, m), CallsOf(TurnOps(env, m)), FirstBatch(env);
    assert RunCalls(st, given) == Before(st, env);
    assert calls[..|given|] == given;
    if m.None? {
      assert calls == given;
    } else {
      assert calls[..|calls| - 1] == given;
    }
  }

  lemma TurnThen(env: Meanwhile, m: Option<Message>, later: seq<Op>)
    ensures MessagesIn(TurnOps(env, m) + later) == Listed(m) + MessagesIn(later)
    ensures TestsIn(TurnOps(env, m) + later) == FirstBatch(env) + TestsIn(later)
  {
    var sims := if m.Some? then [Sim(m.value)] else [];
    assert TurnOps(env, m) + later == Tests(FirstBatch(env)) + (sims + later);
    TestsThen(FirstBatch(env), sims + later);
    if m.Some? {
      assert (sims + later)[1..] == later;
    } else {
      assert sims + later == later;
    }
    assert [] + TestsIn(later) == TestsIn(later) && [] + MessagesIn(later) == MessagesIn(later);
  }

  /** The turn in which the loop ends. */
  lemma LastTurn(st: FlatState, env: Meanwhile)
    ensures var ops := TurnOps(env, None);
            && MessagesIn(ops) == [] && InTime(TestsIn(ops), env, 0)
            && RunCalls(st, CallsOf(ops)) == Before(st, env) && AllAccepted(st, ops)
  {
    var ops := TurnOps(env, None);
    TurnIsCalls(st, env, None);
    TurnThen(env, None, []);
    assert ops + [] == ops && FirstBatch(env) + [] == FirstBatch(env);
    hide RunCalls, Before, AllAccepted, TurnOps;
    if env != [] { assert Joined(env, 1) == env[0] + Joined(env[1..], 0); }
  }

  /** For any bytes, whatever the test does and wherever the loop is stopped: there is an order of the messages
      handled and of what the test did, each in its own order, in which the calls they stand for make the memory what
      it is, and in which every host write finds its memory allocated. */
  lemma {:induction false} LoopIsCalls(stream: seq<Byte>, st: FlatState, env: Meanwhile, n: nat)
    returns (ops: seq<Op>)
    ensures var log := DispatchUpTo(stream, st, env, n);
            && MessagesIn(ops) == log.messages && InTime(TestsIn(ops), env, |log.messages|)
            && log.memory == RunCalls(st, CallsOf(ops)) && AllAccepted(st, ops)
    decreases n
  {
    hide FrontOf, Before, Effect, RunCalls, AllAccepted, Covered, InTime, MessagesIn, TestsIn, TurnOps;
    var now := Before(st, env);
    var front := FrontOf(stream, now.flat);
    if n == 0 || front.Stop? {
      ops := TurnOps(env, None);
      LastTurn(st, env);
    } else {
      GotIsCovered(stream, now.flat);
      TurnIsCalls(st, env, front.message);
      var first, st' := TurnOps(env, front.message), now.(flat := Effect(now.flat, front.message));
      var later := LoopIsCalls(stream[front.size..], st', Later(env), n - 1);
      ops := first + later;
      TurnThen(env, front.message, later);
      InTimeOn(TestsIn(later), env, front.message, |MessagesIn(later)|);
      AcceptedThen(st, first, later);
      assert CallsOf(ops) == CallsOf(first) + CallsOf(later);
      RunCallsAppend(st, CallsOf(first), CallsOf(later));
    }
  }

  lemma GotIsCovered(stream: seq<Byte>, flat: Flat)
    ensures var front := FrontOf(stream, flat);
            IsHostWrite(front) ==> Covered(flat, front.message.value.v, |front.message.value.data|)
  {
    hide Covered, FromLe64, FromLe32;
  }

  /** Call i is the last accepted write of address a. */
  ghost predicate LastWriter(st: FlatState, calls: seq<Call>, i: nat, a: int) {
    Wrote(st, calls, i, a) && forall j: nat :: j > i ==> !Wrote(st, calls, j, a)
  }

  /** So after the loop an address holds the byte of the last host write or accepted write of the test that covers
      it, and what it held if there was none. */
  lemma HostWritesArrive(stream: seq<Byte>, st: FlatState, env: Meanwhile, n: nat) returns (ops: seq<Op>)
    ensures var log, calls := DispatchUpTo(stream, st, env, n), CallsOf(ops);
            && MessagesIn(ops) == log.messages && InTime(TestsIn(ops), env, |log.messages|)
            && (forall i: nat, a :: i < |ops| && ops[i].Sim? && ops[i].message.HostWrite? ==>
                  0 <= a - ops[i].message.v < |ops[i].message.data| ==> Wrote(st, calls, i, a))
            && (forall i: nat, a :: LastWriter(st, calls, i, a) ==>
                  log.memory.flat(a) == Some(calls[i].data[a - calls[i].v]))
            && (forall a :: st.flat(a).Some? && (forall i: nat :: !Wrote(st, calls, i, a)) ==>
                  log.memory.flat(a) == st.flat(a))
  {
    ops := LoopIsCalls(stream, st, env, n);
    var log, calls := DispatchUpTo(stream, st, env, n), CallsOf(ops);
    hide DispatchUpTo, RunCalls;
    forall i: nat, a | LastWriter(st, calls, i, a)
      ensures log.memory.flat(a) == Some(calls[i].data[a - calls[i].v])
    {
      HoldsLastWritten(st, calls, i, a);
    }
    forall a | st.flat(a).Some? && (forall i: nat :: !Wrote(st, calls, i, a))
      ensures log.memory.flat(a) == st.flat(a)
    {
      FreshIsZero(st, calls, a);
    }
  }
}
