/** Two nodes set up an RDMA connection over an out-of-band socket (sw/src/cThread.cpp): they exchange
    their queues once and then synchronise with acknowledgements any number of times. */
module Handshake {
  import opened Bytes

  /** The half of a queue pair that a node tells its peer. */
  datatype Queue = Queue(ip: nat, qpn: nat, psn: nat, rkey: nat, vaddr: nat, size: nat, gid: string)

  /** What travels over the socket. A read for the one kind does not understand the other. */
  datatype Message = QueueInfo(q: Queue) | Ack(value: nat)

  /** Where a node is. The client allocates, writes and reads; the server reads, allocates and writes. */
  datatype At =
    | Allocating      // about to allocate the buffer
    | Writing         // about to write its queue
    | Reading         // about to read the peer's queue
    | Outside         // between two synchronisations
    | Awaiting        // inside one, about to read the ack
    | Answering       // inside one, about to send the ack: server only

  /** A node: its queue pair and the number of synchronisations it has entered and left. */
  datatype Node = Node(at: At, local: Queue, remote: Option<Queue>, entered: nat, left: nat)

  datatype State = State(client: Node, server: Node, toServer: seq<Message>, toClient: seq<Message>)

  datatype Step =
    | ClientAlloc(vaddr: nat, size: nat) | ClientWrite | ClientRead | ClientEnter | ClientLeave
    | ServerRead | ServerAlloc(vaddr: nat, size: nat) | ServerWrite | ServerEnter | ServerReadAck | ServerLeave

  function Start(client: Queue, server: Queue): State {
    State(Node(Allocating, client, None, 0, 0), Node(Reading, server, None, 0, 0), [], [])
  }

  function Equipped(q: Queue, vaddr: nat, size: nat): Queue {
    q.(vaddr := vaddr, size := size)
  }

  function Tail(ms: seq<Message>): seq<Message>
    requires ms != []
  {
    ms[1..]
  }

  /** The state after one step; None when the node is elsewhere or has to wait for its read. */
  function Next(s: State, step: Step): Option<State> {
    var c, v := s.client, s.server;
    match step
    case ClientAlloc(vaddr, size) =>
      if c.at.Allocating? then Some(s.(client := c.(at := Writing, local := Equipped(c.local, vaddr, size)))) else None
    case ClientWrite =>
      if c.at.Writing? then
        Some(s.(client := c.(at := Reading), toServer := s.toServer + [QueueInfo(c.local)]))
      else None
    case ClientRead =>
      if c.at.Reading? && s.toClient != [] && s.toClient[0].QueueInfo? then
        Some(s.(client := c.(at := Outside, remote := Some(s.toClient[0].q)), toClient := Tail(s.toClient)))
      else None
    case ClientEnter =>
      if c.at.Outside? then
        Some(s.(client := c.(at := Awaiting, entered := c.entered + 1), toServer := s.toServer + [Ack(0)]))
      else None
    case ClientLeave =>
      if c.at.Awaiting? && s.toClient != [] && s.toClient[0].Ack? then
        Some(s.(client := c.(at := Outside, left := c.left + 1), toClient := Tail(s.toClient)))
      else None
    case ServerRead =>
      if v.at.Reading? && s.toServer != [] && s.toServer[0].QueueInfo? then
        Some(s.(server := v.(at := Allocating, remote := Some(s.toServer[0].q)), toServer := Tail(s.toServer)))
      else None
    case ServerAlloc(vaddr, size) =>
      if v.at.Allocating? then Some(s.(server := v.(at := Writing, local := Equipped(v.local, vaddr, size)))) else None
    case ServerWrite =>
      if v.at.Writing? then
        Some(s.(server := v.(at := Outside), toClient := s.toClient + [QueueInfo(v.local)]))
      else None
    case ServerEnter =>
      if v.at.Outside? then Some(s.(server := v.(at := Awaiting, entered := v.entered + 1))) else None
    case ServerReadAck =>
      if v.at.Awaiting? && s.toServer != [] && s.toServer[0].Ack? then
        Some(s.(server := v.(at := Answering), toServer := Tail(s.toServer)))
      else None
    case ServerLeave =>
      if v.at.Answering? then
        Some(s.(server := v.(at := Outside, left := v.left + 1), toClient := s.toClient + [Ack(0)]))
      else None
  }

  function Run(s: State, steps: seq<Step>): Option<State>
    decreases |steps|
  {
    if steps == [] then Some(s)
    else
      var t := Next(s, steps[0]);
      if t.None? then None else Run(t.value, steps[1..])
  }

  // ---------------------------------------------------------------- what every interleaving keeps

  predicate Registered(n: Node) {
    n.at.Outside? || n.at.Awaiting? || n.at.Answering?
  }

  /** A node outside has left as often as it entered; inside it is one behind. */
  predicate Counted(n: Node) {
    n.entered == if n.at.Awaiting? || n.at.Answering? then n.left + 1 else n.left
  }

  /** Each side's view of the other. */
  predicate Told(s: State) {
    && (s.client.remote.Some? ==> s.client.remote.value == s.server.local)
    && (s.server.remote.Some? ==> s.server.remote.value == s.client.local)
    && s.client.remote.Some? == Registered(s.client)
    && s.server.remote.Some? == (Registered(s.server) || s.server.at.Allocating? || s.server.at.Writing?)
  }

  /** Before the client is registered. */
  predicate Exchanging(s: State) {
    && s.client.left == s.server.left == 0
    && match s.client.at
       case Reading =>
         (match s.server.at
          case Reading => s.toServer == [QueueInfo(s.client.local)] && s.toClient == []
          case Allocating => s.toServer == [] && s.toClient == []
          case Writing => s.toServer == [] && s.toClient == []
          case Outside => s.toServer == [] && s.toClient == [QueueInfo(s.server.local)]
          case Awaiting => s.toServer == [] && s.toClient == [QueueInfo(s.server.local)]
          case Answering => false)
       case _ => s.server.at.Reading? && s.toServer == [] && s.toClient == []
  }

  /** From then on. An ack is on its way exactly while one side has it behind and the other ahead. */
  predicate Synchronising(s: State) {
    var c, v := s.client, s.server;
    && (v.at.Outside? || v.at.Awaiting? || v.at.Answering?)
    && s.toServer == (if c.at.Awaiting? && v.left == c.left && !v.at.Answering? then [Ack(0)] else [])
    && s.toClient == (if c.at.Awaiting? && v.left == c.left + 1 then [Ack(0)] else [])
    && (v.left == c.left || (v.left == c.left + 1 && c.at.Awaiting? && !v.at.Answering?))
    && (v.at.Answering? ==> c.at.Awaiting?)
  }

  ghost predicate Inv(s: State) {
    && !s.client.at.Answering?
    && Counted(s.client) && Counted(s.server) && Told(s)
    && if Registered(s.client) then Synchronising(s) else Exchanging(s)
  }

  lemma ClientKeeps(s: State, step: Step)
    requires Inv(s) && Next(s, step).Some?
    requires step.ClientAlloc? || step.ClientWrite? || step.ClientRead? || step.ClientEnter? || step.ClientLeave?
    ensures Inv(Next(s, step).value)
  {
  }

  lemma ServerKeeps(s: State, step: Step)
    requires Inv(s) && Next(s, step).Some?
    requires || step.ServerRead? || step.ServerAlloc? || step.ServerWrite?
             || step.ServerEnter? || step.ServerReadAck? || step.ServerLeave?
    ensures Inv(Next(s, step).value)
  {
  }

  lemma NextKeeps(s: State, step: Step)
    requires Inv(s) && Next(s, step).Some?
    ensures Inv(Next(s, step).value)
  {
    hide Inv, Next;
    if step.ClientAlloc? || step.ClientWrite? || step.ClientRead? || step.ClientEnter? || step.ClientLeave? {
      ClientKeeps(s, step);
    } else {
      ServerKeeps(s, step);
    }
  }

  lemma {:induction false} RunKeeps(s: State, steps: seq<Step>)
    requires Inv(s) && Run(s, steps).Some?
    ensures Inv(Run(s, steps).value)
    decreases |steps|
  {
    hide Inv, Next;
    if steps != [] {
      NextKeeps(s, steps[0]);
      RunKeeps(Next(s, steps[0]).value, steps[1..]);
    }
  }

  /** What a waiting node finds at the head of its channel is what it is about to read. */
  predicate Understood(n: Node, channel: seq<Message>) {
    channel != [] ==> (n.at.Reading? ==> channel[0].QueueInfo?) && (n.at.Awaiting? ==> channel[0].Ack?)
  }

  /** In every interleaving: once both are registered each side's remote queue is the other's local one; no side
      leaves a synchronisation before the other has entered it; at most one message is in flight, and no read meets a
      message of the other kind. */
  lemma AgreementAndBarrier(client: Queue, server: Queue, steps: seq<Step>)
    requires Run(Start(client, server), steps).Some?
    ensures var s := Run(Start(client, server), steps).value;
            && (Registered(s.client) && Registered(s.server) ==>
                  s.client.remote == Some(s.server.local) && s.server.remote == Some(s.client.local))
            && s.client.left <= s.server.entered && s.server.left <= s.client.entered
            && |s.toServer| + |s.toClient| <= 1
            && Understood(s.client, s.toClient) && Understood(s.server, s.toServer)
  {
    RunKeeps(Start(client, server), steps);
  }

  // ---------------------------------------------------------------- what the queues hold

  /** The queue a side starts with, at the buffer it has allocated. */
  predicate Holding(q: Queue, initial: Queue, vaddr: nat, size: nat) {
    && q.vaddr == vaddr && q.size == size
    && q.ip == initial.ip && q.qpn == initial.qpn && q.psn == initial.psn && q.rkey == initial.rkey
    && q.gid == initial.gid
  }

  /** The client allocates at most once, and keeps the buffer. */
  lemma {:induction false} ClientKeepsBuffer(s: State, steps: seq<Step>)
    requires Run(s, steps).Some?
    ensures var t := Run(s, steps).value;
            && (forall i :: 0 <= i < |steps| && steps[i].ClientAlloc? ==>
                  s.client.at.Allocating? && Holding(t.client.local, s.client.local, steps[i].vaddr, steps[i].size))
            && ((forall i :: 0 <= i < |steps| ==> !steps[i].ClientAlloc?) ==> t.client.local == s.client.local)
    decreases |steps|
  {
    if steps != [] {
      ClientKeepsBuffer(Next(s, steps[0]).value, steps[1..]);
      assert forall i :: 0 < i < |steps| ==> steps[i] == steps[1..][i - 1];
    }
  }

  lemma {:induction false} ServerKeepsBuffer(s: State, steps: seq<Step>)
    requires Run(s, steps).Some?
    ensures var t := Run(s, steps).value;
            && (forall i :: 0 <= i < |steps| && steps[i].ServerAlloc? ==>
                  && BeforeBuffer(s.server)
                  && Holding(t.server.local, s.server.local, steps[i].vaddr, steps[i].size))
            && ((forall i :: 0 <= i < |steps| ==> !steps[i].ServerAlloc?) ==> t.server.local == s.server.local)
    decreases |steps|
  {
    if steps != [] {
      ServerKeepsBuffer(Next(s, steps[0]).value, steps[1..]);
      assert forall i :: 0 < i < |steps| ==> steps[i] == steps[1..][i - 1];
    }
  }

  /** In every interleaving: what a side allocated is, once it is registered, what the other side knows of its
      buffer, with everything else as it was in its queue at the start; and a side is registered only after both have
      allocated. */
  lemma PeersKnowBuffers(client: Queue, server: Queue, steps: seq<Step>)
    requires Run(Start(client, server), steps).Some?
    ensures var s := Run(Start(client, server), steps).value;
            && (forall i :: 0 <= i < |steps| && steps[i].ClientAlloc? ==>
                  && Holding(s.client.local, client, steps[i].vaddr, steps[i].size)
                  && (Registered(s.server) ==>
                        s.server.remote.Some? && Holding(s.server.remote.value, client, steps[i].vaddr, steps[i].size)))
            && (forall i :: 0 <= i < |steps| && steps[i].ServerAlloc? ==>
                  && Holding(s.server.local, server, steps[i].vaddr, steps[i].size)
                  && (Registered(s.client) ==>
                        s.client.remote.Some? && Holding(s.client.remote.value, server, steps[i].vaddr, steps[i].size)))
            && (Registered(s.client) || Registered(s.server) ==>
                  && (exists i :: 0 <= i < |steps| && steps[i].ClientAlloc?)
                  && (exists i :: 0 <= i < |steps| && steps[i].ServerAlloc?))
  {
    RunKeeps(Start(client, server), steps);
    ClientKeepsBuffer(Start(client, server), steps);
    ServerKeepsBuffer(Start(client, server), steps);
    Allocated(Start(client, server), steps);
    hide Run;
  }

  /** The server has not allocated yet. */
  predicate BeforeBuffer(server: Node) {
    server.at.Reading? || server.at.Allocating?
  }

  /** A side that has got past its allocation has allocated. */
  lemma {:induction false} Allocated(s: State, steps: seq<Step>)
    requires Run(s, steps).Some?
    ensures var t := Run(s, steps).value;
            && (s.client.at.Allocating? && !t.client.at.Allocating? ==>
                  exists i :: 0 <= i < |steps| && steps[i].ClientAlloc?)
            && (BeforeBuffer(s.server) && !BeforeBuffer(t.server) ==>
                  exists i :: 0 <= i < |steps| && steps[i].ServerAlloc?)
    decreases |steps|
  {
    if steps != [] {
      Allocated(Next(s, steps[0]).value, steps[1..]);
      assert forall i :: 0 <= i < |steps| - 1 ==> steps[1..][i] == steps[i + 1];
    }
  }

  // ---------------------------------------------------------------- progress

  /** Steps left until both have left n synchronisations: those of the exchange and those of the rounds. */
  function Setup(n: Node, client: bool): nat {
    match n.at
    case Allocating => if client then 3 else 2
    case Writing => if client then 2 else 1
    case Reading => if client then 1 else 3
    case _ => 0
  }

  function Remaining(s: State, n: nat): int {
    var c, v := s.client, s.server;
    Setup(c, true) + Setup(v, false)
    + 2 * (n - c.left) - (if c.at.Awaiting? then 1 else 0)
    + 3 * (n - v.left) - (if v.at.Awaiting? then 1 else if v.at.Answering? then 2 else 0)
  }

  /** No node enters more than n synchronisations. */
  predicate Within(s: State, n: nat) {
    s.client.entered <= n && s.server.entered <= n
  }

  /** Each step is one of the steps left. */
  lemma StepsCountDown(s: State, step: Step, n: nat)
    requires Inv(s) && Next(s, step).Some?
    ensures Remaining(Next(s, step).value, n) == Remaining(s, n) - 1
  {
  }

  /** A step that some node can take now, unless both have left their n synchronisations. */
  function Enabled(s: State, n: nat): Step {
    var c, v := s.client, s.server;
    if c.at.Allocating? then ClientAlloc(0, 0)
    else if c.at.Writing? then ClientWrite
    else if v.at.Reading? then ServerRead
    else if v.at.Allocating? then ServerAlloc(0, 0)
    else if v.at.Writing? then ServerWrite
    else if c.at.Reading? then ClientRead
    else if c.at.Outside? && c.entered < n then ClientEnter
    else if v.at.Answering? then ServerLeave
    else if s.toClient != [] then ClientLeave
    else if v.at.Outside? then ServerEnter
    else ServerReadAck
  }

  lemma NeverStuck(s: State, n: nat)
    requires Inv(s) && Within(s, n) && Remaining(s, n) > 0
    ensures var t := Next(s, Enabled(s, n)); t.Some? && Within(t.value, n)
  {
  }

  lemma RemainingIsNatural(s: State, n: nat)
    requires Inv(s) && Within(s, n)
    ensures Remaining(s, n) >= 0
    ensures Remaining(s, n) == 0 <==>
              s.client.at.Outside? && s.server.at.Outside? && s.client.left == s.server.left == n
  {
  }

  lemma {:induction false} RunCountsDown(s: State, steps: seq<Step>, n: nat)
    requires Inv(s) && Run(s, steps).Some?
    ensures Remaining(Run(s, steps).value, n) == Remaining(s, n) - |steps|
    decreases |steps|
  {
    hide Inv, Next, Remaining;
    if steps != [] {
      NextKeeps(s, steps[0]);
      StepsCountDown(s, steps[0], n);
      RunCountsDown(Next(s, steps[0]).value, steps[1..], n);
    }
  }

  /** No deadlock: if both call for n synchronisations, every run has at most 6 + 5n steps, some step is
      possible after every shorter one, and a run of that length has both sides through all n. */
  lemma NoDeadlock(client: Queue, server: Queue, steps: seq<Step>, n: nat)
    requires Run(Start(client, server), steps).Some? && Within(Run(Start(client, server), steps).value, n)
    ensures var s := Run(Start(client, server), steps).value;
            && |steps| <= 6 + 5 * n
            && (|steps| < 6 + 5 * n ==> exists step :: Next(s, step).Some? && Within(Next(s, step).value, n))
            && (|steps| == 6 + 5 * n <==>
                  s.client.at.Outside? && s.server.at.Outside? && s.client.left == s.server.left == n)
  {
    var s := Run(Start(client, server), steps).value;
    assert Remaining(Start(client, server), n) == 6 + 5 * n;
    RunKeeps(Start(client, server), steps);
    RunCountsDown(Start(client, server), steps, n);
    hide Inv, Next;
    RemainingIsNatural(s, n);
    if |steps| < 6 + 5 * n {
      NeverStuck(s, n);
    }
  }
}
