/** The byte formats between client and service: requests (sw/include/cConn.hpp, read by
    sw/src/cService.cpp) and responses (written by cService.cpp, read by sw/src/cConn.cpp). */
module Framing {
  import opened Bytes
  import opened Scheduling

  const OP_CLOSE_CONN := 0
  const OP_SUBMIT_TASK := 1
  const RECV_BUFF_SIZE := 1024
  const REQUEST_SIZE := 12
  const RESPONSE_SIZE := 8

  type Functions = map<int, Func>

  // ---------------------------------------------------------------- requests

  datatype Request = Request(fid: int, tid: int, args: seq<seq<Byte>>)

  /** Both sides read arguments and values into a buffer of fixed size; a C++ type has at least one byte. */
  predicate SizesFit(f: Func) {
    && 0 < f.retSize <= RECV_BUFF_SIZE
    && forall i :: 0 <= i < |f.argSizes| ==> 0 < f.argSizes[i] <= RECV_BUFF_SIZE
  }

  predicate AllSizesFit(functions: Functions) {
    forall fid :: fid in functions ==> SizesFit(functions[fid])
  }

  /** The caller passes arguments that match the registered signature. */
  predicate WellFormed(functions: Functions, r: Request) {
    && IsInt32(r.fid) && IsInt32(r.tid) && r.fid in functions && SizesFit(functions[r.fid])
    && |r.args| == |functions[r.fid].argSizes|
    && (forall i :: 0 <= i < |r.args| ==> |r.args[i]| == functions[r.fid].argSizes[i])
  }

  function RequestHeader(op: int, fid: int, tid: int): (h: seq<Byte>)
    requires IsInt32(op) && IsInt32(fid) && IsInt32(tid)
    ensures |h| == REQUEST_SIZE
  {
    Le32(op) + Le32(fid) + Le32(tid)
  }

  lemma RequestHeaderRoundTrip(op: int, fid: int, tid: int)
    requires IsInt32(op) && IsInt32(fid) && IsInt32(tid)
    ensures var h := RequestHeader(op, fid, tid);
            FromLe32(h[..4]) == op && FromLe32(h[4..8]) == fid && FromLe32(h[8..12]) == tid
  {
    var h := RequestHeader(op, fid, tid);
    assert h[..4] == Le32(op) && h[4..8] == Le32(fid) && h[8..12] == Le32(tid);
    Le32RoundTrip(op);
    Le32RoundTrip(fid);
    Le32RoundTrip(tid);
  }

  /** One piece per write of iTask: the header, then each argument. */
  function Pieces(r: Request): (p: seq<seq<Byte>>)
    requires IsInt32(r.fid) && IsInt32(r.tid)
    ensures |p| == 1 + |r.args| && p[1..] == r.args
  {
    [RequestHeader(OP_SUBMIT_TASK, r.fid, r.tid)] + r.args
  }

  predicate Encodable(rs: seq<Request>) {
    forall i :: 0 <= i < |rs| ==> IsInt32(rs[i].fid) && IsInt32(rs[i].tid)
  }

  predicate AllWellFormed(functions: Functions, rs: seq<Request>) {
    forall i :: 0 <= i < |rs| ==> WellFormed(functions, rs[i])
  }

  function AllPieces(rs: seq<Request>): seq<seq<Byte>>
    requires Encodable(rs)
  {
    if rs == [] then [] else Pieces(rs[0]) + AllPieces(rs[1..])
  }

  lemma {:induction false} AllPiecesAppend(rs: seq<Request>, r: Request)
    requires Encodable(rs) && IsInt32(r.fid) && IsInt32(r.tid)
    ensures Encodable(rs + [r])
    ensures AllPieces(rs + [r]) == AllPieces(rs) + Pieces(r)
  {
    assert (rs + [r])[|rs|] == r && forall i :: 0 <= i < |rs| ==> (rs + [r])[i] == rs[i];
    if rs == [] {
      assert rs + [r] == [r] && [r][1..] == [];
    } else {
      assert (rs + [r])[1..] == rs[1..] + [r];
      AllPiecesAppend(rs[1..], r);
      assert Pieces(rs[0]) + (AllPieces(rs[1..]) + Pieces(r)) == (Pieces(rs[0]) + AllPieces(rs[1..])) + Pieces(r);
    }
  }

  /** What the service does with one request it has read. */
  datatype Served =
    | Submitted(req: Request)
    | UnknownFunction(fid: int, tid: int)
    | BadArguments(tid: int)
    | Ignored(op: int)
    | Closed

  /** A socket with a receive timeout: the bytes that have arrived, and those still to come, in the batches
      that arrive before successive reads give up. A batch may be empty. */
  datatype Socket = Socket(here: seq<Byte>, later: seq<seq<Byte>>)

  datatype Got = Got(bytes: seq<Byte>, rest: Socket)

  function Await(s: Socket): Socket {
    if s.later == [] then s else Socket(s.here + s.later[0], s.later[1..])
  }

  function Take(s: Socket, n: nat): (g: Got)
    ensures |g.bytes| <= n
  {
    var t := Await(s);
    var m := if |t.here| < n then |t.here| else n;
    Got(t.here[..m], Socket(t.here[m..], t.later))
  }

  /** A bound on the reads that can still bring something. */
  function Weight(s: Socket): nat {
    |s.here| + |Flatten(s.later)| + |s.later|
  }

  lemma TakeShrinks(s: Socket, n: nat)
    ensures Weight(Take(s, n).rest) + |Take(s, n).bytes| <= Weight(s)
    ensures n > 0 && Weight(s) > 0 ==> Weight(Take(s, n).rest) < Weight(s)
  {
  }

  datatype Arguments = Arguments(args: Option<seq<seq<Byte>>>, rest: Socket)

  /** One read per argument; a short read is an error and what it took is gone. */
  function ReadArgs(sizes: seq<nat>, s: Socket): (r: Arguments)
    ensures r.args.Some? ==> |r.args.value| == |sizes|
    ensures Weight(r.rest) <= Weight(s)
    decreases |sizes|
  {
    if sizes == [] then Arguments(Some([]), s)
    else
      TakeShrinks(s, sizes[0]);
      var got := Take(s, sizes[0]);
      if |got.bytes| < sizes[0] then Arguments(None, got.rest)
      else
        var r := ReadArgs(sizes[1..], got.rest);
        if r.args.None? then r else Arguments(Some([got.bytes] + r.args.value), r.rest)
  }

  datatype Turn = Turn(item: Served, rest: Socket, running: bool)

  /** What the request loop does with a header it has read. */
  function ServeHeader(functions: Functions, header: seq<Byte>, s: Socket): (t: Turn)
    requires |header| == REQUEST_SIZE
    ensures Weight(t.rest) <= Weight(s)
  {
    var op, fid, tid := FromLe32(header[..4]), FromLe32(header[4..8]), FromLe32(header[8..12]);
    if op == OP_CLOSE_CONN then Turn(Closed, s, false)
    else if op != OP_SUBMIT_TASK then Turn(Ignored(op), s, true)
    else if fid !in functions then Turn(UnknownFunction(fid, tid), s, true)
    else
      var r := ReadArgs(functions[fid].argSizes, s);
      Turn(if r.args.None? then BadArguments(tid) else Submitted(Request(fid, tid, r.args.value)), r.rest, true)
  }

  /** What the request loop does with a socket, until nothing more comes or the connection is closed. */
  function Serve(functions: Functions, s: Socket): seq<Served>
    decreases Weight(s)
  {
    if Weight(s) == 0 then []
    else
      TakeShrinks(s, REQUEST_SIZE);
      var got := Take(s, REQUEST_SIZE);
      if |got.bytes| < REQUEST_SIZE then Serve(functions, got.rest)
      else
        var t := ServeHeader(functions, got.bytes, got.rest);
        [t.item] + if t.running then Serve(functions, t.rest) else []
  }

  /** processRequests, for every way in which the bytes arrive. */
  method ProcessRequests(functions: Functions, socket: Socket) returns (served: seq<Served>)
    requires AllSizesFit(functions)
    ensures served == Serve(functions, socket)
  {
    served := [];
    var s := socket;
    assert [] + Serve(functions, s) == Serve(functions, s);
    hide Serve, ServeHeader, Take, Weight;
    ServeNothing(functions);
    while Weight(s) > 0
      invariant Serve(functions, socket) == served + Serve(functions, s)
      decreases Weight(s)
    {
      TakeShrinks(s, REQUEST_SIZE);
      ServeUnfolds(functions, s, served);
      var got := Take(s, REQUEST_SIZE);
      s := got.rest;
      if |got.bytes| == REQUEST_SIZE {
        var turn := ProcessRequest(functions, got.bytes, s);
        served := served + [turn.item];
        s := turn.rest;
        if !turn.running {
          return;
        }
      }
    }
    ServeNothing(functions);
    SilentIsEmpty(s);
    assert served + [] == served;
  }

  lemma SilentIsEmpty(s: Socket)
    requires Weight(s) == 0
    ensures s == Socket([], [])
  {
  }

  lemma ServeNothing(functions: Functions)
    ensures Serve(functions, Socket([], [])) == []
  {
  }

  lemma ServeUnfolds(functions: Functions, s: Socket, served: seq<Served>)
    requires Weight(s) > 0
    ensures var got := Take(s, REQUEST_SIZE);
            if |got.bytes| < REQUEST_SIZE then Serve(functions, s) == Serve(functions, got.rest)
            else
              var t := ServeHeader(functions, got.bytes, got.rest);
              served + Serve(functions, s) == (served + [t.item]) + if t.running then Serve(functions, t.rest) else []
    ensures var got := Take(s, REQUEST_SIZE);
            |got.bytes| == REQUEST_SIZE && !ServeHeader(functions, got.bytes, got.rest).running ==>
              served + Serve(functions, s) == served + [ServeHeader(functions, got.bytes, got.rest).item]
  {
    hide Take, Weight, ServeHeader;
  }

  /** The switch on the operation, and a read per argument. */
  method ProcessRequest(functions: Functions, header: seq<Byte>, s: Socket) returns (turn: Turn)
    requires AllSizesFit(functions) && |header| == REQUEST_SIZE
    ensures turn == ServeHeader(functions, header, s)
  {
    var op, fid, tid := FromLe32(header[..4]), FromLe32(header[4..8]), FromLe32(header[8..12]);
    if op == OP_CLOSE_CONN {
      return Turn(Closed, s, false);
    } else if op != OP_SUBMIT_TASK {
      return Turn(Ignored(op), s, true);
    } else if fid !in functions {
      return Turn(UnknownFunction(fid, tid), s, true);
    }
    var args, rest := ReadArguments(functions[fid].argSizes, s);
    if args.None? {
      return Turn(BadArguments(tid), rest, true);
    }
    return Turn(Submitted(Request(fid, tid, args.value)), rest, true);
  }

  method ReadArguments(sizes: seq<nat>, s: Socket) returns (args: Option<seq<seq<Byte>>>, rest: Socket)
    requires forall i :: 0 <= i < |sizes| ==> sizes[i] <= RECV_BUFF_SIZE
    ensures Arguments(args, rest) == ReadArgs(sizes, s)
  {
    var read := [];
    rest := s;
    var i := 0;
    ghost var whole := ReadArgs(sizes, s);
    assert sizes[0..] == sizes;
    assert whole.args.Some? ==> [] + whole.args.value == whole.args.value;
    hide Take;
    while i < |sizes|
      invariant 0 <= i <= |sizes|
      invariant var later := ReadArgs(sizes[i..], rest); whole == Joined(read, later)
    {
      NextArgument(sizes, i, read, rest);
      var got := Take(rest, sizes[i]);
      rest := got.rest;
      if |got.bytes| < sizes[i] {
        return None, rest;
      }
      read := read + [got.bytes];
      i := i + 1;
    }
    assert sizes[i..] == [] && read + [] == read;
    args := Some(read);
  }

  /** One turn of the loop over the arguments. */
  lemma NextArgument(sizes: seq<nat>, i: nat, read: seq<seq<Byte>>, s: Socket)
    requires i < |sizes|
    ensures var got, all := Take(s, sizes[i]), Joined(read, ReadArgs(sizes[i..], s));
            all == if |got.bytes| < sizes[i] then Arguments(None, got.rest)
                   else Joined(read + [got.bytes], ReadArgs(sizes[i + 1..], got.rest))
  {
    hide Take, Weight;
    assert sizes[i..][1..] == sizes[i + 1..] && sizes[i..][0] == sizes[i];
    var got := Take(s, sizes[i]);
    var later := ReadArgs(sizes[i + 1..], got.rest);
    if later.args.Some? { Regroup(read, [got.bytes], later.args.value); }
  }

  function Joined(read: seq<seq<Byte>>, later: Arguments): Arguments {
    if later.args.None? then later else Arguments(Some(read + later.args.value), later.rest)
  }

  /** What is on a socket after n reads that took other bytes from its front. */
  function Awaited(s: Socket, n: nat): Socket
    decreases n
  {
    if n == 0 then s else Awaited(Await(s), n - 1)
  }

  /** Taking bytes that have arrived. */
  lemma TakeHere(bytes: seq<Byte>, rest: seq<Byte>, later: seq<seq<Byte>>)
    ensures Take(Socket(bytes + rest, later), |bytes|) == Got(bytes, Await(Socket(rest, later)))
  {
    var t, u := Await(Socket(bytes + rest, later)), Await(Socket(rest, later));
    assert t.here == bytes + u.here;
    assert t.here[..|bytes|] == bytes && t.here[|bytes|..] == u.here;
  }

  lemma {:induction false} ReadArgsRoundTrip(
    args: seq<seq<Byte>>, sizes: seq<nat>, rest: seq<Byte>, later: seq<seq<Byte>>)
    requires |args| == |sizes| && forall i :: 0 <= i < |args| ==> |args[i]| == sizes[i]
    ensures ReadArgs(sizes, Socket(Flatten(args) + rest, later))
         == Arguments(Some(args), Awaited(Socket(rest, later), |args|))
    decreases |args|
  {
    hide Take, Weight, Await;
    if args == [] {
      assert Flatten(args) + rest == rest;
    } else {
      var after := Flatten(args[1..]) + rest;
      Regroup(args[0], Flatten(args[1..]), rest);
      TakeHere(args[0], after, later);
      AwaitKeepsFront(Flatten(args[1..]), rest, later);
      var t := Await(Socket(rest, later));
      ReadArgsRoundTrip(args[1..], sizes[1..], t.here, t.later);
      assert args == [args[0]] + args[1..];
    }
  }

  lemma AwaitKeepsFront(front: seq<Byte>, rest: seq<Byte>, later: seq<seq<Byte>>)
    ensures var t := Await(Socket(rest, later));
            Await(Socket(front + rest, later)) == Socket(front + t.here, t.later)
  {
    if later != [] {
      Regroup(front, rest, later[0]);
    }
  }

  function Submissions(rs: seq<Request>): (r: seq<Served>)
    ensures |r| == |rs| && forall i :: 0 <= i < |rs| ==> r[i] == Submitted(rs[i])
  {
    seq(|rs|, i requires 0 <= i < |rs| => Submitted(rs[i]))
  }

  lemma ServeOne(functions: Functions, r: Request, rest: seq<Byte>, later: seq<seq<Byte>>)
    requires WellFormed(functions, r)
    ensures Serve(functions, Socket(Flatten(Pieces(r)) + rest, later))
         == [Submitted(r)] + Serve(functions, Awaited(Socket(rest, later), |Pieces(r)|))
  {
    var h, args := RequestHeader(OP_SUBMIT_TASK, r.fid, r.tid), Flatten(r.args);
    Regroup(h, args, rest);
    SubmissionHeader(functions, r.fid, r.tid, args + rest, later);
    AwaitKeepsFront(args, rest, later);
    var t := Await(Socket(rest, later));
    ReadArgsRoundTrip(r.args, functions[r.fid].argSizes, t.here, t.later);
    hide Serve, Await, RequestHeader, ReadArgs;
  }

  /** The user function is applied to exactly the buffers the caller passed. */
  lemma UnpackRoundTrip(functions: Functions, r: Request)
    requires WellFormed(functions, r)
    ensures functions[r.fid].Run(r.args) == functions[r.fid].fn(r.args)
  {
    var f := functions[r.fid];
    assert forall i :: 0 <= i < |r.args| ==> r.args[i][..f.argSizes[i]] == r.args[i];
    assert f.Unpack(r.args) == r.args;
  }

  /** For every list of well-formed requests that has arrived, whatever follows it and whenever, the service
      reads back exactly that list. */
  lemma {:induction false} RequestsRoundTrip(
    functions: Functions, rs: seq<Request>, rest: seq<Byte>, later: seq<seq<Byte>>)
    requires AllWellFormed(functions, rs)
    ensures Serve(functions, Socket(Flatten(AllPieces(rs)) + rest, later))
         == Submissions(rs) + Serve(functions, Awaited(Socket(rest, later), |AllPieces(rs)|))
    decreases |rs|
  {
    hide Serve, Await;
    if rs == [] {
      assert Flatten(AllPieces(rs)) + rest == rest;
      assert [] + Serve(functions, Socket(rest, later)) == Serve(functions, Socket(rest, later));
    } else {
      var p, q := Pieces(rs[0]), AllPieces(rs[1..]);
      FlattenConcat(p, q);
      Regroup(Flatten(p), Flatten(q), rest);
      ServeOne(functions, rs[0], Flatten(q) + rest, later);
      AwaitedKeepsFront(Flatten(q), rest, later, |p|);
      var t := Awaited(Socket(rest, later), |p|);
      RequestsRoundTrip(functions, rs[1..], t.here, t.later);
      AwaitedAdds(Socket(rest, later), |p|, |q|);
      var end := Serve(functions, Awaited(t, |q|));
      assert [Submitted(rs[0])] + (Submissions(rs[1..]) + end) == Submissions(rs) + end;
    }
  }

  lemma {:induction false} AwaitedKeepsFront(front: seq<Byte>, rest: seq<Byte>, later: seq<seq<Byte>>, n: nat)
    ensures var t := Awaited(Socket(rest, later), n);
            Awaited(Socket(front + rest, later), n) == Socket(front + t.here, t.later)
    decreases n
  {
    if n > 0 {
      AwaitKeepsFront(front, rest, later);
      var t := Await(Socket(rest, later));
      AwaitedKeepsFront(front, t.here, t.later, n - 1);
    }
  }

  lemma {:induction false} AwaitedAdds(s: Socket, m: nat, n: nat)
    ensures Awaited(s, m + n) == Awaited(Awaited(s, m), n)
    decreases m
  {
    if m > 0 { AwaitedAdds(Await(s), m - 1, n); }
  }

  /** n times the receive timeout, with nothing new. */
  function Silence(n: nat): (batches: seq<seq<Byte>>)
    ensures |batches| == n && forall i :: 0 <= i < n ==> batches[i] == []
  {
    seq(n, _ => [])
  }

  lemma SilentAwait(here: seq<Byte>, n: nat, late: seq<seq<Byte>>)
    requires n > 0
    ensures Await(Socket(here, Silence(n) + late)) == Socket(here, Silence(n - 1) + late)
  {
    assert (Silence(n) + late)[0] == [] && (Silence(n) + late)[1..] == Silence(n - 1) + late && here + [] == here;
  }

  /** The first i arguments are there, and only part of the next one. */
  lemma {:induction false} ReadArgsShort(
    args: seq<seq<Byte>>, sizes: seq<nat>, i: nat, part: seq<Byte>, late: seq<seq<Byte>>)
    requires i < |sizes| && |args| == i && (forall j :: 0 <= j < i ==> |args[j]| == sizes[j]) && |part| < sizes[i]
    ensures ReadArgs(sizes, Socket(Flatten(args) + part, Silence(i + 1) + late)) == Arguments(None, Socket([], late))
    decreases i
  {
    hide Await, Weight;
    if i == 0 {
      assert Flatten(args) + part == part && Silence(0) + late == late;
      SilentAwait(part, 1, late);
      assert part[..|part|] == part && part[|part|..] == [];
    } else {
      var after := Flatten(args[1..]) + part;
      Regroup(args[0], Flatten(args[1..]), part);
      TakeHere(args[0], after, Silence(i + 1) + late);
      SilentAwait(after, i + 1, late);
      ReadArgsShort(args[1..], sizes[1..], i - 1, part, late);
      hide Take;
    }
  }

  /** A well-formed request of which some argument has not arrived, or only in part, when the read of it gives up: the
      service reports bad arguments, the part is gone, and the late bytes are taken for a header. */
  lemma LateArgumentIsMisread(functions: Functions, r: Request, i: nat, n: nat, late: seq<seq<Byte>>)
    requires WellFormed(functions, r) && i < |r.args| && n < |r.args[i]|
    ensures Serve(functions, Socket(Flatten(Pieces(r)[..i + 1]) + r.args[i][..n], Silence(i + 2) + late))
         == [BadArguments(r.tid)] + Serve(functions, Socket([], late))
  {
    var h, args, part := RequestHeader(OP_SUBMIT_TASK, r.fid, r.tid), r.args[..i], r.args[i][..n];
    hide Serve, Take, Weight, Await, RequestHeader, ReadArgs;
    assert Pieces(r)[..i + 1] == [h] + args && ([h] + args)[1..] == args;
    Regroup(h, Flatten(args), part);
    SubmissionHeader(functions, r.fid, r.tid, Flatten(args) + part, Silence(i + 2) + late);
    SilentAwait(Flatten(args) + part, i + 2, late);
    ReadArgsShort(args, functions[r.fid].argSizes, i, part, late);
  }

  lemma SubmissionHeader(functions: Functions, fid: int, tid: int, body: seq<Byte>, later: seq<seq<Byte>>)
    requires IsInt32(fid) && IsInt32(tid) && fid in functions
    ensures var r := ReadArgs(functions[fid].argSizes, Await(Socket(body, later)));
            var item := if r.args.None? then BadArguments(tid) else Submitted(Request(fid, tid, r.args.value));
            Serve(functions, Socket(RequestHeader(OP_SUBMIT_TASK, fid, tid) + body, later))
            == [item] + Serve(functions, r.rest)
  {
    var h, s := RequestHeader(OP_SUBMIT_TASK, fid, tid), Socket(RequestHeader(OP_SUBMIT_TASK, fid, tid) + body, later);
    TakeHere(h, body, later);
    RequestHeaderRoundTrip(OP_SUBMIT_TASK, fid, tid);
    assert Weight(s) > 0;
    hide Take, Weight, Await, RequestHeader, ReadArgs;
  }

  /** Headers that are not the submission of a known function: a close request ends the loop, another operation is
      ignored, an unknown function is reported, and the loop goes on with what follows the header. */
  lemma OtherHeaders(functions: Functions, op: int, fid: int, tid: int, rest: seq<Byte>, later: seq<seq<Byte>>)
    requires IsInt32(op) && IsInt32(fid) && IsInt32(tid)
    ensures var served := Serve(functions, Socket(RequestHeader(op, fid, tid) + rest, later));
            var after := Serve(functions, Await(Socket(rest, later)));
            && (op == OP_CLOSE_CONN ==> served == [Closed])
            && (op != OP_CLOSE_CONN && op != OP_SUBMIT_TASK ==> served == [Ignored(op)] + after)
            && (op == OP_SUBMIT_TASK && fid !in functions ==> served == [UnknownFunction(fid, tid)] + after)
  {
    var h, s := RequestHeader(op, fid, tid), Socket(RequestHeader(op, fid, tid) + rest, later);
    TakeHere(h, rest, later);
    RequestHeaderRoundTrip(op, fid, tid);
    assert Weight(s) > 0;
    hide Take, Weight, Await, RequestHeader, ReadArgs;
    assert [Closed] + [] == [Closed];
  }

  // ---------------------------------------------------------------- responses

  /** A client's record of a task. */
  datatype Entry = Entry(fid: int, retSize: nat, completed: bool, code: int, value: seq<Byte>)

  datatype Reply = Reply(tid: int, value: seq<Byte>)

  function ResponseHeader(code: int, tid: int): (h: seq<Byte>)
    requires IsInt32(code) && IsInt32(tid)
    ensures |h| == RESPONSE_SIZE
  {
    Le32(code) + Le32(tid)
  }

  lemma ResponseHeaderRoundTrip(code: int, tid: int)
    requires IsInt32(code) && IsInt32(tid)
    ensures var h := ResponseHeader(code, tid); FromLe32(h[..4]) == code && FromLe32(h[4..8]) == tid
  {
    var h := ResponseHeader(code, tid);
    assert h[..4] == Le32(code) && h[4..8] == Le32(tid);
    Le32RoundTrip(code);
    Le32RoundTrip(tid);
  }

  function ReplyPieces(r: Reply): (p: seq<seq<Byte>>)
    requires IsInt32(r.tid)
    ensures |p| == 2
  {
    [ResponseHeader(0, r.tid), r.value]
  }

  predicate EncodableReplies(rs: seq<Reply>) {
    forall i :: 0 <= i < |rs| ==> IsInt32(rs[i].tid)
  }

  function AllReplyPieces(rs: seq<Reply>): seq<seq<Byte>>
    requires EncodableReplies(rs)
  {
    if rs == [] then [] else ReplyPieces(rs[0]) + AllReplyPieces(rs[1..])
  }

  lemma {:induction false} AllReplyPiecesAppend(rs: seq<Reply>, r: Reply)
    requires EncodableReplies(rs) && IsInt32(r.tid)
    ensures EncodableReplies(rs + [r])
    ensures AllReplyPieces(rs + [r]) == AllReplyPieces(rs) + ReplyPieces(r)
  {
    assert (rs + [r])[|rs|] == r && forall i :: 0 <= i < |rs| ==> (rs + [r])[i] == rs[i];
    if rs == [] {
      assert rs + [r] == [r] && [r][1..] == [];
    } else {
      assert (rs + [r])[1..] == rs[1..] + [r];
      AllReplyPiecesAppend(rs[1..], r);
      Regroup(ReplyPieces(rs[0]), AllReplyPieces(rs[1..]), ReplyPieces(r));
    }
  }

  type Table = map<int, Entry>

  function Complete(e: Entry, value: seq<Byte>): Entry {
    e.(completed := true, code := 0, value := value)
  }

  /** What the client made of a stream. Every read takes what it finds: part of a header is dropped, and part of a
      value is an exception, `failed`. */
  datatype Received = Received(table: Table, failed: bool)

  function Receive(table: Table, stream: seq<Byte>): Received
    decreases |stream|
  {
    if |stream| < RESPONSE_SIZE then Received(table, false)
    else
      var code, tid := FromLe32(stream[..4]), FromLe32(stream[4..8]);
      var rest := stream[RESPONSE_SIZE..];
      if tid !in table then Receive(table, rest)
      else if code != 0 then Receive(table[tid := table[tid].(completed := true, code := code)], rest)
      else if |rest| < table[tid].retSize then Received(table, true)
      else
        var n := table[tid].retSize;
        Receive(table[tid := Complete(table[tid], rest[..n])], rest[n..])
  }

  /** The client's connection object: the counter, the table it updates in place, and what it wrote. */
  class CConn {
    var taskCounter: nat
    var tasks: Table
    var written: seq<Byte>

    constructor ()
      ensures taskCounter == 0 && tasks == map[] && written == []
    {
      taskCounter, tasks, written := 0, map[], [];
    }

    /** iTask: draw an id, record the task, and write the request piece by piece. */
    method ITask(fid: int, retSize: nat, args: seq<seq<Byte>>) returns (tid: int)
      requires IsInt32(fid)
      modifies this
      ensures tid == Wrap32(old(taskCounter)) && taskCounter == old(taskCounter) + 1
      ensures tasks == if tid in old(tasks) then old(tasks)
                       else old(tasks)[tid := Entry(fid, retSize, false, -1, [])]
      ensures written == old(written) + Flatten(Pieces(Request(fid, tid, args)))
    {
      tid := Wrap32(taskCounter);
      taskCounter := taskCounter + 1;
      if tid !in tasks {
        tasks := tasks[tid := Entry(fid, retSize, false, -1, [])];
      }
      WritePieces(Pieces(Request(fid, tid, args)));
    }

    method WritePieces(pieces: seq<seq<Byte>>)
      modifies this`written
      ensures written == old(written) + Flatten(pieces)
    {
      var i := 0;
      while i < |pieces|
        invariant 0 <= i <= |pieces|
        invariant written + Flatten(pieces[i..]) == old(written) + Flatten(pieces)
      {
        FlattenFrom(pieces, i);
        assert written + (pieces[i] + Flatten(pieces[i + 1..])) == (written + pieces[i]) + Flatten(pieces[i + 1..]);
        written := written + pieces[i];
        i := i + 1;
      }
      assert written + [] == written;
    }

    /** checkCompletedTasks over the bytes that have arrived. */
    method CheckCompletedTasks(stream: seq<Byte>) returns (failed: bool)
      requires forall tid :: tid in tasks ==> tasks[tid].retSize <= RECV_BUFF_SIZE
      modifies this`tasks
      ensures Received(tasks, failed) == Receive(old(tasks), stream)
    {
      var rest := stream;
      failed := false;
      while rest != []
        invariant !failed && Receive(old(tasks), stream) == Receive(tasks, rest)
        decreases |rest|
      {
        if |rest| < RESPONSE_SIZE {
          return;
        }
        var code, tid := FromLe32(rest[..4]), FromLe32(rest[4..8]);
        rest := rest[RESPONSE_SIZE..];
        if tid in tasks {
          if code == 0 {
            var n := tasks[tid].retSize;
            if |rest| < n {
              failed := true;
              return;
            }
            tasks := tasks[tid := Complete(tasks[tid], rest[..n])];
            rest := rest[n..];
          } else {
            tasks := tasks[tid := tasks[tid].(completed := true, code := code)];
          }
        }
      }
    }
  }

  lemma ReceiveOne(table: Table, r: Reply, later: seq<Byte>)
    requires IsInt32(r.tid) && r.tid in table && |r.value| == table[r.tid].retSize
    ensures Receive(table, Flatten(ReplyPieces(r)) + later)
         == Receive(table[r.tid := Complete(table[r.tid], r.value)], later)
  {
    var h, s := ResponseHeader(0, r.tid), Flatten(ReplyPieces(r)) + later;
    FlattenOne(r.value);
    assert ReplyPieces(r)[1..] == [r.value];
    assert s == h + (r.value + later);
    assert s[..4] == h[..4] && s[4..8] == h[4..8] && s[RESPONSE_SIZE..] == r.value + later;
    ResponseHeaderRoundTrip(0, r.tid);
    assert (r.value + later)[..|r.value|] == r.value && (r.value + later)[|r.value|..] == later;
  }

  predicate Answers(rs: seq<Reply>, tid: int) {
    exists i :: 0 <= i < |rs| && rs[i].tid == tid
  }

  /** What the service sends a client: a result, or a header alone, which refuses a request. */
  datatype Response = Result(tid: int, value: seq<Byte>) | Notice(tid: int, code: int) {
    function Code(): int {
      if Result? then 0 else code
    }
  }

  predicate Writable(r: Response) {
    IsInt32(r.tid) && IsInt32(r.Code())
  }

  /** A result is of the size the client knows for the task. A header alone has a code other than 0, or an id the
      client does not know. */
  predicate Sensible(table: Table, r: Response) {
    match r
    case Result(tid, value) => tid in table && |value| == table[tid].retSize <= RECV_BUFF_SIZE
    case Notice(tid, code) => code != 0 || tid !in table
  }

  function ResponseBytes(r: Response): seq<Byte>
    requires Writable(r)
  {
    ResponseHeader(r.Code(), r.tid) + if r.Result? then r.value else []
  }

  function AllResponses(rs: seq<Response>): seq<Byte>
    requires forall i :: 0 <= i < |rs| ==> Writable(rs[i])
  {
    if rs == [] then [] else ResponseBytes(rs[0]) + AllResponses(rs[1..])
  }

  /** The client reads a code other than 0 for a task it knows: it records the code, keeps the value, and goes on with
      the next header. A header for an unknown id changes nothing. */
  lemma ReceiveNotice(table: Table, tid: int, code: int, later: seq<Byte>)
    requires IsInt32(tid) && IsInt32(code) && (code != 0 || tid !in table)
    ensures tid !in table ==> Receive(table, ResponseHeader(code, tid) + later) == Receive(table, later)
    ensures tid in table ==>
              var e := Entry(table[tid].fid, table[tid].retSize, true, code, table[tid].value);
              Receive(table, ResponseHeader(code, tid) + later) == Receive(table[tid := e], later)
  {
    var h, s := ResponseHeader(code, tid), ResponseHeader(code, tid) + later;
    assert s[..4] == h[..4] && s[4..8] == h[4..8] && s[RESPONSE_SIZE..] == later;
    ResponseHeaderRoundTrip(code, tid);
    hide ResponseHeader;
  }

  /** The record of the task of a response after it. */
  function Recorded(e: Entry, r: Response): Entry {
    Entry(e.fid, e.retSize, true, r.Code(), if r.Result? then r.value else e.value)
  }

  lemma ReceiveResponse(table: Table, r: Response, later: seq<Byte>)
    requires Writable(r) && Sensible(table, r)
    ensures var t := if r.tid in table then table[r.tid := Recorded(table[r.tid], r)] else table;
            Receive(table, ResponseBytes(r) + later) == Receive(t, later)
  {
    hide Receive, ResponseHeader;
    if r.Result? {
      FlattenOne(r.value);
      assert ReplyPieces(Reply(r.tid, r.value))[1..] == [r.value];
      ReceiveOne(table, Reply(r.tid, r.value), later);
    } else {
      assert ResponseHeader(r.code, r.tid) + [] == ResponseHeader(r.code, r.tid);
      ReceiveNotice(table, r.tid, r.code, later);
    }
  }

  predicate NoneFor(rs: seq<Response>, tid: int) {
    forall i :: 0 <= i < |rs| ==> rs[i].tid != tid
  }

  predicate NoResultFor(rs: seq<Response>, tid: int) {
    forall i :: 0 <= i < |rs| ==> rs[i].Notice? || rs[i].tid != tid
  }

  /** Response i is the last one for the task. */
  predicate LastFor(rs: seq<Response>, i: nat, tid: int) {
    i < |rs| && rs[i].tid == tid && NoneFor(rs[i + 1..], tid)
  }

  /** Response i is the last result for the task. */
  predicate LastResult(rs: seq<Response>, i: nat, tid: int) {
    i < |rs| && rs[i].Result? && rs[i].tid == tid && NoResultFor(rs[i + 1..], tid)
  }

  /** What a client's record of a task is after some responses: the code of the last one, the value of the last
      result, and otherwise as it was. */
  ghost predicate RecordedBy(e: Entry, rs: seq<Response>, tid: int, e': Entry) {
    && e'.fid == e.fid && e'.retSize == e.retSize
    && (forall i: nat :: LastFor(rs, i, tid) ==> e'.completed && e'.code == rs[i].Code())
    && (forall i: nat :: LastResult(rs, i, tid) ==> e'.value == rs[i].value)
    && (NoneFor(rs, tid) ==> e' == e)
    && (NoResultFor(rs, tid) ==> e'.value == e.value)
  }

  lemma LastInTail(rs: seq<Response>, i: nat, tid: int)
    requires 0 < i < |rs|
    ensures LastFor(rs, i, tid) ==> LastFor(rs[1..], i - 1, tid)
    ensures LastResult(rs, i, tid) ==> LastResult(rs[1..], i - 1, tid)
  {
    assert rs[1..][i - 1] == rs[i] && rs[1..][i..] == rs[i + 1..];
  }

  lemma NoneInTail(rs: seq<Response>, tid: int)
    requires rs != []
    ensures NoneFor(rs, tid) <==> rs[0].tid != tid && NoneFor(rs[1..], tid)
    ensures NoResultFor(rs, tid) <==> (rs[0].Notice? || rs[0].tid != tid) && NoResultFor(rs[1..], tid)
  {
    assert forall j :: 0 < j < |rs| ==> rs[j] == rs[1..][j - 1];
  }

  lemma RecordedFirst(e: Entry, rs: seq<Response>, tid: int, e': Entry)
    requires rs != [] && RecordedBy(if rs[0].tid == tid then Recorded(e, rs[0]) else e, rs[1..], tid, e')
    ensures RecordedBy(e, rs, tid, e')
  {
    hide NoneFor, NoResultFor;
    NoneInTail(rs, tid);
    forall i: nat | LastFor(rs, i, tid)
      ensures e'.completed && e'.code == rs[i].Code()
    {
      if i > 0 { LastInTail(rs, i, tid); }
    }
    forall i: nat | LastResult(rs, i, tid)
      ensures e'.value == rs[i].value
    {
      if i > 0 { LastInTail(rs, i, tid); }
    }
  }

  /** For every list of results and refusals, in any order, for known and unknown tasks, and whatever follows: the
      client consumes exactly the list, records for each task the code of the last response and the value of the last
      result, and leaves every other task alone. */
  lemma {:induction false} RepliesRoundTrip(table: Table, rs: seq<Response>, rest: seq<Byte>) returns (t: Table)
    requires forall i :: 0 <= i < |rs| ==> Writable(rs[i]) && Sensible(table, rs[i])
    ensures Receive(table, AllResponses(rs) + rest) == Receive(t, rest) && t.Keys == table.Keys
    ensures forall tid :: tid in table ==> RecordedBy(table[tid], rs, tid, t[tid])
    decreases |rs|
  {
    hide Receive, RecordedBy, ResponseBytes;
    if rs == [] {
      t := table;
      assert AllResponses(rs) + rest == rest;
      forall tid | tid in table
        ensures RecordedBy(table[tid], rs, tid, table[tid])
      {
        NothingRecorded(table[tid], tid);
      }
    } else {
      var r, later := rs[0], AllResponses(rs[1..]) + rest;
      var one := if r.tid in table then table[r.tid := Recorded(table[r.tid], r)] else table;
      Regroup(ResponseBytes(r), AllResponses(rs[1..]), rest);
      ReceiveResponse(table, r, later);
      forall i | 0 <= i < |rs| - 1
        ensures Sensible(one, rs[1..][i])
      {
        assert Sensible(table, rs[i + 1]);
      }
      t := RepliesRoundTrip(one, rs[1..], rest);
      assert one.Keys == table.Keys;
      forall tid | tid in table
        ensures RecordedBy(table[tid], rs, tid, t[tid])
      {
        RecordedFirst(table[tid], rs, tid, t[tid]);
      }
    }
  }

  /** How a stream of responses can end: part of a header is dropped, and a result that is not all there is an
      exception and leaves the record as it was. */
  lemma StreamEnds(table: Table, part: seq<Byte>, tid: int, value: seq<Byte>)
    ensures |part| < RESPONSE_SIZE ==> Receive(table, part) == Received(table, false)
    ensures IsInt32(tid) && tid in table && |value| < table[tid].retSize ==>
              Receive(table, ResponseHeader(0, tid) + value) == Received(table, true)
  {
    if IsInt32(tid) {
      var h, s := ResponseHeader(0, tid), ResponseHeader(0, tid) + value;
      ResponseHeaderRoundTrip(0, tid);
      assert s[..4] == h[..4] && s[4..8] == h[4..8] && s[RESPONSE_SIZE..] == value;
    }
  }

  lemma NothingRecorded(e: Entry, tid: int)
    ensures RecordedBy(e, [], tid, e)
  {
  }

  /** How a task ended in the service: its code and, if that is 0, its value. */
  datatype Ending = Ending(tid: int, code: int, value: seq<Byte>)

  /** What the service writes for a task that ended: the header says 0 in any case, and a failed task has no
      value to write. */
  function Announced(e: Ending): seq<Byte>
    requires IsInt32(e.tid)
  {
    ResponseHeader(0, e.tid) + if e.code == 0 then e.value else []
  }

  /** The client waits for these tasks, and they ended in the ways given. */
  predicate Expected(table: Table, es: seq<Ending>) {
    && (forall i :: 0 <= i < |es| ==> WaitedFor(table, es[i]))
    && (forall i, j :: 0 <= i < j < |es| ==> es[i].tid != es[j].tid)
  }

  predicate WaitedFor(table: Table, e: Ending) {
    && IsInt32(e.tid) && e.tid in table && !table[e.tid].completed && table[e.tid].retSize <= RECV_BUFF_SIZE
    && (e.code == 0 ==> |e.value| == table[e.tid].retSize)
  }

  function AllAnnounced(es: seq<Ending>): seq<Byte>
    requires forall i :: 0 <= i < |es| ==> IsInt32(es[i].tid)
  {
    if es == [] then [] else Announced(es[0]) + AllAnnounced(es[1..])
  }

  /** The client's record agrees with how the task ended. */
  predicate Agrees(table: Table, e: Ending) {
    && e.tid in table && table[e.tid].completed && table[e.tid].code == e.code
    && (e.code == 0 ==> table[e.tid].value == e.value)
  }

  /** The endings before the first failed one, or all of them. */
  function Good(es: seq<Ending>): (n: nat)
    ensures n <= |es| && (n < |es| ==> es[n].code != 0) && forall i :: 0 <= i < n ==> es[i].code == 0
  {
    if es == [] || es[0].code != 0 then 0 else 1 + Good(es[1..])
  }

  /** Announcements of tasks that ended with code 0 are read one by one. */
  lemma {:induction false} GoodOnesAgree(table: Table, es: seq<Ending>, rest: seq<Byte>) returns (t: Table)
    requires Expected(table, es) && forall i :: 0 <= i < |es| ==> es[i].code == 0
    ensures Receive(table, AllAnnounced(es) + rest) == Receive(t, rest)
    ensures forall i :: 0 <= i < |es| ==> Agrees(t, es[i])
    ensures t.Keys == table.Keys
    ensures forall tid :: tid in table && (forall i :: 0 <= i < |es| ==> es[i].tid != tid) ==> t[tid] == table[tid]
    decreases |es|
  {
    if es == [] {
      t := table;
      assert AllAnnounced(es) + rest == rest;
    } else {
      var e, later := es[0], AllAnnounced(es[1..]) + rest;
      var one := table[e.tid := Complete(table[e.tid], e.value)];
      Regroup(Announced(e), AllAnnounced(es[1..]), rest);
      FlattenOne(e.value);
      assert WaitedFor(table, e) && ReplyPieces(Reply(e.tid, e.value))[1..] == [e.value];
      ReceiveOne(table, Reply(e.tid, e.value), later);
      forall i | 0 <= i < |es| - 1
        ensures WaitedFor(one, es[1..][i])
      {
        assert WaitedFor(table, es[i + 1]);
      }
      hide Receive, Announced;
      t := GoodOnesAgree(one, es[1..], rest);
      assert forall i :: 0 < i < |es| ==> es[1..][i - 1] == es[i];
      assert t[e.tid] == one[e.tid];
    }
  }

  /** What the client makes of the announcement of one failed task and nothing after it. */
  lemma FailedDisagrees(table: Table, e: Ending)
    requires WaitedFor(table, e) && e.code != 0
    ensures var t := Receive(table, Announced(e)).table;
            !Agrees(t, e) && t.Keys == table.Keys && forall tid :: tid in table && tid != e.tid ==> t[tid] == table[tid]
  {
    var h := ResponseHeader(0, e.tid);
    assert Announced(e) == h && h[RESPONSE_SIZE..] == [];
    ResponseHeaderRoundTrip(0, e.tid);
  }

  /** Once the first failed task has been announced, the records before it agree and its own does not. */
  lemma UpToFailed(table: Table, good: seq<Ending>, e: Ending)
    requires Expected(table, good) && WaitedFor(table, e) && forall i :: 0 <= i < |good| ==> good[i].tid != e.tid
    requires (forall i :: 0 <= i < |good| ==> good[i].code == 0) && e.code != 0
    ensures var t := Receive(table, AllAnnounced(good) + Announced(e)).table;
            !Agrees(t, e) && forall i :: 0 <= i < |good| ==> Agrees(t, good[i])
  {
    var t := GoodOnesAgree(table, good, Announced(e));
    assert t[e.tid] == table[e.tid];
    FailedDisagrees(t, e);
    hide Receive, Announced, AllAnnounced;
    forall i | 0 <= i < |good|
      ensures Agrees(Receive(t, Announced(e)).table, good[i])
    {
      assert Agrees(t, good[i]);
    }
  }

  /** For every list of tasks that ended: when all ended with code 0 every record of the client agrees; if not,
      then once the first failed one has been announced the records before it agree and its own does not. */
  lemma AnnouncedRightIff(table: Table, es: seq<Ending>)
    requires Expected(table, es)
    ensures Good(es) == |es| ==> forall i :: 0 <= i < |es| ==> Agrees(Receive(table, AllAnnounced(es)).table, es[i])
    ensures Good(es) < |es| ==>
              && !Agrees(Receive(table, AllAnnounced(es[..Good(es) + 1])).table, es[Good(es)])
              && forall i :: 0 <= i < Good(es) ==> Agrees(Receive(table, AllAnnounced(es[..Good(es) + 1])).table, es[i])
  {
    var n := Good(es);
    var good := es[..n];
    ExpectedFirst(table, es, n);
    hide Receive, Announced, AllAnnounced, Good, Agrees;
    if n == |es| {
      var t := GoodOnesAgree(table, es, []);
      assert good == es && AllAnnounced(es) + [] == AllAnnounced(es);
      assert Receive(t, []) == Received(t, false) by { ReceiveNothing(t); }
    } else {
      assert WaitedFor(table, es[n]);
      AnnouncedAppend(good, es[n]);
      UpToFailed(table, good, es[n]);
      assert es[..n + 1] == good + [es[n]];
      assert forall i :: 0 <= i < n ==> good[i] == es[i];
    }
  }

  lemma ExpectedFirst(table: Table, es: seq<Ending>, n: nat)
    requires Expected(table, es) && n <= |es|
    ensures Expected(table, es[..n])
  {
    assert forall i :: 0 <= i < n ==> es[..n][i] == es[i] && WaitedFor(table, es[i]);
  }

  lemma ReceiveNothing(table: Table)
    ensures Receive(table, []) == Received(table, false)
  {
  }

  lemma {:induction false} AnnouncedAppend(es: seq<Ending>, e: Ending)
    requires (forall i :: 0 <= i < |es| ==> IsInt32(es[i].tid)) && IsInt32(e.tid)
    ensures forall i :: 0 <= i < |es + [e]| ==> IsInt32((es + [e])[i].tid)
    ensures AllAnnounced(es + [e]) == AllAnnounced(es) + Announced(e)
    decreases |es|
  {
    if es == [] {
      assert (es + [e])[1..] == [] && Announced(e) + [] == Announced(e);
    } else {
      assert (es + [e])[1..] == es[1..] + [e];
      AnnouncedAppend(es[1..], e);
      Regroup(Announced(es[0]), AllAnnounced(es[1..]), Announced(e));
    }
  }

  /** After a failed task even a task that ended with code 0 can be misreported: the client takes the header of
      the next response for the missing value, reports the failed task as successful, and the next task's
      record does not agree with how that task ended. */
  lemma FailedTaskLooksCompleted(table: Table, failed: Ending, next: Ending)
    requires WaitedFor(table, failed) && WaitedFor(table, next) && failed.tid != next.tid
    requires failed.code != 0 && table[failed.tid].retSize == RESPONSE_SIZE
    requires next.code == 0 && |next.value| < RESPONSE_SIZE
    ensures var r := Receive(table, AllAnnounced([failed, next]));
            && r.table == table[failed.tid := Complete(table[failed.tid], ResponseHeader(0, next.tid))]
            && !Agrees(r.table, failed) && !Agrees(r.table, next)
  {
    var h, h', v := ResponseHeader(0, failed.tid), ResponseHeader(0, next.tid), next.value;
    assert [failed, next][1..] == [next] && [next][1..] == [] && h + [] == h;
    assert AllAnnounced([next]) == Announced(next) + [] == h' + v;
    var s := AllAnnounced([failed, next]);
    assert s == h + (h' + v);
    assert s[..4] == h[..4] && s[4..8] == h[4..8] && s[RESPONSE_SIZE..] == h' + v;
    assert (h' + v)[..RESPONSE_SIZE] == h' && (h' + v)[RESPONSE_SIZE..] == v;
    ResponseHeaderRoundTrip(0, failed.tid);
  }
}
