/** The way of responses, in every interleaving: on a connection whose answered tasks all ended with
    code 0, the client completes each task with the result of that task's own request. */
module ServiceResponses {
  import opened Bytes
  import opened Scheduling
  import opened Framing
  import opened Service

  type AskedMap = map<int, Request>

  /** v is what the request's own function returns on the request's own arguments. */
  predicate IsResult(functions: Functions, r: Request, v: seq<Byte>) {
    r.fid in functions && functions[r.fid].Run(r.args) == Returned(v)
  }

  predicate TableOk(functions: Functions, asked: AskedMap, table: Table) {
    && table.Keys == asked.Keys
    && forall tid :: tid in table ==>
         IsInt32(tid) && asked[tid].fid in functions && table[tid].retSize == functions[asked[tid].fid].retSize
  }

  predicate RepliesOk(functions: Functions, asked: AskedMap, replies: seq<Reply>) {
    && EncodableReplies(replies)
    && forall i :: 0 <= i < |replies| ==>
          replies[i].tid in asked && IsResult(functions, asked[replies[i].tid], replies[i].value)
  }

  function Skip(d: DownLink): nat {
    if d.listener.Awaiting? then 1 else 0
  }

  /** The pieces of the replies not yet read that are on the socket. */
  function Arrived(d: DownLink, unsent: seq<seq<Byte>>): seq<seq<Byte>>
    requires EncodableReplies(d.replies) && Skip(d) + |unsent| <= |AllReplyPieces(d.replies)|
  {
    AllReplyPieces(d.replies)[Skip(d)..|AllReplyPieces(d.replies)| - |unsent|]
  }

  /** What is on the socket, and what the responder has yet to write of a response it began, are, piece by
      piece, the replies not yet read. */
  predicate DownFramed(d: DownLink, unsent: seq<seq<Byte>>)
    requires EncodableReplies(d.replies)
  {
    var pieces := AllReplyPieces(d.replies);
    && !d.listener.Dead?
    && (d.listener.Awaiting? ==> d.replies != [] && d.replies[0].tid == d.listener.tid)
    && Skip(d) + |unsent| <= |pieces|
    && pieces[|pieces| - |unsent|..] == unsent
    && d.down == Flatten(Arrived(d, unsent))
  }

  predicate CompletedRight(functions: Functions, asked: AskedMap, table: Table) {
    forall tid :: tid in table && table[tid].completed ==>
      table[tid].code == 0 && tid in asked && IsResult(functions, asked[tid], table[tid].value)
  }

  /** Every answered task is completed, or its reply is on the way. */
  predicate AllDelivered(d: DownLink, answered: seq<Pair>) {
    forall i :: 0 <= i < |answered| ==> Delivered(d, answered[i].ctid)
  }

  predicate Delivered(d: DownLink, tid: int) {
    tid in d.table && (d.table[tid].completed || Answers(d.replies, tid))
  }

  predicate DownOk(functions: Functions, asked: AskedMap, d: DownLink, answered: seq<Pair>, unsent: seq<seq<Byte>>) {
    && TableOk(functions, asked, d.table) && RepliesOk(functions, asked, d.replies) && DownFramed(d, unsent)
    && CompletedRight(functions, asked, d.table) && AllDelivered(d, answered)
  }

  // ---------------------------------------------------------------- steps on values

  lemma BeginDownOk(
    functions: Functions, asked: AskedMap, d: DownLink, answered: seq<Pair>, unsent: seq<seq<Byte>>, r: Request)
    requires DownOk(functions, asked, d, answered, unsent) && r.tid !in asked && r.fid in functions && IsInt32(r.tid)
    ensures DownOk(functions, asked[r.tid := r], BeginDown(d, r.tid, r.fid, functions[r.fid].retSize), answered, unsent)
  {
    var d' := BeginDown(d, r.tid, r.fid, functions[r.fid].retSize);
    FramedIgnoresTable(d, d', unsent);
    NewEntry(functions, asked, d.table, r);
    RepliesOkLater(functions, asked, d.replies, r);
    hide DownFramed, TableOk, CompletedRight, RepliesOk;
    DeliveredStill(d, d', answered, r.tid);
    hide AllDelivered;
  }

  lemma DeliveredStill(d: DownLink, d': DownLink, answered: seq<Pair>, tid: int)
    requires AllDelivered(d, answered) && tid !in d.table && d'.replies == d.replies
    requires tid in d'.table && d'.table == d.table[tid := d'.table[tid]]
    ensures AllDelivered(d', answered)
  {
    forall i | 0 <= i < |answered|
      ensures Delivered(d', answered[i].ctid)
    {
      assert Delivered(d, answered[i].ctid);
    }
  }

  lemma NewEntry(functions: Functions, asked: AskedMap, table: Table, r: Request)
    requires TableOk(functions, asked, table) && CompletedRight(functions, asked, table)
    requires r.tid !in asked && r.fid in functions && IsInt32(r.tid)
    ensures var table' := table[r.tid := Entry(r.fid, functions[r.fid].retSize, false, -1, [])];
            && r.tid !in table && TableOk(functions, asked[r.tid := r], table')
            && CompletedRight(functions, asked[r.tid := r], table')
  {
    var table' := table[r.tid := Entry(r.fid, functions[r.fid].retSize, false, -1, [])];
    assert r.tid !in table;
    assert table'.Keys == table.Keys + {r.tid} && asked[r.tid := r].Keys == asked.Keys + {r.tid};
    hide IsResult;
  }

  lemma RepliesOkLater(functions: Functions, asked: AskedMap, replies: seq<Reply>, r: Request)
    requires RepliesOk(functions, asked, replies) && r.tid !in asked
    ensures RepliesOk(functions, asked[r.tid := r], replies)
  {
    hide IsResult;
  }

  lemma FramedIgnoresTable(d: DownLink, d': DownLink, unsent: seq<seq<Byte>>)
    requires EncodableReplies(d.replies) && DownFramed(d, unsent) && d' == d.(table := d'.table)
    ensures DownFramed(d', unsent)
  {
    assert Arrived(d', unsent) == Arrived(d, unsent);
  }

  lemma HeaderDownOk(functions: Functions, asked: AskedMap, d: DownLink, answered: seq<Pair>, p: Pair, v: seq<Byte>)
    requires DownOk(functions, asked, d, answered, []) && p.ctid in asked && IsResult(functions, asked[p.ctid], v)
    ensures var d' := d.(down := d.down + HeaderFor(p.ctid), replies := d.replies + [Reply(p.ctid, v)]);
            DownOk(functions, asked, d', answered + [p], [v])
  {
    var r := Reply(p.ctid, v);
    var d', pieces := d.(down := d.down + HeaderFor(p.ctid), replies := d.replies + [r]), AllReplyPieces(d.replies);
    assert p.ctid in d.table;
    AllReplyPiecesAppend(d.replies, r);
    HeaderArrives(d, r);
    assert d'.replies[|d.replies|].tid == p.ctid;
    forall i | 0 <= i < |answered + [p]|
      ensures Delivered(d', (answered + [p])[i].ctid)
    {
      if i < |answered| {
        assert Delivered(d, answered[i].ctid);
        if Answers(d.replies, answered[i].ctid) {
          var j :| 0 <= j < |d.replies| && d.replies[j].tid == answered[i].ctid;
          assert d'.replies[j].tid == answered[i].ctid;
        }
      }
    }
  }

  lemma HeaderArrives(d: DownLink, r: Reply)
    requires EncodableReplies(d.replies) && DownFramed(d, []) && IsInt32(r.tid)
    requires EncodableReplies(d.replies + [r])
    requires AllReplyPieces(d.replies + [r]) == AllReplyPieces(d.replies) + ReplyPieces(r)
    ensures DownFramed(d.(down := d.down + HeaderFor(r.tid), replies := d.replies + [r]), [r.value])
  {
    var d' := d.(down := d.down + HeaderFor(r.tid), replies := d.replies + [r]);
    var pieces, h := AllReplyPieces(d.replies), HeaderFor(r.tid);
    assert (pieces + ReplyPieces(r))[|pieces| + 1..] == [r.value];
    assert Arrived(d, []) == pieces[Skip(d)..];
    assert Arrived(d', [r.value]) == pieces[Skip(d)..] + [h];
    FlattenConcat(pieces[Skip(d)..], [h]);
    FlattenOne(h);
  }

  lemma ValueDownOk(functions: Functions, asked: AskedMap, d: DownLink, answered: seq<Pair>, v: seq<Byte>)
    requires DownOk(functions, asked, d, answered, [v])
    ensures DownOk(functions, asked, d.(down := d.down + v), answered, [])
  {
    var d', pieces := d.(down := d.down + v), AllReplyPieces(d.replies);
    assert pieces[|pieces| - 1] == v;
    assert Arrived(d', []) == Arrived(d, [v]) + [v];
    FlattenConcat(Arrived(d, [v]), [v]);
    FlattenOne(v);
    assert forall i :: 0 <= i < |answered| ==> Delivered(d, answered[i].ctid);
  }

  /** The next read of the client is for the next piece of the oldest reply not yet read, and finds all of it or
      nothing. */
  lemma NextReplyPiece(functions: Functions, asked: AskedMap, d: DownLink, answered: seq<Pair>, unsent: seq<seq<Byte>>)
    requires DownOk(functions, asked, d, answered, unsent) && WellTyped(functions)
    ensures Arrived(d, unsent) == [] ==> d.down == [] && Hear(d) == d
    ensures Arrived(d, unsent) != [] ==>
              && d.replies != []
              && d.down == Arrived(d, unsent)[0] + Flatten(Arrived(d, unsent)[1..])
              && (d.listener.Listening? ==> Arrived(d, unsent)[0] == ResponseHeader(0, d.replies[0].tid))
              && (d.listener.Awaiting? ==>
                    && CanHearValue(d) && Arrived(d, unsent)[0] == d.replies[0].value
                    && |d.replies[0].value| == d.table[d.replies[0].tid].retSize)
  {
    FirstArrived(d, unsent);
    hide DownFramed, Arrived;
    if d.listener.Awaiting? {
      var r := d.replies[0];
      assert IsResult(functions, asked[r.tid], r.value);
      assert SizesFit(functions[asked[r.tid].fid]);
    }
  }

  lemma FirstArrived(d: DownLink, unsent: seq<seq<Byte>>)
    requires EncodableReplies(d.replies) && DownFramed(d, unsent)
    ensures Skip(d) + |unsent| <= |AllReplyPieces(d.replies)| && !d.listener.Dead?
    ensures d.listener.Awaiting? ==> d.replies != [] && d.replies[0].tid == d.listener.tid
    ensures var arrived := Arrived(d, unsent);
            if arrived == [] then d.down == []
            else
              && d.replies != [] && d.down == arrived[0] + Flatten(arrived[1..])
              && arrived[0] == if d.listener.Awaiting? then d.replies[0].value else ResponseHeader(0, d.replies[0].tid)
  {
    var pieces := AllReplyPieces(d.replies);
    if d.replies != [] {
      assert pieces == ReplyPieces(d.replies[0]) + AllReplyPieces(d.replies[1..]);
      assert pieces[0] == ResponseHeader(0, d.replies[0].tid) && pieces[1] == d.replies[0].value;
    }
  }

  lemma HearHeaderOk(functions: Functions, asked: AskedMap, d: DownLink, answered: seq<Pair>, unsent: seq<seq<Byte>>)
    requires DownOk(functions, asked, d, answered, unsent) && d.listener.Listening? && d.replies != []
    requires Arrived(d, unsent) != []
    requires d.down == ResponseHeader(0, d.replies[0].tid) + Flatten(Arrived(d, unsent)[1..])
    ensures DownOk(functions, asked, Hear(d), answered, unsent)
  {
    var r, later := d.replies[0], Flatten(Arrived(d, unsent)[1..]);
    var h := ResponseHeader(0, r.tid);
    ResponseHeaderRoundTrip(0, r.tid);
    assert d.down[..4] == h[..4] && d.down[4..8] == h[4..8] && d.down[RESPONSE_SIZE..] == later;
    var d' := d.(down := later, listener := Awaiting(r.tid));
    assert Hear(d) == d';
    assert Arrived(d', unsent) == Arrived(d, unsent)[1..];
    assert forall i :: 0 <= i < |answered| ==> Delivered(d, answered[i].ctid);
  }

  lemma ValueRecorded(functions: Functions, asked: AskedMap, table: Table, r: Reply)
    requires TableOk(functions, asked, table) && CompletedRight(functions, asked, table)
    requires r.tid in asked && IsResult(functions, asked[r.tid], r.value)
    ensures var table' := table[r.tid := Complete(table[r.tid], r.value)];
            TableOk(functions, asked, table') && CompletedRight(functions, asked, table')
  {
    hide IsResult;
    assert table[r.tid := Complete(table[r.tid], r.value)].Keys == table.Keys;
  }

  lemma DeliveredOn(d: DownLink, d': DownLink, answered: seq<Pair>)
    requires d.replies != [] && AllDelivered(d, answered) && d.replies[0].tid in d.table && d'.replies == d.replies[1..]
    requires d'.table == d.table[d.replies[0].tid := Complete(d.table[d.replies[0].tid], d.replies[0].value)]
    ensures AllDelivered(d', answered)
  {
    forall i | 0 <= i < |answered|
      ensures Delivered(d', answered[i].ctid)
    {
      var tid := answered[i].ctid;
      assert Delivered(d, tid);
      if tid != d.replies[0].tid && Answers(d.replies, tid) {
        var j :| 0 <= j < |d.replies| && d.replies[j].tid == tid;
        assert d'.replies[j - 1].tid == tid;
      }
    }
  }

  /** The bytes the client takes as the value are the value of that reply. */
  lemma HearValueOk(functions: Functions, asked: AskedMap, d: DownLink, answered: seq<Pair>, unsent: seq<seq<Byte>>)
    requires DownOk(functions, asked, d, answered, unsent) && d.listener.Awaiting? && CanHearValue(d)
    requires Arrived(d, unsent) != [] && d.down == d.replies[0].value + Flatten(Arrived(d, unsent)[1..])
    requires |d.replies[0].value| == d.table[d.replies[0].tid].retSize
    ensures DownOk(functions, asked, Hear(d), answered, unsent)
  {
    var r, later := d.replies[0], Flatten(Arrived(d, unsent)[1..]);
    var d' := DownLink(later, Listening, d.table[r.tid := Complete(d.table[r.tid], r.value)], d.replies[1..]);
    assert d.down[..|r.value|] == r.value && d.down[|r.value|..] == later;
    assert Hear(d) == d';
    ValueLeaves(d, d', unsent);
    ValueRecorded(functions, asked, d.table, r);
    DeliveredOn(d, d', answered);
    hide DownFramed, Arrived, Hear, AllReplyPieces, TableOk, CompletedRight, AllDelivered, IsResult;
  }

  lemma ValueLeaves(d: DownLink, d': DownLink, unsent: seq<seq<Byte>>)
    requires EncodableReplies(d.replies) && DownFramed(d, unsent) && d.listener.Awaiting? && Arrived(d, unsent) != []
    requires d'.listener.Listening? && d'.replies == d.replies[1..] && d'.down == Flatten(Arrived(d, unsent)[1..])
    ensures EncodableReplies(d'.replies) && DownFramed(d', unsent)
  {
    var pieces, rest := AllReplyPieces(d.replies), AllReplyPieces(d'.replies);
    assert pieces == ReplyPieces(d.replies[0]) + rest;
    hide AllReplyPieces, ReplyPieces;
    assert rest == pieces[2..] && |pieces| - |unsent| >= 2;
    assert rest[|rest| - |unsent|..] == pieces[|pieces| - |unsent|..];
    assert Arrived(d', unsent) == Arrived(d, unsent)[1..];
  }

  /** Whatever the client reads next. */
  lemma HearOk(functions: Functions, asked: AskedMap, d: DownLink, answered: seq<Pair>, unsent: seq<seq<Byte>>)
    requires DownOk(functions, asked, d, answered, unsent) && WellTyped(functions)
    ensures DownOk(functions, asked, Hear(d), answered, unsent)
  {
    NextReplyPiece(functions, asked, d, answered, unsent);
    hide DownOk, Hear, WellTyped;
    if Arrived(d, unsent) != [] {
      if d.listener.Listening? {
        HearHeaderOk(functions, asked, d, answered, unsent);
      } else {
        HearValueOk(functions, asked, d, answered, unsent);
      }
    }
  }
}
