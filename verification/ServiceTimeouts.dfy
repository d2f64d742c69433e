/** What the receive timeout of the service does to a request that is written in pieces: a client that is delayed
    between the header and an argument is told that its request failed, and a timeout between two requests is not
    noticed. */
module ServiceTimeouts {
  import opened Bytes
  import opened Scheduling
  import opened Framing
  import opened Service
  import opened ServiceRequests
  import opened ServiceResponses
  import opened ServiceEndToEnd
  import opened ServiceScan
  import opened ServiceProgress

  // ---------------------------------------------------------------- the client reads on

  /** What n reads of the client do. */
  function HearMany(d: DownLink, n: nat): DownLink
    decreases n
  {
    if n == 0 then d else HearMany(Hear(d), n - 1)
  }

  function Listens(k: nat, n: nat): (steps: seq<Step>)
    ensures |steps| == n && forall i :: 0 <= i < n ==> steps[i] == Listen(k)
  {
    seq(n, _ => Listen(k))
  }

  lemma {:induction false} ListensHear(s: State, k: nat, n: nat)
    requires k < |s.conns|
    ensures var t := RunSteps(s, Listens(k, n));
            && |t.conns| == |s.conns| && t.sched == s.sched
            && t.conns[k] == s.conns[k].(d := HearMany(s.conns[k].d, n))
    decreases n
  {
    hide Apply, Hear;
    if n > 0 {
      assert Listens(k, n) == [Listen(k)] + Listens(k, n - 1);
      RunFirst(s, Listen(k), Listens(k, n - 1));
      OneListen(s, k);
      ListensHear(Apply(s, Listen(k)), k, n - 1);
    }
  }

  lemma OneListen(s: State, k: nat)
    requires k < |s.conns|
    ensures var t := Apply(s, Listen(k));
            |t.conns| == |s.conns| && t.sched == s.sched && t.conns[k] == s.conns[k].(d := Hear(s.conns[k].d))
  {
    hide Hear;
    OwnConn(s, Listen(k));
  }

  // ---------------------------------------------------------------- a refusal behind the replies

  /** A read that finds all it wants does not look further. */
  lemma HearEarly(d: DownLink, x: seq<Byte>)
    requires (d.listener.Listening? && |d.down| >= RESPONSE_SIZE) || CanHearValue(d)
    ensures Hear(d.(down := d.down + x)) == Hear(d).(down := Hear(d).down + x)
  {
    var down := d.down + x;
    if d.listener.Listening? {
      assert down[..4] == d.down[..4] && down[4..8] == d.down[4..8];
      assert down[RESPONSE_SIZE..] == d.down[RESPONSE_SIZE..] + x;
    } else {
      var n := d.table[d.listener.tid].retSize;
      assert down[..n] == d.down[..n] && down[n..] == d.down[n..] + x;
    }
  }

  /** Bytes behind a reply that is not yet read wait their turn. */
  lemma HearIgnores(fs: Functions, asked: AskedMap, d: DownLink, answered: seq<Pair>, x: seq<Byte>)
    requires DownOk(fs, asked, d, answered, []) && WellTyped(fs) && d.replies != []
    ensures Hear(d.(down := d.down + x)) == Hear(d).(down := Hear(d).down + x)
  {
    assert |AllReplyPieces(d.replies)| >= 2 && !d.listener.Dead?;
    NextReplyPiece(fs, asked, d, answered, []);
    hide DownOk, WellTyped, CanHearValue, Hear, AllReplyPieces, Flatten;
    HearEarly(d, x);
  }

  /** With every reply read, the refusal is what the client reads, and then there is nothing more. */
  lemma HearRefusal(fs: Functions, asked: AskedMap, d: DownLink, answered: seq<Pair>, tid: int)
    requires DownOk(fs, asked, d, answered, []) && d.replies == [] && tid in asked
    ensures IsInt32(tid) && tid in d.table && d.down == [] && d.listener.Listening?
    ensures Hear(d.(down := ResponseHeader(1, tid))) == d.(table := Refuse(d.table, tid))
    ensures Hear(d.(table := Refuse(d.table, tid))) == d.(table := Refuse(d.table, tid))
  {
    ResponseHeaderRoundTrip(1, tid);
  }

  function Refuse(table: Table, tid: int): Table
    requires tid in table
  {
    table[tid := table[tid].(completed := true, code := 1)]
  }

  /** The records a client keeps of what it asked, once it is told that the request `tid` failed: that one has code
      1, and every other that is completed holds its own result. */
  predicate OnlyRefused(functions: Functions, asked: AskedMap, table: Table, tid: int) {
    && tid in table && table[tid].completed && table[tid].code == 1
    && CompletedRight(functions, asked, table - {tid})
  }

  lemma {:induction false} NothingMore(d: DownLink, n: nat)
    requires Hear(d) == d
    ensures HearMany(d, n) == d
  {
    hide Hear;
    if n > 0 { NothingMore(d, n - 1); }
  }

  lemma RefusalRead(fs: Functions, asked: AskedMap, d: DownLink, answered: seq<Pair>, tid: int, n: nat)
    requires DownOk(fs, asked, d, answered, []) && d.replies == [] && tid in asked && IsInt32(tid) && n > 0
    ensures Behind(d) == 0
    ensures OnlyRefused(fs, asked, HearMany(d.(down := d.down + ResponseHeader(1, tid)), n).table, tid)
  {
    HearRefusal(fs, asked, d, answered, tid);
    assert d.down + ResponseHeader(1, tid) == ResponseHeader(1, tid);
    NothingMore(d.(table := Refuse(d.table, tid)), n - 1);
    hide Hear, TableOk, RepliesOk, DownFramed, AllDelivered, ResponseHeader, IsResult;
  }

  lemma RightSoFar(fs: Functions, asked: AskedMap, d: DownLink, answered: seq<Pair>)
    requires DownOk(fs, asked, d, answered, [])
    ensures Behind(d) >= 0 && CompletedRight(fs, asked, d.table)
  {
    hide CompletedRight, TableOk, RepliesOk, AllDelivered, Arrived;
  }

  /** The refusal is read exactly after the replies before it. */
  lemma {:induction false} RefusalArrives(
    fs: Functions, asked: AskedMap, d: DownLink, answered: seq<Pair>, tid: int, n: nat)
    requires DownOk(fs, asked, d, answered, []) && WellTyped(fs) && tid in asked && IsInt32(tid)
    ensures var t := HearMany(d.(down := d.down + ResponseHeader(1, tid)), n).table;
            if n > Behind(d) then OnlyRefused(fs, asked, t, tid) else CompletedRight(fs, asked, t)
    decreases n
  {
    hide Hear, DownOk, CompletedRight, OnlyRefused, ResponseHeader, WellTyped, Behind;
    RightSoFar(fs, asked, d, answered);
    if n > 0 && d.replies == [] {
      RefusalRead(fs, asked, d, answered, tid, n);
    } else if n > 0 {
      HearIgnores(fs, asked, d, answered, ResponseHeader(1, tid));
      HearingMoves(fs, asked, d, answered);
      HearOk(fs, asked, d, answered, []);
      RefusalArrives(fs, asked, Hear(d), answered, tid, n - 1);
    }
  }

  // ---------------------------------------------------------------- the timeout

  /** The request thread of connection k reads, and the receive timeout can strike; the connection is as the other
      results want it, and no response is half written. */
  predicate CanTimeOut(s: State, k: nat) {
    && k < |s.conns| && s.conns[k].q.requester.Reading? && CanGiveUp(s.sched.cfg.functions, s.conns[k].u)
    && !s.conns[k].u.gaveUp && Clean(s.conns[k].q, s.sched) && !s.conns[k].q.responder.HeaderSent?
  }

  /** What giving up does, between requests and in the middle of one. */
  lemma GivingUp(s: State, k: nat)
    requires RequestsInv(s) && CanTimeOut(s, k)
    ensures var c, t := s.conns[k], Apply(s, GiveUp(k));
            && |t.conns| == |s.conns| && t.sched == s.sched
            && (c.u.got == [] ==> t.conns[k] == c)
            && (c.u.got != [] ==>
                  && c.u.inflight != [] && c.u.inflight[0].tid in c.u.asked && IsInt32(c.u.inflight[0].tid)
                  && t.conns[k].u == DropUp(c.u) && t.conns[k].q == c.q
                  && t.conns[k].d == c.d.(down := c.d.down + ResponseHeader(1, c.u.inflight[0].tid)))
  {
    var c, fs := s.conns[k], s.sched.cfg.functions;
    assert UpOk(fs, c.u);
    OwnConn(s, GiveUp(k));
    if c.u.got == [] {
      GiveUpKeeps(fs, c.u);
      assert c.d.down + [] == c.d.down;
    } else {
      var r := c.u.inflight[0];
      RequestHeaderRoundTrip(OP_SUBMIT_TASK, r.fid, r.tid);
      assert c.u.got[0] == Pieces(r)[0];
    }
  }

  /** Some record says that its request failed. */
  predicate Refused(table: Table) {
    exists tid :: tid in table && table[tid].completed && table[tid].code != 0
  }

  lemma NotRefused(functions: Functions, asked: AskedMap, table: Table)
    requires CompletedRight(functions, asked, table)
    ensures !Refused(table)
  {
  }

  lemma FramedThere(s: State, k: nat)
    requires DownInv(s) && CanTimeOut(s, k)
    ensures WellTyped(s.sched.cfg.functions)
    ensures var c := s.conns[k]; DownOk(s.sched.cfg.functions, c.u.asked, c.d, c.q.answered, [])
  {
    hide DownOk, WellTyped, EndedWell;
    assert ConnDown(s.conns[k], s.sched);
  }

  /** From every reachable state in which the receive timeout can strike on such a connection: after the timeout and
      any number n of reads, the client has been told of a failure exactly when the timeout struck in the middle of
      a request and the client has read past the replies before it. Then the record of that very request has code 1,
      every other completed one holds its own result, and the request has not been executed. */
  lemma TimeoutReportsFailure(s: State, run: seq<Step>, k: nat, n: nat)
    requires Initial(s) && CanTimeOut(RunSteps(s, run), k)
    ensures var c, t := RunSteps(s, run).conns[k], RunSteps(s, run + ([GiveUp(k)] + Listens(k, n)));
            && k < |t.conns| && t.sched == RunSteps(s, run).sched
            && (t.conns[k].u.gaveUp <==> c.u.got != [])
            && (Refused(t.conns[k].d.table) <==> c.u.got != [] && n > Behind(c.d))
            && (Refused(t.conns[k].d.table) ==>
                  && c.u.inflight != []
                  && OnlyRefused(s.sched.cfg.functions, c.u.asked, t.conns[k].d.table, c.u.inflight[0].tid))
  {
    var r, fs := RunSteps(s, run), s.sched.cfg.functions;
    var c := r.conns[k];
    RequestsAlways(s, run);
    DownAlways(s, run);
    FramedThere(r, k);
    GivingUp(r, k);
    hide Apply, RunSteps, Initial, RequestsInv, DownInv, CanTimeOut, DownOk, WellTyped, Hear, Behind, CompletedRight;
    RunStepsAppend(s, run, [GiveUp(k)] + Listens(k, n));
    RunFirst(r, GiveUp(k), Listens(k, n));
    ListensHear(Apply(r, GiveUp(k)), k, n);
    if c.u.got == [] {
      StaysRight(fs, c.u.asked, c.d, c.q.answered, n);
    } else {
      RefusalArrives(fs, c.u.asked, c.d, c.q.answered, c.u.inflight[0].tid, n);
    }
    var table := RunSteps(s, run + ([GiveUp(k)] + Listens(k, n))).conns[k].d.table;
    if CompletedRight(fs, c.u.asked, table) { NotRefused(fs, c.u.asked, table); }
  }

  lemma {:induction false} StaysRight(fs: Functions, asked: AskedMap, d: DownLink, answered: seq<Pair>, n: nat)
    requires DownOk(fs, asked, d, answered, []) && WellTyped(fs)
    ensures CompletedRight(fs, asked, HearMany(d, n).table)
    decreases n
  {
    if n > 0 {
      HearOk(fs, asked, d, answered, []);
      hide Hear, DownOk;
      StaysRight(fs, asked, Hear(d), answered, n - 1);
    }
  }

  // ---------------------------------------------------------------- such states are reached

  /** The client has written the header, and not yet the first argument. */
  lemma HeaderWritten(s: State, k: nat, fid: int, args: seq<seq<Byte>>)
    requires Initial(s) && k < |s.conns| && args != []
    requires WellFormed(s.sched.cfg.functions, Request(fid, Wrap32(0), args))
    ensures IsInt32(fid) && IsInt32(Wrap32(0)) && fid in s.sched.cfg.functions
    ensures var r, t := Request(fid, Wrap32(0), args), Apply(Apply(s, Begin(k, fid, args)), WritePiece(k));
            && |t.conns| == |s.conns| && t.sched == s.sched && t.conns[k].q == EMPTY_QUEUE
            && t.conns[k].u == UpLink(1, args, Pieces(r)[0], [], map[r.tid := r], [r], false)
            && t.conns[k].d.replies == [] && t.conns[k].d.listener.Listening?
  {
    var r, a := Request(fid, Wrap32(0), args), Apply(s, Begin(k, fid, args));
    OwnConn(s, Begin(k, fid, args));
    OwnConn(a, WritePiece(k));
    assert a.conns[k].u == UpLink(1, Pieces(r), [], [], map[r.tid := r], [r], false);
    assert [] + Pieces(r)[0] == Pieces(r)[0];
    hide RequestHeader;
  }

  /** The service has read the header. */
  lemma HeaderRead(s: State, k: nat, r: Request)
    requires k < |s.conns| && WellFormed(s.sched.cfg.functions, r) && r.args != []
    requires s.conns[k].u == UpLink(1, r.args, Pieces(r)[0], [], map[r.tid := r], [r], false)
    requires s.conns[k].q == EMPTY_QUEUE && s.conns[k].d.replies == [] && s.conns[k].d.listener.Listening?
    ensures var t := Apply(s, ReadPiece(k));
            CanTimeOut(t, k) && t.conns[k].u.got != [] && t.conns[k].u.inflight == [r] && Behind(t.conns[k].d) == 0
  {
    var h := Pieces(r)[0];
    OwnConn(s, ReadPiece(k));
    RequestHeaderRoundTrip(OP_SUBMIT_TASK, r.fid, r.tid);
    assert h[..REQUEST_SIZE] == h && h[REQUEST_SIZE..] == [] && [] + [h] == [h];
    assert SizesFit(s.sched.cfg.functions[r.fid]);
  }

  /** For every function with an argument: three steps, and the timeout can strike in the middle of the request. So
      the results about a connection need that no read of an argument gave up on it. */
  lemma CanTimeOutMidRequest(s: State, k: nat, fid: int, args: seq<seq<Byte>>)
    requires Initial(s) && k < |s.conns| && args != []
    requires WellFormed(s.sched.cfg.functions, Request(fid, Wrap32(0), args))
    ensures var r := RunSteps(s, [Begin(k, fid, args), WritePiece(k), ReadPiece(k)]);
            && CanTimeOut(r, k) && r.conns[k].u.got != [] && Behind(r.conns[k].d) == 0
            && r.conns[k].u.inflight == [Request(fid, Wrap32(0), args)]
  {
    hide Apply, WellFormed, Initial, CanTimeOut, Behind;
    var b := Apply(Apply(s, Begin(k, fid, args)), WritePiece(k));
    HeaderWritten(s, k, fid, args);
    HeaderRead(b, k, Request(fid, Wrap32(0), args));
    RunThree(s, Begin(k, fid, args), WritePiece(k), ReadPiece(k));
    hide RunSteps;
  }

  lemma RunThree(s: State, a: Step, b: Step, c: Step)
    ensures RunSteps(s, [a, b, c]) == Apply(Apply(Apply(s, a), b), c)
  {
    hide Apply;
    assert [a, b, c][..2] == [a, b] && [a, b][..1] == [a] && [a][..0] == [];
    assert RunSteps(s, [a]) == Apply(s, a) && RunSteps(s, [a, b]) == Apply(Apply(s, a), b);
  }
}
