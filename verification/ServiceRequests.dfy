/** The way of requests, in every interleaving: on a connection on which no read of an argument gave up,
    what was read, what is on the socket and what is yet to be written are always the requests in flight,
    so the service reads what the client asked. */
module ServiceRequests {
  import opened Bytes
  import opened Scheduling
  import opened Framing
  import opened Service

  predicate AskedOk(functions: Functions, asked: map<int, Request>) {
    forall tid :: tid in asked ==> asked[tid].tid == tid && WellFormed(functions, asked[tid])
  }

  /** The ids still to be drawn are unused. */
  ghost predicate CounterOk<V>(counter: nat, used: map<int, V>) {
    forall j: nat :: counter <= j < TWO_TO_32 ==> Wrap32(j) !in used
  }

  predicate InflightOk(u: UpLink) {
    forall i :: 0 <= i < |u.inflight| ==> u.inflight[i].tid in u.asked && u.asked[u.inflight[i].tid] == u.inflight[i]
  }

  /** The pieces of the requests in flight that have been written and not yet read. */
  function OnSocket(u: UpLink): seq<seq<Byte>>
    requires Encodable(u.inflight) && |u.got| + |u.unsent| <= |AllPieces(u.inflight)|
  {
    AllPieces(u.inflight)[|u.got|..|AllPieces(u.inflight)| - |u.unsent|]
  }

  /** What was read, what is on the socket and what is yet to be written are, piece by piece, the requests in
      flight. */
  predicate Framed(u: UpLink)
    requires Encodable(u.inflight)
  {
    var pieces := AllPieces(u.inflight);
    && (if u.inflight == [] then u.got == [] else u.got <= Pieces(u.inflight[0]))
    && |u.got| + |u.unsent| <= |pieces|
    && pieces[|pieces| - |u.unsent|..] == u.unsent
    && u.up == Flatten(OnSocket(u))
  }

  ghost predicate UpOk(functions: Functions, u: UpLink) {
    && AskedOk(functions, u.asked) && CounterOk(u.counter, u.asked)
    && AllWellFormed(functions, u.inflight) && InflightOk(u) && (!u.gaveUp ==> Framed(u))
  }

  lemma CounterKeeps<V>(counter: nat, used: map<int, V>, v: V)
    requires CounterOk(counter, used) && counter < TWO_TO_32
    ensures Wrap32(counter) !in used
    ensures CounterOk(counter + 1, used[Wrap32(counter) := v])
  {
    forall j: nat | counter + 1 <= j < TWO_TO_32
      ensures Wrap32(j) !in used[Wrap32(counter) := v]
    {
      if Wrap32(j) == Wrap32(counter) { Wrap32Injective(j, counter); }
    }
  }

  lemma BeginFramed(u: UpLink, r: Request, u': UpLink)
    requires Encodable(u.inflight) && Framed(u) && u.unsent == [] && IsInt32(r.fid) && IsInt32(r.tid)
    requires u'.inflight == u.inflight + [r] && u'.unsent == Pieces(r) && u'.up == u.up && u'.got == u.got
    ensures Encodable(u'.inflight) && Framed(u')
  {
    AllPiecesAppend(u.inflight, r);
    var p := AllPieces(u.inflight);
    assert AllPieces(u'.inflight)[|p|..] == Pieces(r);
    assert OnSocket(u') == OnSocket(u);
    assert u'.inflight[0] == if u.inflight == [] then r else u.inflight[0];
  }

  lemma BeginRecorded(functions: Functions, u: UpLink, r: Request, u': UpLink)
    requires AskedOk(functions, u.asked) && AllWellFormed(functions, u.inflight) && InflightOk(u)
    requires WellFormed(functions, r) && r.tid !in u.asked
    requires u'.asked == u.asked[r.tid := r] && u'.inflight == u.inflight + [r]
    ensures AskedOk(functions, u'.asked) && AllWellFormed(functions, u'.inflight) && InflightOk(u')
  {
    hide WellFormed;
  }

  lemma BeginKeeps(functions: Functions, u: UpLink, fid: int, args: seq<seq<Byte>>)
    requires UpOk(functions, u) && CanBegin(functions, u, fid, args)
    ensures UpOk(functions, BeginUp(u, fid, args)) && Wrap32(u.counter) !in u.asked
  {
    var r, u' := Request(fid, Wrap32(u.counter), args), BeginUp(u, fid, args);
    CounterKeeps(u.counter, u.asked, r);
    if !u.gaveUp { BeginFramed(u, r, u'); }
    BeginRecorded(functions, u, r, u');
    hide Framed, WellFormed, AskedOk, InflightOk, CounterOk, Pieces;
  }

  lemma WriteKeeps(functions: Functions, u: UpLink)
    requires UpOk(functions, u) && u.unsent != []
    ensures UpOk(functions, Write(u))
  {
    if !u.gaveUp {
      var p, j := AllPieces(u.inflight), |AllPieces(u.inflight)| - |u.unsent|;
      assert p[j] == p[j..][0] && p[j + 1..] == p[j..][1..];
      assert OnSocket(Write(u)) == OnSocket(u) + [p[j]];
      FlattenConcat(OnSocket(u), [p[j]]);
      FlattenOne(p[j]);
    }
  }

  /** In the middle of the request at the front, what is on the socket begins with its next piece. */
  lemma FrontOnSocket(u: UpLink)
    requires Encodable(u.inflight) && Framed(u) && u.inflight != [] && |u.got| < |Pieces(u.inflight[0])|
    ensures OnSocket(u) != [] ==>
              && OnSocket(u)[0] == Pieces(u.inflight[0])[|u.got|]
              && u.up == OnSocket(u)[0] + Flatten(OnSocket(u)[1..])
  {
    hide Pieces;
    assert AllPieces(u.inflight) == Pieces(u.inflight[0]) + AllPieces(u.inflight[1..]);
  }

  /** What the request thread reads next is as long as the next piece of the request at the front. */
  lemma NextSize(functions: Functions, r: Request, got: seq<seq<Byte>>)
    requires WellFormed(functions, r) && got <= Pieces(r) && NextRead(functions, got).Some?
    ensures |got| < |Pieces(r)| && NextRead(functions, got).value == |Pieces(r)[|got|]| > 0
  {
    RequestHeaderRoundTrip(OP_SUBMIT_TASK, r.fid, r.tid);
    if got != [] {
      assert got[0] == Pieces(r)[0];
      assert HeaderFid(got) == Some(r.fid);
      assert |got| < |Pieces(r)| ==> Pieces(r)[|got|] == r.args[|got| - 1];
    }
  }

  /** The next read is for the next piece of the request at the front, and finds all of it or nothing. */
  lemma NextPiece(functions: Functions, u: UpLink)
    requires UpOk(functions, u) && !u.gaveUp && NextRead(functions, u.got).Some?
    ensures OnSocket(u) != [] ==>
              && u.inflight != [] && |u.got| < |Pieces(u.inflight[0])|
              && OnSocket(u)[0] == Pieces(u.inflight[0])[|u.got|]
              && |OnSocket(u)[0]| == NextRead(functions, u.got).value
              && u.up == OnSocket(u)[0] + Flatten(OnSocket(u)[1..])
    ensures CanRead(functions, u) <==> OnSocket(u) != []
    ensures OnSocket(u) == [] ==> u.up == []
  {
    if u.inflight != [] {
      NextSize(functions, u.inflight[0], u.got);
      FrontOnSocket(u);
    }
    hide NextRead, Pieces, WellFormed, AskedOk, InflightOk, CounterOk;
  }

  lemma ReadKeeps(functions: Functions, u: UpLink)
    requires UpOk(functions, u) && CanRead(functions, u)
    ensures UpOk(functions, Read(functions, u))
  {
    if !u.gaveUp {
      NextPiece(functions, u);
      ReadFramed(u, NextRead(functions, u.got).value, Read(functions, u));
    }
    hide NextRead, Pieces, WellFormed, AskedOk, CounterOk, Framed;
  }

  lemma ReadFramed(u: UpLink, n: nat, u': UpLink)
    requires Encodable(u.inflight) && Framed(u) && u.inflight != [] && OnSocket(u) != []
    requires |u.got| < |Pieces(u.inflight[0])| && OnSocket(u)[0] == Pieces(u.inflight[0])[|u.got|]
    requires |OnSocket(u)[0]| == n && u.up == OnSocket(u)[0] + Flatten(OnSocket(u)[1..])
    requires u'.inflight == u.inflight && u'.unsent == u.unsent
    requires u'.got == u.got + [u.up[..n]] && u'.up == u.up[n..]
    ensures Framed(u')
  {
    hide Pieces;
    assert u.up[..n] == OnSocket(u)[0] && u.up[n..] == Flatten(OnSocket(u)[1..]);
    assert OnSocket(u') == OnSocket(u)[1..];
  }

  /** Between requests a read that gives up has taken nothing. */
  lemma GiveUpKeeps(functions: Functions, u: UpLink)
    requires UpOk(functions, u) && CanGiveUp(functions, u)
    ensures UpOk(functions, DropUp(u))
    ensures !DropUp(u).gaveUp ==> DropUp(u) == u && u.got == []
  {
    if !DropUp(u).gaveUp { NextPiece(functions, u); }
  }

  /** What the service reads as a header is one, so it is never dismissed. */
  lemma NeverDismissed(functions: Functions, u: UpLink)
    requires UpOk(functions, u) && !u.gaveUp
    ensures !CanDismiss(functions, u.got)
  {
    if u.got != [] {
      var r := u.inflight[0];
      RequestHeaderRoundTrip(OP_SUBMIT_TASK, r.fid, r.tid);
      assert u.got[0] == Pieces(r)[0];
    }
  }

  /** A whole request decodes to the one at the front. */
  lemma WholeIsFront(functions: Functions, u: UpLink)
    requires UpOk(functions, u) && !u.gaveUp && HasWhole(functions, u.got)
    ensures u.inflight != [] && u.got == Pieces(u.inflight[0]) && Decoded(u.got) == u.inflight[0]
  {
    var r := u.inflight[0];
    RequestHeaderRoundTrip(OP_SUBMIT_TASK, r.fid, r.tid);
    assert u.got[0] == Pieces(r)[0];
    assert u.got == Pieces(r);
  }

  lemma TakeKeeps(functions: Functions, u: UpLink)
    requires UpOk(functions, u) && HasWhole(functions, u.got)
    ensures UpOk(functions, TakeWhole(u))
  {
    if !u.gaveUp {
      WholeIsFront(functions, u);
      var p, rest := AllPieces(u.inflight), u.inflight[1..];
      assert p == u.got + AllPieces(rest);
      assert OnSocket(TakeWhole(u)) == OnSocket(u);
    }
  }

  ghost predicate RequestsInv(s: State) {
    forall k :: 0 <= k < |s.conns| ==> UpOk(s.sched.cfg.functions, s.conns[k].u)
  }

  lemma SameConfig(s: State, step: Step)
    ensures Apply(s, step).sched.cfg == s.sched.cfg
  {
    if step.SchedulerPass? { PassEffect(s.sched, step.reloadOk); }
  }

  lemma NextUpOk(s: State, step: Step)
    requires !step.SchedulerPass? && step.k < |s.conns| && UpOk(s.sched.cfg.functions, s.conns[step.k].u)
    ensures UpOk(s.sched.cfg.functions, NextUp(s, step))
  {
    var u, fs := s.conns[step.k].u, s.sched.cfg.functions;
    match step {
      case Begin(_, fid, args) => if CanBegin(fs, u, fid, args) { BeginKeeps(fs, u, fid, args); }
      case WritePiece(_) => if u.unsent != [] { WriteKeeps(fs, u); }
      case ReadPiece(_) => if CanRead(fs, u) { ReadKeeps(fs, u); }
      case GiveUp(_) => if CanGiveUp(fs, u) { GiveUpKeeps(fs, u); }
      case Dismiss(_) => if CanDismiss(fs, u.got) && !u.gaveUp { NeverDismissed(fs, u); }
      case Draw(_) => if HasWhole(fs, u.got) { TakeKeeps(fs, u); }
      case _ =>
    }
  }

  lemma RequestsStep(s: State, step: Step)
    requires RequestsInv(s)
    ensures RequestsInv(Apply(s, step))
  {
    hide UpOk, NextUp, NextQueue, NextDown, NextSched;
    SameConfig(s, step);
    if !step.SchedulerPass? && step.k < |s.conns| {
      NextUpOk(s, step);
    }
  }

  lemma RequestsInitially(s: State)
    requires Initial(s)
    ensures RequestsInv(s)
  {
    hide WellTyped;
  }

  lemma {:induction false} RequestsAlways(s: State, steps: seq<Step>)
    requires Initial(s)
    ensures RunSteps(s, steps).sched.cfg == s.sched.cfg
    ensures RequestsInv(RunSteps(s, steps))
  {
    hide RequestsInv, Apply, Initial;
    if steps == [] {
      RequestsInitially(s);
    } else {
      RequestsAlways(s, steps[..|steps| - 1]);
      SameConfig(RunSteps(s, steps[..|steps| - 1]), steps[|steps| - 1]);
      RequestsStep(RunSteps(s, steps[..|steps| - 1]), steps[|steps| - 1]);
    }
  }
}
