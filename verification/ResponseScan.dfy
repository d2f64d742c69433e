/** One pass of the response thread over its list of id pairs (sw/src/cService.cpp): the entry of a
    finished task is answered and erased while the list is being iterated, after which the iterator
    is advanced once more. */
module ResponseScan {
  import opened Bytes

  /** What is left after a pass. `looks` is what the scheduler says of each entry when the pass comes to it, while
      tasks go on finishing; `writes` is how many headers can be written before a write fails and ends the pass. */
  function Left<T>(es: seq<T>, looks: seq<bool>, writes: nat): seq<T>
    requires |looks| == |es|
  {
    if es == [] then []
    else if !looks[0] then es[..1] + Left(es[1..], looks[1..], writes)
    else if writes == 0 then es
    else if |es| == 1 then []
    else es[1..2] + Left(es[2..], looks[2..], writes - 1)
  }

  /** The entries a pass answers, in order. */
  function Sent<T>(es: seq<T>, looks: seq<bool>, writes: nat): seq<T>
    requires |looks| == |es|
  {
    if es == [] then []
    else if !looks[0] then Sent(es[1..], looks[1..], writes)
    else if writes == 0 then []
    else if |es| == 1 then es
    else es[..1] + Sent(es[2..], looks[2..], writes - 1)
  }

  /** The pass as the loop it is. */
  method Pass<T>(entries: seq<T>, looks: seq<bool>, writes: nat) returns (left: seq<T>, sent: seq<T>)
    requires |looks| == |entries|
    ensures left == Left(entries, looks, writes) && sent == Sent(entries, looks, writes)
  {
    left, sent := entries, [];
    var tmp, w := 0, writes;
    ghost var front, rest, asked := [], entries, looks;
    hide Left, Sent;
    assert front + rest == entries && front + Left(rest, asked, w) == Left(rest, asked, w);
    assert sent + Sent(rest, asked, w) == Sent(rest, asked, w);
    NothingLeft<T>(w);
    while tmp < |left|
      invariant left == front + rest && |front| == tmp && |rest| == |asked| && tmp + |sent| + |rest| == |looks|
      invariant looks[tmp + |sent|..] == asked
      invariant Left(entries, looks, writes) == front + Left(rest, asked, w)
      invariant Sent(entries, looks, writes) == sent + Sent(rest, asked, w)
      decreases |left| - tmp
    {
      Turn(front, rest, sent, asked, w);
      assert left[tmp] == rest[0] && left[..tmp] == front && left[tmp + 1..] == rest[1..];
      assert looks[tmp + |sent|] == asked[0] && looks[tmp + |sent| + 1..] == asked[1..];
      if looks[tmp + |sent|] {
        if w == 0 {
          return;
        }
        w := w - 1;
        sent := sent + [left[tmp]];
        left := left[..tmp] + left[tmp + 1..];
        rest, asked := rest[1..], asked[1..];
      }
      if tmp < |left| {
        assert left == (front + [rest[0]]) + rest[1..];
        assert looks[tmp + |sent| + 1..] == asked[1..];
        tmp := tmp + 1;
        front, rest, asked := front + [rest[0]], rest[1..], asked[1..];
      }
    }
    NothingLeft<T>(w);
    assert front + [] == front && sent + [] == sent;
  }

  lemma NothingLeft<T>(writes: nat)
    ensures Left<T>([], [], writes) == [] && Sent<T>([], [], writes) == []
  {
  }

  /** One turn of the loop, by what the iterator stands on. */
  lemma Turn<T>(front: seq<T>, rest: seq<T>, sent: seq<T>, looks: seq<bool>, w: nat)
    requires rest != [] && |looks| == |rest|
    ensures !looks[0] ==>
              && front + Left(rest, looks, w) == (front + [rest[0]]) + Left(rest[1..], looks[1..], w)
              && sent + Sent(rest, looks, w) == sent + Sent(rest[1..], looks[1..], w)
    ensures looks[0] && w == 0 ==> Left(rest, looks, w) == rest && sent + Sent(rest, looks, w) == sent
    ensures looks[0] && w > 0 && |rest| == 1 ==>
              && Left(rest, looks, w) == Left(rest[1..], looks[1..], w - 1)
              && sent + Sent(rest, looks, w) == (sent + [rest[0]]) + Sent(rest[1..], looks[1..], w - 1)
    ensures looks[0] && w > 0 && |rest| > 1 ==>
              && front + Left(rest, looks, w) == (front + [rest[1..][0]]) + Left(rest[1..][1..], looks[1..][1..], w - 1)
              && sent + Sent(rest, looks, w) == (sent + [rest[0]]) + Sent(rest[1..][1..], looks[1..][1..], w - 1)
  {
    assert rest[..1] == [rest[0]];
    if !looks[0] {
      Regroup(front, rest[..1], Left(rest[1..], looks[1..], w));
    } else if w > 0 && |rest| == 1 {
      assert rest + [] == rest;
    } else if w > 0 {
      assert rest[1..][1..] == rest[2..] && looks[1..][1..] == looks[2..] && rest[1..2] == [rest[1]];
      Regroup(front, rest[1..2], Left(rest[2..], looks[2..], w - 1));
      Regroup(sent, rest[..1], Sent(rest[2..], looks[2..], w - 1));
    }
  }

  // ---------------------------------------------------------------- one pass

  function Count<T>(es: seq<T>, p: T -> bool): nat {
    if es == [] then 0 else (if p(es[0]) then 1 else 0) + Count(es[1..], p)
  }

  lemma CountCons<T>(x: T, es: seq<T>, p: T -> bool)
    ensures Count([x] + es, p) == (if p(x) then 1 else 0) + Count(es, p)
  {
    assert ([x] + es)[1..] == es;
  }

  ghost predicate Conserves<T>(es: seq<T>, looks: seq<bool>, writes: nat)
    requires |looks| == |es|
  {
    multiset(Left(es, looks, writes)) + multiset(Sent(es, looks, writes)) == multiset(es)
  }

  lemma KeepFirst<T>(es: seq<T>, looks: seq<bool>, writes: nat)
    requires es != [] && |looks| == |es| && !looks[0] && Conserves(es[1..], looks[1..], writes)
    ensures Conserves(es, looks, writes)
  {
    assert es[..1] + es[1..] == es;
  }

  lemma SendFirstKeepSecond<T>(es: seq<T>, looks: seq<bool>, writes: nat)
    requires |es| > 1 && |looks| == |es| && looks[0] && writes > 0 && Conserves(es[2..], looks[2..], writes - 1)
    ensures Conserves(es, looks, writes)
  {
    assert es[..1] + (es[1..2] + es[2..]) == es;
  }

  /** Nothing is dropped and nothing is answered twice, whatever finishes during the pass. */
  lemma {:induction false} PassConserves<T>(es: seq<T>, looks: seq<bool>, writes: nat)
    requires |looks| == |es|
    ensures Conserves(es, looks, writes)
    decreases |es|
  {
    hide Conserves;
    if es == [] || (looks[0] && writes == 0) || |es| == 1 {
      PassOverAtMostOne(es, looks, writes);
    } else if !looks[0] {
      PassConserves(es[1..], looks[1..], writes);
      KeepFirst(es, looks, writes);
    } else {
      PassConserves(es[2..], looks[2..], writes - 1);
      SendFirstKeepSecond(es, looks, writes);
    }
  }

  lemma PassOverAtMostOne<T>(es: seq<T>, looks: seq<bool>, writes: nat)
    requires |looks| == |es| && (es == [] || (looks[0] && writes == 0) || |es| == 1)
    ensures Conserves(es, looks, writes)
  {
    if |es| == 1 {
      assert es[1..] == [] && es[..1] == es && es + [] == es;
    }
  }

  /** What the scheduler says lies between what was finished when the pass began and what is when it ends. */
  ghost predicate Between<T>(es: seq<T>, before: T -> bool, looks: seq<bool>, after: T -> bool)
    requires |looks| == |es|
  {
    forall i :: 0 <= i < |es| ==> (before(es[i]) ==> looks[i]) && (looks[i] ==> after(es[i]))
  }

  /** Only finished entries are answered; and if the writes succeed, an entry that was finished when the pass began
      is left only behind one that is answered, so at least half of those are answered. */
  lemma {:induction false} PassAnswers<T>(
    es: seq<T>, before: T -> bool, looks: seq<bool>, after: T -> bool, writes: nat)
    requires |looks| == |es| && Between(es, before, looks, after)
    ensures forall i :: 0 <= i < |Sent(es, looks, writes)| ==> after(Sent(es, looks, writes)[i])
    ensures writes >= |es| ==> Count(Left(es, looks, writes), before) <= |Sent(es, looks, writes)|
    ensures writes >= |es| ==> Count(es, before) <= 2 * |Sent(es, looks, writes)|
    decreases |es|
  {
    if es != [] {
      if !looks[0] {
        PassAnswers(es[1..], before, looks[1..], after, writes);
        CountCons(es[0], Left(es[1..], looks[1..], writes), before);
        assert es[..1] == [es[0]];
      } else if writes > 0 && |es| > 1 {
        PassAnswers(es[2..], before, looks[2..], after, writes - 1);
        CountCons(es[1], Left(es[2..], looks[2..], writes - 1), before);
        CountCons(es[1], es[2..], before);
        assert es[1..2] == [es[1]] && es[1..] == [es[1]] + es[2..];
      }
    }
  }

  // ---------------------------------------------------------------- passes while nothing else finishes

  function Looks<T>(es: seq<T>, finished: T -> bool): (r: seq<bool>)
    ensures |r| == |es| && forall i :: 0 <= i < |es| ==> r[i] == finished(es[i])
  {
    seq(|es|, i requires 0 <= i < |es| => finished(es[i]))
  }

  /** A pass whose writes succeed leaves at most half of the finished entries, rounded down. */
  lemma {:induction false} PassHalves<T>(es: seq<T>, finished: T -> bool, writes: nat)
    ensures var left, sent := Left(es, Looks(es, finished), writes), Sent(es, Looks(es, finished), writes);
            && Count(left, finished) + |sent| == Count(es, finished)
            && (writes >= |es| ==> Count(left, finished) <= Count(es, finished) / 2)
    decreases |es|
  {
    var looks := Looks(es, finished);
    if es != [] {
      assert looks[1..] == Looks(es[1..], finished);
      if !looks[0] {
        PassHalves(es[1..], finished, writes);
        CountCons(es[0], Left(es[1..], looks[1..], writes), finished);
        assert es[..1] == [es[0]];
      } else if writes > 0 && |es| > 1 {
        assert looks[2..] == Looks(es[2..], finished);
        PassHalves(es[2..], finished, writes - 1);
        CountCons(es[1], Left(es[2..], looks[2..], writes - 1), finished);
        CountCons(es[1], es[2..], finished);
        assert es[1..2] == [es[1]] && es[1..] == [es[1]] + es[2..];
      }
    }
  }

  lemma {:induction false} EveryOther<T>(es: seq<T>, looks: seq<bool>, writes: nat, i: nat)
    requires |looks| == |es| && writes >= |es| && forall j :: 0 <= j < |es| ==> looks[j]
    ensures |Sent(es, looks, writes)| == (|es| + 1) / 2 && |Left(es, looks, writes)| == |es| / 2
    ensures i < |Sent(es, looks, writes)| ==> Sent(es, looks, writes)[i] == es[2 * i]
    ensures i < |Left(es, looks, writes)| ==> Left(es, looks, writes)[i] == es[2 * i + 1]
    decreases |es|
  {
    if |es| > 1 { EveryOther(es[2..], looks[2..], writes - 1, if i == 0 then 0 else i - 1); }
  }

  /** A pass over n finished entries answers exactly every other one, starting with the first. */
  lemma PassAnswersHalf<T>(es: seq<T>, looks: seq<bool>, writes: nat)
    requires |looks| == |es| && writes >= |es| && forall i :: 0 <= i < |es| ==> looks[i]
    ensures |Sent(es, looks, writes)| == (|es| + 1) / 2 && |Left(es, looks, writes)| == |es| / 2
    ensures forall i :: 0 <= i < |Sent(es, looks, writes)| ==> Sent(es, looks, writes)[i] == es[2 * i]
    ensures forall i :: 0 <= i < |Left(es, looks, writes)| ==> Left(es, looks, writes)[i] == es[2 * i + 1]
  {
    hide Sent, Left;
    EveryOther(es, looks, writes, 0);
    forall i | 0 <= i < |Sent(es, looks, writes)|
      ensures Sent(es, looks, writes)[i] == es[2 * i]
    {
      EveryOther(es, looks, writes, i);
    }
    forall i | 0 <= i < |Left(es, looks, writes)|
      ensures Left(es, looks, writes)[i] == es[2 * i + 1]
    {
      EveryOther(es, looks, writes, i);
    }
  }

  /** The list after k passes whose writes succeed, with nothing added meanwhile. */
  function After<T>(es: seq<T>, finished: T -> bool, k: nat): seq<T> {
    if k == 0 then es else var l := After(es, finished, k - 1); Left(l, Looks(l, finished), |l|)
  }

  /** n halved k times, rounded down each time. */
  function Halved(n: nat, k: nat): nat {
    if k == 0 then n else Halved(n, k - 1) / 2
  }

  /** floor(log2 n), the position of the highest bit. */
  function Log2(n: nat): nat {
    if n < 2 then 0 else 1 + Log2(n / 2)
  }

  lemma {:induction false} HalvedFirst(n: nat, k: nat)
    ensures Halved(n, k + 1) == Halved(n / 2, k)
  {
    if k > 0 { HalvedFirst(n, k - 1); }
  }

  lemma {:induction false} HalvedByLog2(n: nat)
    requires n > 0
    ensures Halved(n, Log2(n)) == 1 && Halved(n, Log2(n) + 1) == 0
  {
    if n >= 2 {
      HalvedByLog2(n / 2);
      HalvedFirst(n, Log2(n / 2));
    }
  }

  /** Each pass at least halves what is finished and unanswered, whatever unfinished entries lie between. */
  lemma {:induction false} PassesSuffice<T>(es: seq<T>, finished: T -> bool, k: nat)
    ensures Count(After(es, finished, k), finished) <= Halved(Count(es, finished), k)
  {
    if k > 0 {
      PassesSuffice(es, finished, k - 1);
      var l := After(es, finished, k - 1);
      PassHalves(l, finished, |l|);
    }
  }

  lemma {:induction false} AfterAllFinished<T>(es: seq<T>, finished: T -> bool, k: nat)
    requires forall i :: 0 <= i < |es| ==> finished(es[i])
    ensures |After(es, finished, k)| == Halved(|es|, k)
    ensures forall i :: 0 <= i < |After(es, finished, k)| ==> finished(After(es, finished, k)[i])
  {
    if k > 0 {
      AfterAllFinished(es, finished, k - 1);
      var l := After(es, finished, k - 1);
      PassAnswersHalf(l, Looks(l, finished), |l|);
    }
  }

  /** floor(log2 n) + 1 passes answer n finished entries, lying among any number of unfinished ones;
      and when all entries are finished no fewer passes do. */
  lemma PassesNeeded<T>(es: seq<T>, finished: T -> bool)
    requires Count(es, finished) > 0
    ensures Count(After(es, finished, Log2(Count(es, finished)) + 1), finished) == 0
    ensures (forall i :: 0 <= i < |es| ==> finished(es[i])) ==> |After(es, finished, Log2(|es|))| == 1
  {
    HalvedByLog2(Count(es, finished));
    PassesSuffice(es, finished, Log2(Count(es, finished)) + 1);
    if forall i :: 0 <= i < |es| ==> finished(es[i]) {
      CountAll(es, finished);
      AfterAllFinished(es, finished, Log2(|es|));
    }
  }

  lemma {:induction false} CountAll<T>(es: seq<T>, finished: T -> bool)
    requires forall i :: 0 <= i < |es| ==> finished(es[i])
    ensures Count(es, finished) == |es|
  {
    if es != [] { CountAll(es[1..], finished); }
  }

  // ---------------------------------------------------------------- one entry can wait long

  /** Only the last two of n entries are found finished. */
  function LastTwo(n: nat): (looks: seq<bool>)
    ensures |looks| == n && forall i :: 0 <= i < n ==> looks[i] == (i + 2 >= n)
  {
    seq(n, i => i + 2 >= n)
  }

  lemma {:induction false} SkipsLast<T>(es: seq<T>, writes: nat)
    requires |es| >= 2 && writes > 0
    ensures Left(es, LastTwo(|es|), writes) == es[..|es| - 2] + [es[|es| - 1]]
    ensures Sent(es, LastTwo(|es|), writes) == [es[|es| - 2]]
  {
    var looks := LastTwo(|es|);
    if |es| == 2 {
      assert es[2..] == [] && looks[2..] == [] && es[1..2] == [es[1]] && es[..1] == [es[0]];
    } else {
      assert looks[1..] == LastTwo(|es| - 1);
      SkipsLast(es[1..], writes);
      assert es[..1] + es[1..][..|es| - 3] == es[..|es| - 2];
    }
  }

  /** The list after k passes during each of which the last entry but one has just finished. */
  function Slowly<T>(es: seq<T>, k: nat): seq<T> {
    if k == 0 then es else var l := Slowly(es, k - 1); Left(l, LastTwo(|l|), |l|)
  }

  /** A finished entry at position p can be left by p passes whose writes succeed, so that p + 1 may be needed. */
  lemma {:induction false} CanWaitLong<T>(es: seq<T>, k: nat)
    requires k < |es|
    ensures Slowly(es, k) == es[..|es| - 1 - k] + [es[|es| - 1]]
  {
    if k == 0 {
      assert es == es[..|es| - 1] + [es[|es| - 1]];
    } else {
      CanWaitLong(es, k - 1);
      var l := Slowly(es, k - 1);
      SkipsLast(l, |l|);
    }
  }
}
