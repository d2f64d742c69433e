/** Bytes, little-endian integers, and sequences of pieces written one after another to a stream. */
module Bytes {

  type Byte = x: int | 0 <= x < 256

  datatype Option<+T> = None | Some(value: T)

  // ---------------------------------------------------------------- integers

  function Pow256(n: nat): (r: nat)
    ensures r > 0
  {
    if n == 0 then 1 else 256 * Pow256(n - 1)
  }

  /** The n low bytes of u, least significant first. */
  function ToLe(n: nat, u: nat): (r: seq<Byte>)
    ensures |r| == n
  {
    if n == 0 then [] else [u % 256] + ToLe(n - 1, u / 256)
  }

  function FromLe(bs: seq<Byte>): nat {
    if bs == [] then 0 else bs[0] + 256 * FromLe(bs[1..])
  }

  lemma {:induction false} FromLeBound(bs: seq<Byte>)
    ensures FromLe(bs) < Pow256(|bs|)
  {
    if bs != [] { FromLeBound(bs[1..]); }
  }

  lemma {:induction false} LeRoundTrip(n: nat, u: nat)
    requires u < Pow256(n)
    ensures FromLe(ToLe(n, u)) == u
  {
    if n > 0 {
      LeRoundTrip(n - 1, u / 256);
      assert ToLe(n, u)[1..] == ToLe(n - 1, u / 256);
    }
  }

  lemma {:induction false} FromLeInjective(a: seq<Byte>, b: seq<Byte>)
    requires |a| == |b| && FromLe(a) == FromLe(b)
    ensures a == b
  {
    if a != [] {
      FromLeInjective(a[1..], b[1..]);
      assert a == [a[0]] + a[1..] && b == [b[0]] + b[1..];
    }
  }

  lemma LessThanOne(b: int, d: int)
    requires 0 < b && b * d < b
    ensures d < 1
  {
  }

  lemma Quotient(a: int, b: nat, q: int)
    requires b > 0 && b * q <= a < b * q + b
    ensures a / b == q
  {
    var t := a / b;
    assert a == b * t + a % b;
    assert b * (q - t) == b * q - b * t && b * (t - q) == b * t - b * q;
    LessThanOne(b, q - t);
    LessThanOne(b, t - q);
  }

  const TWO_TO_31 := 0x8000_0000
  const TWO_TO_32 := 0x1_0000_0000
  const TWO_TO_63 := 0x8000_0000_0000_0000
  const TWO_TO_64 := 0x1_0000_0000_0000_0000

  predicate IsInt32(v: int) {
    -TWO_TO_31 <= v < TWO_TO_31
  }

  predicate IsInt64(v: int) {
    -TWO_TO_63 <= v < TWO_TO_63
  }

  /** A signed integer in two's complement. */
  function Le32(v: int): (r: seq<Byte>)
    requires IsInt32(v)
    ensures |r| == 4
  {
    ToLe(4, if v < 0 then v + TWO_TO_32 else v)
  }

  function FromLe32(bs: seq<Byte>): (v: int)
    requires |bs| == 4
    ensures IsInt32(v)
  {
    var u := FromLe(bs);
    assert u < TWO_TO_32 by { FromLeBound(bs); Powers(); }
    if u < TWO_TO_31 then u else u - TWO_TO_32
  }

  function Le64(v: int): (r: seq<Byte>)
    requires IsInt64(v)
    ensures |r| == 8
  {
    ToLe(8, if v < 0 then v + TWO_TO_64 else v)
  }

  function FromLe64(bs: seq<Byte>): (v: int)
    requires |bs| == 8
    ensures IsInt64(v)
  {
    var u := FromLe(bs);
    assert u < TWO_TO_64 by { FromLeBound(bs); Powers(); }
    if u < TWO_TO_63 then u else u - TWO_TO_64
  }

  lemma Powers()
    ensures Pow256(4) == TWO_TO_32 && Pow256(8) == TWO_TO_64
  {
    assert Pow256(2) == 65536 && Pow256(4) == 65536 * Pow256(2);
    assert Pow256(6) == 65536 * Pow256(4) && Pow256(8) == 65536 * Pow256(6);
  }

  lemma Le32RoundTrip(v: int)
    requires IsInt32(v)
    ensures FromLe32(Le32(v)) == v
  {
    Powers();
    LeRoundTrip(4, if v < 0 then v + TWO_TO_32 else v);
  }

  lemma Le64RoundTrip(v: int)
    requires IsInt64(v)
    ensures FromLe64(Le64(v)) == v
  {
    Powers();
    LeRoundTrip(8, if v < 0 then v + TWO_TO_64 else v);
  }

  /** The value an int32_t counter shows after k increments from 0. */
  function Wrap32(k: nat): (v: int)
    ensures IsInt32(v)
  {
    var u := k % TWO_TO_32;
    if u < TWO_TO_31 then u else u - TWO_TO_32
  }

  /** The counter starts at 0, goes up by one, and after the largest value goes on from the smallest. */
  lemma Wrap32Counts(k: nat)
    ensures Wrap32(0) == 0
    ensures Wrap32(k + 1) == if Wrap32(k) == TWO_TO_31 - 1 then -TWO_TO_31 else Wrap32(k) + 1
  {
  }

  lemma Wrap32Injective(a: nat, b: nat)
    requires a < TWO_TO_32 && b < TWO_TO_32 && Wrap32(a) == Wrap32(b)
    ensures a == b
  {
  }

  // ---------------------------------------------------------------- pieces of a stream

  function Flatten(pieces: seq<seq<Byte>>): seq<Byte> {
    if pieces == [] then [] else pieces[0] + Flatten(pieces[1..])
  }

  lemma {:induction false} FlattenConcat(a: seq<seq<Byte>>, b: seq<seq<Byte>>)
    ensures Flatten(a + b) == Flatten(a) + Flatten(b)
  {
    if a == [] {
      assert a + b == b;
    } else {
      FlattenConcat(a[1..], b);
      assert (a + b)[1..] == a[1..] + b;
      Regroup(a[0], Flatten(a[1..]), Flatten(b));
    }
  }

  /** A sequence without its element at a position. */
  function Without<T>(a: seq<T>, i: nat): seq<T> {
    if i < |a| then a[..i] + a[i + 1..] else a
  }

  lemma Regroup<T>(a: seq<T>, b: seq<T>, c: seq<T>)
    ensures a + (b + c) == (a + b) + c
  {
  }

  lemma FlattenFrom(pieces: seq<seq<Byte>>, i: nat)
    requires i < |pieces|
    ensures Flatten(pieces[i..]) == pieces[i] + Flatten(pieces[i + 1..])
  {
    assert pieces[i..][1..] == pieces[i + 1..];
  }

  lemma FlattenOne(p: seq<Byte>)
    ensures Flatten([p]) == p
  {
    assert [p][1..] == [];
  }
}
