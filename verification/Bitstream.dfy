/** Loading a partial bitstream (sw/src/cRcnfg.cpp): the file is read byte by byte into the 32-bit words of
    a mapping of huge pages, aligned up to a huge page. */
module Bitstream {
  import opened Bytes

  const HUGE_PAGE_SIZE := 0x20_0000

  /** The length as readBitstream holds it, in 32 bits. */
  function Length(file: seq<Byte>): nat {
    |file| % TWO_TO_32
  }

  function PageCount(len: nat): nat {
    (len + HUGE_PAGE_SIZE - 1) / HUGE_PAGE_SIZE
  }

  function Align(a: nat): nat {
    (a + HUGE_PAGE_SIZE - 1) / HUGE_PAGE_SIZE * HUGE_PAGE_SIZE
  }

  /** For every mapping address and every length, the aligned buffer lies inside the mapping and every word of
      the file has its place in the buffer, which starts at the first huge page of the mapping and has no page more
      than it needs. */
  lemma AlignedInside(base: nat, len: nat)
    ensures var vaddr, n := Align(base), PageCount(len);
            && vaddr % HUGE_PAGE_SIZE == 0 && len <= n * HUGE_PAGE_SIZE < len + HUGE_PAGE_SIZE
            && base <= vaddr < base + HUGE_PAGE_SIZE && vaddr + n * HUGE_PAGE_SIZE <= base + (n + 1) * HUGE_PAGE_SIZE
            && vaddr + 4 * (len / 4) <= base + (n + 1) * HUGE_PAGE_SIZE
  {
  }

  function WordAt(bytes: seq<Byte>, at: nat): nat
    requires at + 4 <= |bytes|
  {
    FromLe(bytes[at..at + 4])
  }

  function BigEndian(bs: seq<Byte>): nat
    requires |bs| == 4
  {
    bs[0] as int * 0x100_0000 + bs[1] as int * 0x1_0000 + bs[2] as int * 0x100 + bs[3]
  }

  /** Nothing but the word at the given place differs. */
  ghost predicate Elsewhere(before: seq<Byte>, after: seq<Byte>, at: nat, size: nat) {
    |before| == |after| && forall k :: 0 <= k < |before| && !(at <= k < at + size) ==> before[k] == after[k]
  }

  /** A 32-bit store on a little-endian host. */
  method StoreWord(m: array<Byte>, at: nat, word: nat)
    requires at + 4 <= m.Length && word < TWO_TO_32
    modifies m
    ensures WordAt(m[..], at) == word && Elsewhere(old(m[..]), m[..], at, 4)
  {
    var b := LittleEndianBytes(word);
    m[at], m[at + 1], m[at + 2], m[at + 3] := b[0], b[1], b[2], b[3];
    assert m[..][at..at + 4] == b;
  }

  function LittleEndianBytes(word: nat): (b: seq<Byte>)
    requires word < TWO_TO_32
    ensures |b| == 4 && FromLe(b) == word
  {
    LeRoundTrip(4, word);
    ToLe(4, word)
  }

  lemma FromLeFour(bs: seq<Byte>)
    requires |bs| == 4
    ensures FromLe(bs) == bs[0] + bs[1] as int * 0x100 + bs[2] as int * 0x1_0000 + bs[3] as int * 0x100_0000
  {
    assert FromLe(bs[1..]) == bs[1] + 0x100 * FromLe(bs[2..]) by { assert bs[1..][1..] == bs[2..]; }
    assert FromLe(bs[2..]) == bs[2] + 0x100 * FromLe(bs[3..]) by { assert bs[2..][1..] == bs[3..]; }
    assert FromLe(bs[3..]) == bs[3] by { assert bs[3..][1..] == []; }
  }

  /** vaddr_32[i] |= byte << shift, where the word so far has only higher bits: or is then plus. */
  method OrByte(m: array<Byte>, at: nat, byte: Byte, unit: nat, ghost high: nat)
    requires at + 4 <= m.Length && unit in {1, 0x100, 0x1_0000, 0x100_0000}
    requires WordAt(m[..], at) == high * 0x100 * unit && (high * 0x100 + byte) * unit < TWO_TO_32
    modifies m
    ensures WordAt(m[..], at) == (high * 0x100 + byte) * unit && Elsewhere(old(m[..]), m[..], at, 4)
  {
    var word := WordAt(m[..], at);
    assert word + byte as int * unit == (high * 0x100 + byte) * unit;
    StoreWord(m, at, word + byte as int * unit);
  }

  /** One turn of the loop: four bytes of the file become one word. */
  method LoadWord(m: array<Byte>, at: nat, bytes: seq<Byte>)
    requires at + 4 <= m.Length && |bytes| == 4
    modifies m
    ensures WordAt(m[..], at) == BigEndian(bytes) && Elsewhere(old(m[..]), m[..], at, 4)
  {
    hide WordAt;
    ghost var b0, b1, b2: int := bytes[0], bytes[1], bytes[2];
    StoreWord(m, at, 0);
    OrByte(m, at, bytes[0], 0x100_0000, 0);
    OrByte(m, at, bytes[1], 0x1_0000, b0);
    OrByte(m, at, bytes[2], 0x100, b0 * 0x100 + b1);
    OrByte(m, at, bytes[3], 1, (b0 * 0x100 + b1) * 0x100 + b2);
  }

  /** The first n words of a buffer hold the first 4n bytes of the file. */
  ghost predicate Holds(bytes: seq<Byte>, at: nat, file: seq<Byte>, n: nat) {
    && at + 4 * n <= |bytes| && 4 * n <= |file|
    && forall i :: 0 <= i < n ==> WordOf(bytes, at, i) == FileWord(file, i)
  }

  function WordOf(bytes: seq<Byte>, at: nat, i: nat): nat {
    if at + 4 * i + 4 <= |bytes| then WordAt(bytes, at + 4 * i) else 0
  }

  function FileWord(file: seq<Byte>, i: nat): nat {
    if 4 * i + 4 <= |file| then BigEndian(file[4 * i..4 * i + 4]) else 0
  }

  /** Storing the next word after the first n leaves those alone. */
  lemma HoldsMore(before: seq<Byte>, after: seq<Byte>, at: nat, file: seq<Byte>, n: nat)
    requires Holds(before, at, file, n) && Elsewhere(before, after, at + 4 * n, 4)
    requires at + 4 * n + 4 <= |after| && 4 * n + 4 <= |file|
    requires WordAt(after, at + 4 * n) == BigEndian(file[4 * n..4 * n + 4])
    ensures Holds(after, at, file, n + 1)
  {
    forall i | 0 <= i < n
      ensures WordOf(after, at, i) == FileWord(file, i)
    {
      assert WordOf(before, at, i) == FileWord(file, i);
      var p := at + 4 * i;
      assert before[p..p + 4] == after[p..p + 4];
    }
  }

  /** readBitstream on a mapping of PageCount + 1 huge pages at the given address. All stores stay inside the
      mapping; the returned address is null for an empty file. */
  method ReadBitstream(file: seq<Byte>, base: nat, m: array<Byte>) returns (vaddr: nat, len: nat)
    requires m.Length == (PageCount(Length(file)) + 1) * HUGE_PAGE_SIZE
    modifies m
    ensures len == Length(file) && vaddr == if len == 0 then 0 else Align(base)
    ensures IsLoaded(old(m[..]), m[..], Align(base) - base, file)
  {
    len := |file| % TWO_TO_32;
    var pages := (len + HUGE_PAGE_SIZE - 1) / HUGE_PAGE_SIZE;
    vaddr := if pages > 0 then Align(base) else 0;
    AlignedInside(base, len);
    hide Align, PageCount, WordOf, FileWord;
    var at, words := Align(base) - base, len / 4;
    for i := 0 to words
      invariant Holds(m[..], at, file, i)
      invariant Elsewhere(old(m[..]), m[..], at, 4 * i)
    {
      ghost var before := m[..];
      LoadWord(m, at + 4 * i, file[4 * i..4 * i + 4]);
      HoldsMore(before, m[..], at, file, i);
    }
  }

  // ---------------------------------------------------------------- getting the file back

  function BigEndianBytes(word: nat): (bs: seq<Byte>)
    requires word < TWO_TO_32
    ensures |bs| == 4
  {
    [word / 0x100 / 0x100 / 0x100, word / 0x100 / 0x100 % 0x100, word / 0x100 % 0x100, word % 0x100]
  }

  /** The first n words of a buffer written out again, most significant byte first. */
  function Recover(bytes: seq<Byte>, at: nat, n: nat): (bs: seq<Byte>)
    requires at + 4 * n <= |bytes|
    ensures |bs| == 4 * n
  {
    if n == 0 then [] else
      FromLeFour(bytes[at + 4 * (n - 1)..at + 4 * (n - 1) + 4]);
      Recover(bytes, at, n - 1) + BigEndianBytes(WordAt(bytes, at + 4 * (n - 1)))
  }

  lemma {:induction false} RecoverPrefix(bytes: seq<Byte>, at: nat, file: seq<Byte>, n: nat)
    requires Holds(bytes, at, file, n)
    ensures Recover(bytes, at, n) == file[..4 * n]
  {
    if n > 0 {
      RecoverPrefix(bytes, at, file, n - 1);
      var p := 4 * (n - 1);
      var w := file[p..p + 4];
      assert WordOf(bytes, at, n - 1) == FileWord(file, n - 1);
      assert WordAt(bytes, at + p) == BigEndian(w);
      BigEndianRoundTrip(w);
      assert file[..p + 4] == file[..p] + w;
    }
  }

  lemma BigEndianRoundTrip(w: seq<Byte>)
    requires |w| == 4
    ensures BigEndian(w) < TWO_TO_32 && BigEndianBytes(BigEndian(w)) == w
  {
    var ab := w[0] as int * 0x100 + w[1];
    var abc := ab * 0x100 + w[2];
    assert BigEndian(w) == abc * 0x100 + w[3];
    assert BigEndian(w) / 0x100 == abc && abc / 0x100 == ab && ab / 0x100 == w[0];
  }

  // ---------------------------------------------------------------- what the buffer says about the file

  /** m is what loading the file leaves of a mapping that held m0. */
  ghost predicate IsLoaded(m0: seq<Byte>, m: seq<Byte>, at: nat, file: seq<Byte>) {
    Holds(m, at, file, Length(file) / 4) && Elsewhere(m0, m, at, 4 * (Length(file) / 4))
  }

  lemma SameWordSameBytes(a: seq<Byte>, b: seq<Byte>, at: nat, i: nat)
    requires |a| == |b| && at + 4 * i + 4 <= |a| && WordOf(a, at, i) == WordOf(b, at, i)
    ensures a[at + 4 * i..at + 4 * i + 4] == b[at + 4 * i..at + 4 * i + 4]
  {
    FromLeInjective(a[at + 4 * i..at + 4 * i + 4], b[at + 4 * i..at + 4 * i + 4]);
  }

  lemma SamePrefixSameWords(f: seq<Byte>, g: seq<Byte>, n: nat, i: nat)
    requires 4 * n <= |f| && 4 * n <= |g| && f[..4 * n] == g[..4 * n] && i < n
    ensures FileWord(f, i) == FileWord(g, i)
  {
    assert f[4 * i..4 * i + 4] == f[..4 * n][4 * i..4 * i + 4];
    assert g[4 * i..4 * i + 4] == g[..4 * n][4 * i..4 * i + 4];
  }

  /** Two files of equal length leave equal buffers exactly when they agree on all bytes that make whole words. */
  lemma SameBufferIff(m0: seq<Byte>, a: seq<Byte>, b: seq<Byte>, at: nat, f: seq<Byte>, g: seq<Byte>)
    requires |f| == |g| && IsLoaded(m0, a, at, f) && IsLoaded(m0, b, at, g)
    ensures a == b <==> f[..4 * (Length(f) / 4)] == g[..4 * (Length(g) / 4)]
  {
    var n := Length(f) / 4;
    RecoverPrefix(a, at, f, n);
    RecoverPrefix(b, at, g, n);
    if f[..4 * n] == g[..4 * n] {
      hide FileWord, WordOf, Recover;
      forall k | 0 <= k < |a|
        ensures a[k] == b[k]
      {
        if at <= k < at + 4 * n {
          var i := (k - at) / 4;
          SamePrefixSameWords(f, g, n, i);
          SameWordSameBytes(a, b, at, i);
          assert a[k] == a[at + 4 * i..at + 4 * i + 4][k - at - 4 * i];
        } else {
          assert m0[k] == a[k] && m0[k] == b[k];
        }
      }
    }
  }

  /** The mapping after the first n words have been stored. */
  function Loaded(m0: seq<Byte>, at: nat, file: seq<Byte>, n: nat): (m: seq<Byte>)
    requires at + 4 * n <= |m0| && 4 * n <= |file|
    ensures |m| == |m0|
  {
    if n == 0 then m0
    else
      var m, p, bytes := Loaded(m0, at, file, n - 1), at + 4 * (n - 1), file[4 * (n - 1)..4 * (n - 1) + 4];
      BigEndianRoundTrip(bytes);
      m[..p] + LittleEndianBytes(BigEndian(bytes)) + m[p + 4..]
  }

  lemma {:induction false} LoadedHolds(m0: seq<Byte>, at: nat, file: seq<Byte>, n: nat)
    requires at + 4 * n <= |m0| && 4 * n <= |file|
    ensures Holds(Loaded(m0, at, file, n), at, file, n) && Elsewhere(m0, Loaded(m0, at, file, n), at, 4 * n)
  {
    if n > 0 {
      LoadedHolds(m0, at, file, n - 1);
      var m, p, bytes := Loaded(m0, at, file, n - 1), at + 4 * (n - 1), file[4 * (n - 1)..4 * (n - 1) + 4];
      BigEndianRoundTrip(bytes);
      var m' := Loaded(m0, at, file, n);
      assert m'[p..p + 4] == LittleEndianBytes(BigEndian(bytes));
      hide BigEndian, LittleEndianBytes;
      HoldsMore(m, m', at, file, n - 1);
    }
  }

  /** No other file of that length leaves the same buffer. */
  ghost predicate Recoverable(m0: seq<Byte>, at: nat, file: seq<Byte>) {
    forall m, g :: |g| == |file| && IsLoaded(m0, m, at, file) && IsLoaded(m0, m, at, g) ==> g == file
  }

  /** The buffer determines the file exactly when the file is made of whole words and its length fits the 32-bit
      counter; otherwise some other file leaves the same buffer. */
  lemma RecoverIff(m0: seq<Byte>, at: nat, file: seq<Byte>)
    requires at + 4 * (Length(file) / 4) <= |m0|
    ensures Recoverable(m0, at, file) <==> |file| % 4 == 0 && |file| < TWO_TO_32
  {
    var n := Length(file) / 4;
    if 4 * n == |file| {
      forall m, g | |g| == |file| && IsLoaded(m0, m, at, file) && IsLoaded(m0, m, at, g)
        ensures g == file
      {
        SameBufferIff(m0, m, m, at, file, g);
        assert file[..4 * n] == file && g[..4 * n] == g;
      }
    } else {
      Indistinct(m0, at, file);
    }
  }

  lemma Indistinct(m0: seq<Byte>, at: nat, file: seq<Byte>)
    requires at + 4 * (Length(file) / 4) <= |m0| && 4 * (Length(file) / 4) != |file|
    ensures !Recoverable(m0, at, file)
  {
    var n, last := Length(file) / 4, |file| - 1;
    var m, g := Loaded(m0, at, file, n), file[last := (file[last] as int + 1) % 256];
    LoadedHolds(m0, at, file, n);
    assert g[last] != file[last] && file[..4 * n] == g[..4 * n];
    forall i | 0 <= i < n
      ensures WordOf(m, at, i) == FileWord(g, i)
    {
      SamePrefixSameWords(file, g, n, i);
    }
    assert IsLoaded(m0, m, at, file) && IsLoaded(m0, m, at, g);
  }
}
