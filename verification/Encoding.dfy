/** Words a cThread writes to the registers of its virtual FPGA (sw/src/cThread.cpp) and the text form of an
    address in an RDMA queue (sw/include/cDefs.hpp). */
module Encoding {
  import opened Bytes

  // ---------------------------------------------------------------- queue pair numbers

  function Qpn(vfid: bv32, ctid: bv32): bv32 {
    ((vfid & 0xf) << 6) | (ctid & 0x3f)
  }

  /** Different threads of a shell have different queue pair numbers, from which the FPGA and the thread can be read
      back, and none is changed by the 16-bit and 24-bit fields that carry it. */
  lemma QpnIsUnique(vfid: bv32, ctid: bv32, vfid': bv32, ctid': bv32)
    requires vfid < 16 && ctid < 64 && vfid' < 16 && ctid' < 64
    ensures Qpn(vfid, ctid) == Qpn(vfid', ctid') <==> vfid == vfid' && ctid == ctid'
    ensures Qpn(vfid, ctid) & 0xffff == Qpn(vfid, ctid) == Qpn(vfid, ctid) & 0xff_ffff
    ensures Qpn(vfid, ctid) >> 6 == vfid && Qpn(vfid, ctid) & 0x3f == ctid
  {
  }

  // ---------------------------------------------------------------- register words

  /** A command for the data mover. */
  datatype Command = Command(opcode: bv64, stream: bv64, pid: bv64, dest: bv64, last: bool, start: bool, len: bv64)

  function Flag(on: bool, bit: bv64): bv64 {
    if on then bit else 0
  }

  function Pack(opcode: bv64, stream: bv64, pid: bv64, dest: bv64, last: bv64, start: bv64, len: bv64): bv64 {
    (opcode & 0x1f) | ((pid & 0x3f) << 10) | ((dest & 0xf) << 16) | last | ((stream & 0x3) << 8) | start | (len << 32)
  }

  function CommandWord(c: Command): bv64 {
    Pack(c.opcode, c.stream, c.pid, c.dest, Flag(c.last, 0x10_0000), Flag(c.start, 0x20_0000), c.len)
  }

  /** The bits of a word from a position on, as many as the mask has. */
  function Field(w: bv64, at: bv64, mask: bv64): bv64
    requires at <= 64
  {
    (w >> at) & mask
  }

  function Low(field: bv64, mask: bv64): bv64 {
    field & mask
  }

  /** A field that its mask does not change. */
  predicate Fits(field: bv64, mask: bv64) {
    Low(field, mask) == field
  }

  function IsSet(w: bv64, bit: bv64): bool {
    w & bit != 0
  }

  function CommandFields(w: bv64): Command {
    Command(Field(w, 0, 0x1f), Field(w, 8, 0x3), Field(w, 10, 0x3f), Field(w, 16, 0xf),
            IsSet(w, 0x10_0000), IsSet(w, 0x20_0000), Field(w, 32, 0xffff_ffff))
  }

  lemma PackedLow(opcode: bv64, stream: bv64, pid: bv64, dest: bv64, last: bv64, start: bv64, len: bv64)
    requires last & 0x10_0000 == last && start & 0x20_0000 == start
    ensures var w := Pack(opcode, stream, pid, dest, last, start, len);
            && Field(w, 0, 0x1f) == Low(opcode, 0x1f) && Field(w, 8, 0x3) == Low(stream, 0x3)
            && Field(w, 10, 0x3f) == Low(pid, 0x3f)
  {
  }

  lemma PackedHigh(opcode: bv64, stream: bv64, pid: bv64, dest: bv64, last: bv64, start: bv64, len: bv64)
    requires last & 0x10_0000 == last && start & 0x20_0000 == start
    ensures var w := Pack(opcode, stream, pid, dest, last, start, len);
            Field(w, 16, 0xf) == Low(dest, 0xf) && Field(w, 32, 0xffff_ffff) == Low(len, 0xffff_ffff)
  {
  }

  lemma PackedBits(opcode: bv64, stream: bv64, pid: bv64, dest: bv64, last: bv64, start: bv64, len: bv64)
    requires last & 0x10_0000 == last && start & 0x20_0000 == start
    ensures var w := Pack(opcode, stream, pid, dest, last, start, len);
            w & 0x10_0000 == last && w & 0x20_0000 == start
  {
  }

  lemma PackedFlags(opcode: bv64, stream: bv64, pid: bv64, dest: bv64, last: bool, start: bool, len: bv64)
    ensures var w := Pack(opcode, stream, pid, dest, Flag(last, 0x10_0000), Flag(start, 0x20_0000), len);
            && Field(w, 0, 0x1f) == Low(opcode, 0x1f) && Field(w, 8, 0x3) == Low(stream, 0x3)
            && Field(w, 10, 0x3f) == Low(pid, 0x3f)
            && Field(w, 16, 0xf) == Low(dest, 0xf) && IsSet(w, 0x10_0000) == last && IsSet(w, 0x20_0000) == start
            && Field(w, 32, 0xffff_ffff) == Low(len, 0xffff_ffff)
  {
    PackedLow(opcode, stream, pid, dest, Flag(last, 0x10_0000), Flag(start, 0x20_0000), len);
    PackedHigh(opcode, stream, pid, dest, Flag(last, 0x10_0000), Flag(start, 0x20_0000), len);
    PackedBits(opcode, stream, pid, dest, Flag(last, 0x10_0000), Flag(start, 0x20_0000), len);
    hide Pack, Field, Low;
  }

  /** The fields of a command come out of its word exactly when each fits its place. */
  lemma CommandRoundTrip(c: Command)
    ensures CommandFields(CommandWord(c)) == c <==>
              && Fits(c.opcode, 0x1f) && Fits(c.stream, 0x3) && Fits(c.pid, 0x3f) && Fits(c.dest, 0xf)
              && Fits(c.len, 0xffff_ffff)
  {
    PackedFlags(c.opcode, c.stream, c.pid, c.dest, c.last, c.start, c.len);
    hide Pack, Field, Low, Flag, IsSet;
  }

  /** A word is that of its fields exactly when its unused bits are zero: no two fields share a bit. */
  lemma WordRoundTrip(w: bv64)
    ensures CommandWord(CommandFields(w)) == w <==> Fits(w, 0xffff_ffff_003f_ff1f)
  {
    PackFields(w);
    FlagOfBit(w, 0x10_0000);
    FlagOfBit(w, 0x20_0000);
    hide Pack, Field, Low, Flag, IsSet;
  }

  lemma FlagOfBit(w: bv64, bit: bv64)
    requires bit == 0x10_0000 || bit == 0x20_0000
    ensures Flag(IsSet(w, bit), bit) == w & bit
  {
  }

  lemma PackFields(w: bv64)
    ensures Pack(Field(w, 0, 0x1f), Field(w, 8, 0x3), Field(w, 10, 0x3f), Field(w, 16, 0xf),
                 w & 0x10_0000, w & 0x20_0000, Field(w, 32, 0xffff_ffff))
         == Low(w, 0xffff_ffff_003f_ff1f)
  {
  }

  /** The registers that describe a connection to the network stack; the slots are those of the peer's GID. */
  datatype Context = Context(
    qpn: bv64, rkey: bv64, localPsn: bv64, remotePsn: bv64, vaddr: bv64, port: bv64, remoteQpn: bv64,
    slots: seq<nat>)

  datatype ContextWords = ContextWords(qp: bv64, psn: bv64, vaddr: bv64, conn: bv64, gidLow: nat, gidHigh: nat)

  function QpWord(qpn: bv64, rkey: bv64): bv64 {
    (qpn & 0xff_ffff) | ((rkey & 0xffff_ffff) << 32)
  }

  function PsnWord(local: bv64, remote: bv64): bv64 {
    (local & 0xff_ffff) | ((remote & 0xff_ffff) << 24)
  }

  function ConnWord(port: bv64, remoteQpn: bv64, qpn: bv64): bv64 {
    ((port & 0xffff) << 40) | ((remoteQpn & 0xff_ffff) << 16) | (qpn & 0xffff)
  }

  /** Two 32-bit values in one word; htols changes nothing on a little-endian host. */
  function Halves(high: nat, low: nat): nat {
    high % TWO_TO_32 * TWO_TO_32 + low % TWO_TO_32
  }

  lemma HalvesApart(high: nat, low: nat)
    ensures Halves(high, low) % TWO_TO_32 == low % TWO_TO_32 && Halves(high, low) / TWO_TO_32 == high % TWO_TO_32
  {
  }

  function WriteContext(c: Context): ContextWords
    requires |c.slots| == 4
  {
    ContextWords(QpWord(c.qpn, c.rkey), PsnWord(c.localPsn, c.remotePsn), Low(c.vaddr, 0xffff_ffff_ffff),
                 ConnWord(c.port, c.remoteQpn, c.qpn), Halves(c.slots[1], c.slots[0]), Halves(c.slots[3], c.slots[2]))
  }

  function ReadContext(w: ContextWords): Context {
    Context(Field(w.qp, 0, 0xff_ffff), Field(w.qp, 32, 0xffff_ffff),
            Field(w.psn, 0, 0xff_ffff), Field(w.psn, 24, 0xff_ffff),
            w.vaddr, Field(w.conn, 40, 0xffff), Field(w.conn, 16, 0xff_ffff),
            [w.gidLow % TWO_TO_32, w.gidLow / TWO_TO_32, w.gidHigh % TWO_TO_32, w.gidHigh / TWO_TO_32])
  }

  lemma QpFields(qpn: bv64, rkey: bv64)
    ensures Field(QpWord(qpn, rkey), 0, 0xff_ffff) == Low(qpn, 0xff_ffff)
    ensures Field(QpWord(qpn, rkey), 32, 0xffff_ffff) == Low(rkey, 0xffff_ffff)
  {
  }

  lemma PsnFields(local: bv64, remote: bv64)
    ensures Field(PsnWord(local, remote), 0, 0xff_ffff) == Low(local, 0xff_ffff)
    ensures Field(PsnWord(local, remote), 24, 0xff_ffff) == Low(remote, 0xff_ffff)
  {
  }

  lemma ConnFields(port: bv64, remoteQpn: bv64, qpn: bv64)
    ensures Field(ConnWord(port, remoteQpn, qpn), 40, 0xffff) == Low(port, 0xffff)
    ensures Field(ConnWord(port, remoteQpn, qpn), 16, 0xff_ffff) == Low(remoteQpn, 0xff_ffff)
    ensures Field(ConnWord(port, remoteQpn, qpn), 0, 0xffff) == Low(Low(qpn, 0xff_ffff), 0xffff)
  {
  }

  /** Every field of the context is recovered exactly when it fits; the local queue pair number, which has a
      place in two words, is the same in both exactly when its low 24 bits fit 16. */
  lemma ContextRoundTrip(c: Context)
    requires |c.slots| == 4
    ensures ReadContext(WriteContext(c)) == c <==>
              && Fits(c.qpn, 0xff_ffff) && Fits(c.rkey, 0xffff_ffff) && Fits(c.localPsn, 0xff_ffff)
              && Fits(c.remotePsn, 0xff_ffff) && Fits(c.vaddr, 0xffff_ffff_ffff) && Fits(c.port, 0xffff)
              && Fits(c.remoteQpn, 0xff_ffff) && SlotsFit(c.slots)
    ensures var w := WriteContext(c);
            Field(w.qp, 0, 0xff_ffff) == Field(w.conn, 0, 0xffff) <==> Fits(Low(c.qpn, 0xff_ffff), 0xffff)
  {
    QpFields(c.qpn, c.rkey);
    PsnFields(c.localPsn, c.remotePsn);
    ConnFields(c.port, c.remoteQpn, c.qpn);
    SlotsRoundTrip(c.slots);
    hide QpWord, PsnWord, ConnWord, Field, Low, Halves, SlotsFit;
  }

  predicate SlotsFit(slots: seq<nat>) {
    forall i :: 0 <= i < |slots| ==> slots[i] < TWO_TO_32
  }

  lemma SlotsRoundTrip(slots: seq<nat>)
    requires |slots| == 4
    ensures var low, high := Halves(slots[1], slots[0]), Halves(slots[3], slots[2]);
            [low % TWO_TO_32, low / TWO_TO_32, high % TWO_TO_32, high / TWO_TO_32] == slots <==> SlotsFit(slots)
  {
    HalvesApart(slots[1], slots[0]);
    HalvesApart(slots[3], slots[2]);
    hide Halves;
    if SlotsFit(slots) {
      assert slots[0] < TWO_TO_32 && slots[1] < TWO_TO_32 && slots[2] < TWO_TO_32 && slots[3] < TWO_TO_32;
    }
  }

  // ---------------------------------------------------------------- addresses as text

  const DIGITS := "0123456789abcdef"
  const CAPITALS := "0123456789ABCDEF"

  function DigitOf(c: char): Option<nat> {
    if '0' <= c <= '9' then Some(c as int - '0' as int)
    else if 'a' <= c <= 'f' then Some(c as int - 'a' as int + 10)
    else if 'A' <= c <= 'F' then Some(c as int - 'A' as int + 10)
    else None
  }

  function Pow16(n: nat): (r: nat)
    ensures r > 0
  {
    if n == 0 then 1 else 16 * Pow16(n - 1)
  }

  /** The n hexadecimal digits of a number, filled up with zeros. */
  function Hex(n: nat, v: nat): (s: string)
    ensures |s| == n
  {
    if n == 0 then "" else Hex(n - 1, v / 16) + [DIGITS[v % 16]]
  }

  /** What sscanf reads: digits up to the first other character. */
  function Scan(s: string, acc: nat): nat
    decreases |s|
  {
    if s == "" || DigitOf(s[0]).None? then acc else Scan(s[1..], 16 * acc + DigitOf(s[0]).value)
  }

  lemma DigitRoundTrip(d: nat)
    requires d < 16
    ensures DigitOf(DIGITS[d]) == Some(d)
  {
  }

  /** Small and capital letters are digits, and nothing else is. */
  lemma DigitIff(c: char, d: nat)
    ensures DigitOf(c) == Some(d) <==> d < 16 && (c == DIGITS[d] || c == CAPITALS[d])
  {
  }

  lemma {:induction false} ScanConcat(a: string, b: string, acc: nat)
    requires forall i :: 0 <= i < |a| ==> DigitOf(a[i]).Some?
    ensures Scan(a + b, acc) == Scan(b, Scan(a, acc))
    decreases |a|
  {
    if a == "" {
      assert a + b == b;
    } else {
      assert (a + b)[1..] == a[1..] + b;
      ScanConcat(a[1..], b, 16 * acc + DigitOf(a[0]).value);
    }
  }

  lemma DivideTwice(v: nat, p: nat)
    requires p > 0
    ensures v / 16 / p == v / (16 * p)
  {
    var q, r := v / 16 / p, v / 16 % p;
    assert v / 16 == p * q + r;
    assert v == 16 * (p * q + r) + v % 16 == (16 * p) * q + (16 * r + v % 16);
    Quotient(v, 16 * p, q);
  }

  lemma {:induction false} HexRoundTrip(n: nat, v: nat)
    requires v < Pow16(n)
    ensures Scan(Hex(n, v), 0) == v
    ensures forall i :: 0 <= i < n ==> DigitOf(Hex(n, v)[i]).Some?
  {
    if n > 0 {
      HexRoundTrip(n - 1, v / 16);
      DigitRoundTrip(v % 16);
      var d := [DIGITS[v % 16]];
      ScanConcat(Hex(n - 1, v / 16), d, 0);
      assert Scan(d, v / 16) == Scan(d[1..], 16 * (v / 16) + v % 16);
    }
  }

  /** The hexadecimal digit of v at a place, counted from the least significant. */
  function DigitAt(v: nat, place: nat): (d: nat)
    ensures d < 16
  {
    v / Pow16(place) % 16
  }

  lemma ShiftedDigit(v: nat, place: nat)
    ensures DigitAt(v / 16, place) == DigitAt(v, place + 1)
  {
    DivideTwice(v, Pow16(place));
  }

  /** The digits are written most significant first. */
  lemma {:induction false} HexDigit(n: nat, v: nat, i: nat)
    requires i < n
    ensures Hex(n, v)[i] == DIGITS[DigitAt(v, n - 1 - i)]
  {
    if i < n - 1 {
      hide DigitAt;
      HexDigit(n - 1, v / 16, i);
      ShiftedDigit(v, n - 2 - i);
    }
  }

  /** ntohl on a little-endian host. */
  function Swapped(v: nat): nat {
    v % 256 * 0x100_0000 + v / 256 % 256 * 0x1_0000 + v / 0x1_0000 % 256 * 0x100 + v / 0x100_0000
  }

  /** The four bytes of x are those of v in the opposite order. */
  predicate Reversed(x: nat, v: nat) {
    && x < TWO_TO_32
    && var a, b := ToLe(4, x), ToLe(4, v); a[0] == b[3] && a[1] == b[2] && a[2] == b[1] && a[3] == b[0]
  }

  lemma FourBytes(a: Byte, b: Byte, c: Byte, d: Byte)
    ensures ToLe(4, a + 0x100 * b + 0x1_0000 * c + 0x100_0000 * d) == [a, b, c, d]
  {
    var x, y, z := b + 0x100 * c + 0x1_0000 * d, c + 0x100 * d, d as nat;
    var v := a + 0x100 * x;
    assert v % 256 == a && v / 256 == x && x % 256 == b && x / 256 == y && y % 256 == c && y / 256 == z;
    assert ToLe(4, v) == [a] + ToLe(3, x) && ToLe(3, x) == [b] + ToLe(2, y) && ToLe(2, y) == [c] + ToLe(1, z);
    assert ToLe(1, z) == [d];
  }

  lemma SwappedReverses(v: nat)
    requires v < TWO_TO_32
    ensures Reversed(Swapped(v), v)
  {
    hide ToLe;
    var a, b, c, d := Split(v);
    FourBytes(a, b, c, d);
    FourBytes(d, c, b, a);
  }

  lemma Split(v: nat) returns (a: Byte, b: Byte, c: Byte, d: Byte)
    requires v < TWO_TO_32
    ensures v == a + 0x100 * b + 0x1_0000 * c + 0x100_0000 * d
    ensures Swapped(v) == d + 0x100 * c + 0x1_0000 * b + 0x100_0000 * a
  {
    var x := v / 256;
    var y := x / 256;
    var z := y / 256;
    Quotient(v, 0x1_0000, y);
    Quotient(v, 0x100_0000, z);
    a, b, c, d := v % 256, x % 256, y % 256, z;
  }

  lemma {:induction false} ScanBound(s: string, acc: nat)
    ensures Scan(s, acc) < (acc + 1) * Pow16(|s|)
    decreases |s|
  {
    if s != "" {
      if DigitOf(s[0]).Some? {
        ScanBound(s[1..], 16 * acc + DigitOf(s[0]).value);
        OneDigitMore(acc, DigitOf(s[0]).value, Pow16(|s| - 1));
      } else {
        AtLeast(acc, Pow16(|s|));
      }
    }
  }

  lemma OneDigitMore(acc: nat, d: nat, p: nat)
    requires d < 16
    ensures (16 * acc + d + 1) * p <= (acc + 1) * (16 * p)
  {
    assert (acc + 1) * (16 * p) == (16 * acc + 16) * p == (16 * acc + d + 1) * p + (15 - d) * p;
  }

  lemma AtLeast(acc: nat, p: nat)
    requires p > 0
    ensures acc < (acc + 1) * p
  {
    assert (acc + 1) * p == (acc + 1) * (p - 1) + acc + 1;
  }

  function ReadSlot(gid: string, idx: nat): nat
    requires idx + 8 <= |gid|
  {
    Swapped(Scan(gid[idx..idx + 8], 0))
  }

  function WriteSlot(gid: string, idx: nat, v: nat): (r: string)
    requires idx + 8 <= |gid|
    ensures |r| == |gid|
  {
    gid[..idx] + Hex(8, v) + gid[idx + 8..]
  }

  /** A GID of which no slot has been written. */
  function Blank(): (gid: string)
    ensures |gid| == 33 && forall i :: 0 <= i < 33 ==> gid[i] == '\0'
  {
    seq(33, _ => '\0')
  }

  /** sscanf for a hexadecimal number, on eight characters and a terminator. */
  method ScanText(text: array<char>) returns (v: nat)
    requires text.Length == 9
    ensures v == Scan(text[..8], 0)
  {
    v := 0;
    var j := 0;
    ghost var slot := text[..8];
    assert slot[0..] == slot;
    while j < 8 && DigitOf(text[j]).Some?
      invariant 0 <= j <= 8
      invariant Scan(slot, 0) == Scan(slot[j..], v)
    {
      assert slot[j..][0] == text[j] && slot[j..][1..] == slot[j + 1..];
      v := 16 * v + DigitOf(text[j]).value;
      j := j + 1;
    }
    assert j < 8 ==> slot[j..][0] == text[j];
  }

  class Gid {
    /** 32 characters and a terminator. */
    const gid: array<char>

    constructor ()
      ensures gid.Length == 33 && fresh(gid) && gid[..] == Blank()
    {
      gid := new char[33](_ => '\0');
    }

    /** gidToUint: copies the slot, scans its digits and swaps the bytes. */
    method ToUint(idx: nat) returns (v: nat)
      requires gid.Length == 33
      ensures v == if idx > 24 then 0 else ReadSlot(gid[..], idx)
      ensures idx <= 24 ==> Reversed(v, Scan(gid[idx..idx + 8], 0))
    {
      if idx > 24 {
        return 0;
      }
      var tmp := new char[9](_ => '\0');
      for i := 0 to 8
        invariant tmp[..i] == gid[idx..idx + i]
      {
        tmp[i] := gid[idx + i];
      }
      assert tmp[..8] == gid[..][idx..idx + 8] == gid[idx..idx + 8];
      v := ScanText(tmp);
      assert Pow16(8) == TWO_TO_32;
      ScanBound(gid[idx..idx + 8], 0);
      SwappedReverses(v);
      v := Swapped(v);
    }

    /** uintToGid */
    method FromUint(idx: nat, v: nat)
      requires gid.Length == 33 && idx <= 24 && v < TWO_TO_32
      modifies gid
      ensures gid[..] == WriteSlot(old(gid[..]), idx, v)
    {
      var text := Hex(8, v);
      for i := 0 to 8
        invariant forall k :: 0 <= k < 33 ==> gid[k] == if idx <= k < idx + i then text[k - idx] else old(gid[k])
      {
        gid[idx + i] := text[i];
      }
      assert gid[..] == WriteSlot(old(gid[..]), idx, v);
    }
  }

  /** One write of an address to one of the four slots. */
  datatype Write = Write(slot: nat, v: nat)

  ghost predicate Proper(ws: seq<Write>) {
    forall i :: 0 <= i < |ws| ==> ws[i].slot < 4 && ws[i].v < TWO_TO_32
  }

  function AfterWrites(gid: string, ws: seq<Write>): (r: string)
    requires |gid| == 33 && Proper(ws)
    ensures |r| == 33
    decreases |ws|
  {
    if ws == [] then gid else
      var w := ws[|ws| - 1];
      WriteSlot(AfterWrites(gid, ws[..|ws| - 1]), 8 * w.slot, w.v)
  }

  /** Write i is the last one to the slot. */
  predicate LastTo(ws: seq<Write>, i: nat, slot: nat) {
    i < |ws| && ws[i].slot == slot && NoneTo(ws, i + 1, slot)
  }

  /** No write from the i-th on is to the slot. */
  predicate NoneTo(ws: seq<Write>, i: nat, slot: nat) {
    forall j :: i <= j < |ws| ==> ws[j].slot != slot
  }

  lemma OtherSlot(gid: string, i: nat, text: string, j: nat)
    requires i + 8 <= |gid| && j + 8 <= |gid| && |text| == 8 && (i + 8 <= j || j + 8 <= i)
    ensures (gid[..i] + text + gid[i + 8..])[j..j + 8] == gid[j..j + 8]
  {
    var after := gid[..i] + text + gid[i + 8..];
    assert |after| == |gid| && forall k :: 0 <= k < |gid| && !(i <= k < i + 8) ==> after[k] == gid[k];
  }

  /** A write to a slot is what that slot reads as, and leaves every other slot as it was. */
  lemma SlotAfterWrite(gid: string, w: Write, slot: nat)
    requires |gid| == 33 && w.slot < 4 && slot < 4 && w.v < TWO_TO_32
    ensures var after := WriteSlot(gid, 8 * w.slot, w.v);
            ReadSlot(after, 8 * slot) == if w.slot == slot then Swapped(w.v) else ReadSlot(gid, 8 * slot)
  {
    assert Pow16(8) == TWO_TO_32;
    HexRoundTrip(8, w.v);
    hide Hex, Scan, Swapped, Pow16;
    var after := WriteSlot(gid, 8 * w.slot, w.v);
    if w.slot == slot {
      assert after[8 * slot..8 * slot + 8] == Hex(8, w.v);
    } else {
      OtherSlot(gid, 8 * w.slot, Hex(8, w.v), 8 * slot);
    }
  }

  /** x is the last address written to the slot with its bytes reversed, or zero if there was none. */
  ghost predicate HeldBy(ws: seq<Write>, slot: nat, x: nat) {
    && (forall i: nat :: LastTo(ws, i, slot) ==> Reversed(x, ws[i].v))
    && (NoneTo(ws, 0, slot) ==> x == 0)
  }

  /** After any writes to the slots in any order, a slot reads as the last address written to it, with its bytes
      reversed, and as zero if there was none. */
  lemma {:induction false} SlotsReadBack(ws: seq<Write>, slot: nat)
    requires Proper(ws) && slot < 4
    ensures HeldBy(ws, slot, ReadSlot(AfterWrites(Blank(), ws), 8 * slot))
    decreases |ws|
  {
    if ws != [] {
      var n := |ws| - 1;
      SlotsReadBack(ws[..n], slot);
      SlotAfterWrite(AfterWrites(Blank(), ws[..n]), ws[n], slot);
      SwappedReverses(ws[n].v);
      hide ReadSlot, WriteSlot, Swapped, Reversed, HeldBy, AfterWrites;
      var gid := AfterWrites(Blank(), ws[..n]);
      HeldOn(ws, slot, ReadSlot(gid, 8 * slot), ReadSlot(WriteSlot(gid, 8 * ws[n].slot, ws[n].v), 8 * slot));
    } else {
      NothingThere(slot);
    }
  }

  /** One more write. */
  lemma HeldOn(ws: seq<Write>, slot: nat, x: nat, x': nat)
    requires ws != [] && HeldBy(ws[..|ws| - 1], slot, x)
    requires if ws[|ws| - 1].slot == slot then Reversed(x', ws[|ws| - 1].v) else x' == x
    ensures HeldBy(ws, slot, x')
  {
    hide Reversed, NoneTo;
    var n := |ws| - 1;
    forall i: nat | i <= n && NoneTo(ws, i, slot)
      ensures ws[n].slot != slot && NoneTo(ws[..n], i, slot)
    {
      NoneBefore(ws, i, slot);
    }
    forall i: nat | LastTo(ws, i, slot)
      ensures Reversed(x', ws[i].v)
    {
      if i < n { assert LastTo(ws[..n], i, slot); }
    }
  }

  lemma NoneBefore(ws: seq<Write>, i: nat, slot: nat)
    requires i < |ws| && NoneTo(ws, i, slot)
    ensures ws[|ws| - 1].slot != slot && NoneTo(ws[..|ws| - 1], i, slot)
  {
  }

  lemma NothingThere(slot: nat)
    requires slot < 4
    ensures ReadSlot(Blank(), 8 * slot) == 0
  {
  }

  // ---------------------------------------------------------------- the peer's address in the registers

  /** The four slots of a GID, as writeQpContext reads them. */
  function SlotsOf(gid: string): (slots: seq<nat>)
    requires |gid| == 33
    ensures |slots| == 4
  {
    [ReadSlot(gid, 0), ReadSlot(gid, 8), ReadSlot(gid, 16), ReadSlot(gid, 24)]
  }

  lemma ReadSlotFits(gid: string, idx: nat)
    requires idx + 8 <= |gid|
    ensures ReadSlot(gid, idx) < TWO_TO_32
  {
    assert Pow16(8) == TWO_TO_32;
    ScanBound(gid[idx..idx + 8], 0);
    SwappedReverses(Scan(gid[idx..idx + 8], 0));
  }

  /** For a GID after any writes to its slots, each half of the two connection words holds the last address of its
      slot, with its bytes reversed, or 0. */
  lemma AddressesReachRegisters(ws: seq<Write>, c: Context)
    requires Proper(ws) && c.slots == SlotsOf(AfterWrites(Blank(), ws))
    ensures var slots := ReadContext(WriteContext(c)).slots;
            |slots| == 4 && forall slot :: 0 <= slot < 4 ==> HeldBy(ws, slot, slots[slot])
  {
    hide AfterWrites, ReadSlot, QpWord, PsnWord, ConnWord, Field, Low, Halves, Swapped, HeldBy;
    var gid := AfterWrites(Blank(), ws);
    forall slot | 0 <= slot < 4
      ensures c.slots[slot] == ReadSlot(gid, 8 * slot) < TWO_TO_32 && HeldBy(ws, slot, c.slots[slot])
    {
      SlotsReadBack(ws, slot);
      ReadSlotFits(gid, 8 * slot);
    }
    SlotsRoundTrip(c.slots);
  }
}
