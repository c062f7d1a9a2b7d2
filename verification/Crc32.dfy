/** Table-driven reflected CRC-32 (include/preemption_fabric/util/crc32.hpp), against the bit-serial
    shift register of section 3.2.9 of IEEE 802.3, and what a matching trailer rules out. */
module Crc32 {
  import opened Words

  const POLYNOMIAL: u32 := 0xEDB8_8320
  const ONES: u32 := 0xFFFF_FFFF

  // ---- exclusive or on natural numbers ----

  predicate Odd(n: nat) {
    n % 2 == 1
  }

  function Xor(a: nat, b: nat): nat
    decreases a + b
  {
    if a == 0 && b == 0 then 0 else (if Odd(a) != Odd(b) then 1 else 0) + 2 * Xor(a / 2, b / 2)
  }

  function Pow2(n: nat): (r: nat)
    ensures r >= 1
  {
    if n == 0 then 1 else 2 * Pow2(n - 1)
  }

  lemma Pow2Values()
    ensures Pow2(8) == 256 && Pow2(31) == 0x8000_0000 && Pow2(32) == 0x1_0000_0000
  {
    assert Pow2(8) == 256;
    assert Pow2(16) == 0x1_0000;
    assert Pow2(24) == 0x100_0000;
  }

  lemma {:induction false} Doubled(n: nat, y: nat)
    requires n > 0
    ensures Pow2(n) * y == 2 * (Pow2(n - 1) * y)
  {
  }

  lemma {:induction false} EvenPart(m: nat, low: nat)
    ensures !Odd(2 * m) && 2 * m / 2 == m
    ensures Odd(low + 2 * m) == Odd(low) && (low + 2 * m) / 2 == low / 2 + m
  {
  }

  lemma {:induction false} SameHalf(l: nat, r: nat)
    requires l / 2 == r / 2 && Odd(l) == Odd(r)
    ensures l == r
  {
  }

  /** Parity and halving go through. */
  lemma {:induction false} XorStep(a: nat, b: nat)
    ensures Odd(Xor(a, b)) <==> Odd(a) != Odd(b)
    ensures Xor(a, b) / 2 == Xor(a / 2, b / 2)
  {
    hide *;
    XorUnfold(a, b);
    EvenPart(Xor(a / 2, b / 2), if Odd(a) != Odd(b) then 1 else 0);
    OddBits();
  }

  lemma {:induction false} XorUnfold(a: nat, b: nat)
    ensures Xor(a, b) == (if Odd(a) != Odd(b) then 1 else 0) + 2 * Xor(a / 2, b / 2)
  {
    if a == 0 && b == 0 {
      assert Xor(0, 0) == 0;
    }
  }

  lemma OddBits()
    ensures Odd(1) && !Odd(0)
  {
  }

  lemma {:induction false} XorZero(a: nat)
    ensures Xor(a, 0) == a == Xor(0, a)
  {
    if a > 0 { XorZero(a / 2); }
  }

  lemma {:induction false} XorComm(a: nat, b: nat)
    ensures Xor(a, b) == Xor(b, a)
    decreases a + b
  {
    if a + b > 0 { XorComm(a / 2, b / 2); }
  }

  lemma {:induction false} XorAssoc(a: nat, b: nat, c: nat)
    ensures Xor(Xor(a, b), c) == Xor(a, Xor(b, c))
    decreases a + b + c
  {
    if a == 0 && b == 0 && c == 0 { return; }
    hide *;
    XorAssoc(a / 2, b / 2, c / 2);
    XorStep(a, b); XorStep(b, c);
    XorStep(Xor(a, b), c); XorStep(a, Xor(b, c));
    SameHalf(Xor(Xor(a, b), c), Xor(a, Xor(b, c)));
  }

  lemma {:induction false} XorSelf(a: nat)
    ensures Xor(a, a) == 0
  {
    if a > 0 { XorSelf(a / 2); }
  }

  lemma {:induction false} XorCancel(a: nat, b: nat)
    ensures Xor(a, Xor(a, b)) == b
  {
    hide *;
    XorAssoc(a, a, b); XorSelf(a); XorZero(b);
  }

  lemma {:induction false} XorBound(a: nat, b: nat, n: nat)
    requires a < Pow2(n) && b < Pow2(n)
    ensures Xor(a, b) < Pow2(n)
    decreases n
  {
    if n > 0 { XorBound(a / 2, b / 2, n - 1); }
  }

  /** A number with bit n set keeps it when combined with a number below that bit. */
  lemma {:induction false} XorTopBit(a: nat, b: nat, n: nat)
    requires Pow2(n) <= a && b < Pow2(n)
    ensures Xor(a, b) >= Pow2(n)
    decreases n
  {
    if n > 0 {
      XorTopBit(a / 2, b / 2, n - 1);
    } else {
      XorZero(a);
    }
  }

  /** Combining disjoint bit ranges is addition. */
  lemma {:induction false} XorJoin(low: nat, high: nat, n: nat)
    requires low < Pow2(n)
    ensures Xor(low, Pow2(n) * high) == low + Pow2(n) * high
    decreases n
  {
    if n == 0 {
      XorZero(high);
    } else {
      XorJoin(low / 2, high, n - 1);
      Doubled(n, high);
      var m := Pow2(n - 1) * high;
      hide *;
      XorStep(low, 2 * m);
      EvenPart(m, low);
      SameHalf(Xor(low, 2 * m), low + 2 * m);
    }
  }

  // ---- the shift register ----

  /** One step: the low bit leaves, and pulls the polynomial in when it is set. */
  function Shift(c: nat): nat {
    if Odd(c) then Xor(POLYNOMIAL, c / 2) else c / 2
  }

  function ShiftN(c: nat, n: nat): nat
    decreases n
  {
    if n == 0 then c else ShiftN(Shift(c), n - 1)
  }

  lemma {:induction false} ShiftLinear(a: nat, b: nat)
    ensures Shift(Xor(a, b)) == Xor(Shift(a), Shift(b))
  {
    var p, x, y := POLYNOMIAL, a / 2, b / 2;
    hide Xor, Odd;
    XorStep(a, b);
    if Odd(a) && Odd(b) {
      XorAssoc(p, x, Xor(p, y)); XorAssoc(x, p, y); XorComm(x, p); XorAssoc(p, x, y); XorCancel(p, Xor(x, y));
    } else if Odd(a) {
      XorAssoc(p, x, y);
    } else if Odd(b) {
      XorAssoc(x, p, y); XorComm(x, p); XorAssoc(p, x, y);
    }
  }

  lemma {:induction false} ShiftNLinear(a: nat, b: nat, n: nat)
    ensures ShiftN(Xor(a, b), n) == Xor(ShiftN(a, n), ShiftN(b, n))
    decreases n
  {
    if n > 0 { ShiftLinear(a, b); ShiftNLinear(Shift(a), Shift(b), n - 1); }
  }

  lemma {:induction false} ShiftNOut(y: nat, n: nat)
    ensures ShiftN(Pow2(n) * y, n) == y
    decreases n
  {
    if n > 0 {
      Doubled(n, y);
      ShiftNOut(y, n - 1);
    }
  }

  lemma {:induction false} ShiftNAdd(c: nat, m: nat, n: nat)
    ensures ShiftN(c, m + n) == ShiftN(ShiftN(c, m), n)
    decreases m
  {
    if m > 0 { ShiftNAdd(Shift(c), m - 1, n); }
  }

  lemma {:induction false} ShiftRange(c: u32)
    ensures 0 <= Shift(c) < 0x1_0000_0000
    ensures Odd(c) <==> Shift(c) >= 0x8000_0000
  {
    Pow2Values();
    if Odd(c) { XorBound(POLYNOMIAL, c / 2, 32); XorTopBit(POLYNOMIAL, c / 2, 31); }
  }

  lemma {:induction false} ShiftInjective(a: u32, b: u32)
    requires Shift(a) == Shift(b)
    ensures a == b
  {
    ShiftRange(a); ShiftRange(b);
    XorCancel(POLYNOMIAL, a / 2); XorCancel(POLYNOMIAL, b / 2);
  }

  lemma {:induction false} ShiftNRange(c: u32, n: nat)
    ensures 0 <= ShiftN(c, n) < 0x1_0000_0000
    decreases n
  {
    if n > 0 { ShiftRange(c); ShiftNRange(Shift(c), n - 1); }
  }

  lemma {:induction false} ShiftNInjective(a: u32, b: u32, n: nat)
    requires ShiftN(a, n) == ShiftN(b, n)
    ensures a == b
    decreases n
  {
    if n > 0 {
      ShiftRange(a); ShiftRange(b);
      ShiftNInjective(Shift(a), Shift(b), n - 1);
      ShiftInjective(a, b);
    }
  }

  // ---- bit-serial reference ----

  /** Least significant bit first, as the wire order of IEEE 802.3 has it. */
  function Bits(v: nat, n: nat): seq<bool>
    decreases n
  {
    if n == 0 then [] else [Odd(v)] + Bits(v / 2, n - 1)
  }

  function BitString(data: seq<byte>): seq<bool> {
    if data == [] then [] else Bits(data[0], 8) + BitString(data[1..])
  }

  function FeedBits(c: nat, bits: seq<bool>): nat
    decreases |bits|
  {
    if bits == [] then c else FeedBits(Shift(Xor(c, if bits[0] then 1 else 0)), bits[1..])
  }

  /** The checksum of a bit string: preset to ones, one register step per bit, complemented at the end. */
  function BitSerialCrc(bits: seq<bool>): nat {
    Xor(FeedBits(ONES, bits), ONES)
  }

  lemma {:induction false} FeedBitsAppend(c: nat, a: seq<bool>, b: seq<bool>)
    ensures FeedBits(c, a + b) == FeedBits(FeedBits(c, a), b)
    decreases |a|
  {
    if a == [] {
      assert a + b == b;
    } else {
      assert (a + b)[1..] == a[1..] + b;
      FeedBitsAppend(Shift(Xor(c, if a[0] then 1 else 0)), a[1..], b);
    }
  }

  /** Feeding the n bits of v one at a time is n register steps on the register combined with v. */
  lemma {:induction false} FeedWord(c: nat, v: nat, n: nat)
    requires v < Pow2(n)
    ensures FeedBits(c, Bits(v, n)) == ShiftN(Xor(c, v), n)
    decreases n
  {
    if n == 0 {
      XorZero(c);
    } else {
      hide Xor, Shift;
      var bit, rest := v % 2, v / 2;
      assert Bits(v, n)[1..] == Bits(rest, n - 1);
      assert FeedBits(c, Bits(v, n)) == FeedBits(Shift(Xor(c, bit)), Bits(rest, n - 1));
      assert ShiftN(Xor(c, v), n) == ShiftN(Shift(Xor(c, v)), n - 1);
      FeedWord(Shift(Xor(c, bit)), rest, n - 1);
      FeedBit(c, bit, rest);
    }
  }

  lemma {:induction false} FeedBit(c: nat, bit: nat, rest: nat)
    requires bit < 2
    ensures Shift(Xor(c, bit + 2 * rest)) == Xor(Shift(Xor(c, bit)), rest)
  {
    assert Pow2(1) == 2;
    XorJoin(bit, rest, 1);
    EvenPart(rest, 0);
    assert Shift(2 * rest) == rest;
    hide *;
    XorAssoc(c, bit, 2 * rest);
    ShiftLinear(Xor(c, bit), 2 * rest);
  }

  // ---- byte-at-a-time ----

  /** The register steps for one byte. */
  function Step8(c: nat): nat {
    ShiftN(c, 8)
  }

  /** The register after a byte string: what the loop over the data computes. */
  function Feed(c: nat, data: seq<byte>): nat
    decreases |data|
  {
    if data == [] then c else Feed(Step8(Xor(c, data[0])), data[1..])
  }

  /** The checksum the frame and image trailers carry. */
  function Checksum(data: seq<byte>): (r: u32)
  {
    FeedRange(ONES, data);
    Xor32(Feed(ONES, data), ONES);
    Xor(Feed(ONES, data), ONES)
  }

  lemma {:induction false} Xor32(a: u32, b: u32)
    ensures 0 <= Xor(a, b) < 0x1_0000_0000
  {
    Pow2Values();
    XorBound(a, b, 32);
  }

  lemma {:induction false} FeedByte(c: u32, b: byte)
    ensures 0 <= Xor(c, b) < 0x1_0000_0000
    ensures 0 <= Step8(Xor(c, b)) < 0x1_0000_0000
  {
    hide *;
    Xor32(c, b);
    ByteSteps(Xor(c, b));
    ShiftNRange(Xor(c, b), 8);
  }

  lemma {:induction false} ByteSteps(c: nat)
    ensures Step8(c) == ShiftN(c, 8)
  {
  }

  lemma {:induction false} FeedRange(c: u32, data: seq<byte>)
    ensures 0 <= Feed(c, data) < 0x1_0000_0000
    decreases |data|
  {
    hide Xor, Step8;
    if data != [] {
      FeedByte(c, data[0]);
      FeedRange(Step8(Xor(c, data[0])), data[1..]);
    }
  }

  lemma {:induction false} FeedIsBitSerial(c: nat, data: seq<byte>)
    ensures Feed(c, data) == FeedBits(c, BitString(data))
    decreases |data|
  {
    hide Xor, Step8, Bits, FeedBits, ShiftN;
    if data != [] {
      Pow2Values();
      ByteSteps(Xor(c, data[0]));
      FeedWord(c, data[0], 8);
      FeedBitsAppend(c, Bits(data[0], 8), BitString(data[1..]));
      FeedIsBitSerial(Step8(Xor(c, data[0])), data[1..]);
    } else {
      NoBits(c);
    }
  }

  lemma {:induction false} NoBits(c: nat)
    ensures FeedBits(c, []) == c
  {
  }

  /** The checksum equals the bit-serial CRC-32 of the same bytes, for every byte string. */
  lemma {:induction false} ChecksumIsBitSerial(data: seq<byte>)
    ensures Checksum(data) == BitSerialCrc(BitString(data))
  {
    hide Feed, FeedBits, Xor;
    FeedIsBitSerial(ONES, data);
  }

  /** One table lookup does eight register steps. */
  lemma {:induction false} TableStep(c: nat)
    ensures Step8(c) == Xor(Step8(c % 256), c / 256)
  {
    hide *;
    ByteSteps(c); ByteSteps(c % 256);
    Pow2Values();
    XorJoin(c % 256, c / 256, 8);
    ShiftNLinear(c % 256, 256 * (c / 256), 8);
    ShiftNOut(c / 256, 8);
  }

  method BuildTable() returns (table: array<u32>)
    ensures fresh(table) && table.Length == 256
    ensures forall i :: 0 <= i < 256 ==> table[i] == Step8(i)
  {
    hide Step8, Xor;
    table := new u32[256];
    var i: u32 := 0;
    while i < 256
      invariant 0 <= i <= 256
      invariant forall j :: 0 <= j < i ==> table[j] == Step8(j)
    {
      var c: u32 := i;
      var k := 0;
      ByteSteps(i);
      while k < 8
        invariant 0 <= k <= 8
        invariant ShiftN(c, 8 - k) == Step8(i)
        invariant forall j :: 0 <= j < i ==> table[j] == Step8(j)
      {
        ShiftRange(c);
        c := if Odd(c) then Xor(POLYNOMIAL, c / 2) else c / 2;
        k := k + 1;
      }
      assert ShiftN(c, 0) == c;
      table[i] := c;
      i := i + 1;
    }
  }

  /** The table-driven loop computes the bit-serial CRC-32. */
  method Compute(data: seq<byte>) returns (r: u32)
    ensures r == Checksum(data) == BitSerialCrc(BitString(data))
  {
    hide Step8, Xor, BitSerialCrc, BitString;
    var table := BuildTable();
    var crc: u32 := ONES;
    var i := 0;
    while i < |data|
      invariant 0 <= i <= |data|
      invariant Feed(crc, data[i..]) == Feed(ONES, data)
      invariant forall j :: 0 <= j < 256 ==> table[j] == Step8(j)
    {
      FeedByte(crc, data[i]);
      var x := Xor(crc, data[i]);
      TableStep(x);
      XorByteHigh(crc, data[i]);
      assert data[i..][1..] == data[i + 1..];
      crc := Xor(table[x % 256], crc / 256);
      i := i + 1;
    }
    ChecksumIsBitSerial(data);
    Xor32(crc, ONES);
    r := Xor(crc, ONES);
  }

  /** Combining a byte into the register leaves its upper 24 bits alone. */
  lemma {:induction false} XorByteHigh(c: nat, b: byte)
    ensures Xor(c, b) / 256 == c / 256
  {
    hide *;
    Pow2Values();
    var l, h := c % 256, c / 256;
    XorJoin(l, h, 8);
    XorComm(l, 256 * h);
    XorAssoc(256 * h, l, b);
    XorComm(256 * h, Xor(l, b));
    XorBound(l, b, 8);
    XorJoin(Xor(l, b), h, 8);
  }

  // ---- what a matching trailer rules out ----

  lemma {:induction false} FeedAppend(c: nat, a: seq<byte>, b: seq<byte>)
    ensures Feed(c, a + b) == Feed(Feed(c, a), b)
    decreases |a|
  {
    hide Xor, Step8;
    if a == [] {
      assert a + b == b;
    } else {
      assert (a + b)[1..] == a[1..] + b;
      FeedAppend(Step8(Xor(c, a[0])), a[1..], b);
    }
  }

  /** Any byte string is fed as if it were one little-endian number. */
  lemma {:induction false} FeedAsNumber(c: nat, s: seq<byte>)
    ensures Feed(c, s) == ShiftN(Xor(c, UnLE(s)), 8 * |s|)
    decreases |s|
  {
    hide Step8, ShiftN, Xor;
    if s == [] {
      FeedNone(c);
    } else {
      var b, rest, n := s[0], UnLE(s[1..]), 8 * |s[1..]|;
      FeedAsNumber(Step8(Xor(c, b)), s[1..]);
      FeedHead(c, b, rest, n);
      assert 8 + n == 8 * |s|;
    }
  }

  lemma {:induction false} FeedNone(c: nat)
    ensures ShiftN(Xor(c, 0), 0) == c
  {
    XorZero(c);
  }

  lemma {:induction false} FeedHead(c: nat, b: byte, rest: nat, n: nat)
    ensures ShiftN(Xor(Step8(Xor(c, b)), rest), n) == ShiftN(Xor(c, b + 256 * rest), 8 + n)
  {
    hide *;
    Pow2Values();
    ByteSteps(Xor(c, b));
    XorJoin(b, rest, 8);
    XorAssoc(c, b, 256 * rest);
    ShiftNLinear(Xor(c, b), 256 * rest, 8);
    ShiftNOut(rest, 8);
    ShiftNAdd(Xor(c, b + 256 * rest), 8, n);
  }

  /** The register never forgets a difference. */
  lemma {:induction false} FeedInjective(c: u32, d: u32, s: seq<byte>)
    requires Feed(c, s) == Feed(d, s)
    ensures c == d
    decreases |s|
  {
    hide Xor, Step8;
    if s != [] {
      var x, y := Xor(c, s[0]), Xor(d, s[0]);
      FeedByte(c, s[0]); FeedByte(d, s[0]);
      ByteSteps(x); ByteSteps(y);
      FeedInjective(Step8(x), Step8(y), s[1..]);
      ShiftNInjective(x, y, 8);
      XorComm(c, s[0]); XorComm(d, s[0]);
      XorCancel(s[0], c); XorCancel(s[0], d);
    }
  }

  /** From one register value, two different windows of at most four bytes leave different registers. */
  lemma {:induction false} WindowInjective(c: u32, v: seq<byte>, w: seq<byte>)
    requires |v| == |w| <= 4
    requires Feed(c, v) == Feed(c, w)
    ensures v == w
  {
    hide *;
    FeedAsNumber(c, v); FeedAsNumber(c, w);
    LEOfUnLE(v); LEOfUnLE(w);
    ShortValue(v); ShortValue(w);
    Xor32(c, UnLE(v)); Xor32(c, UnLE(w));
    ShiftNInjective(Xor(c, UnLE(v)), Xor(c, UnLE(w)), 8 * |v|);
    XorCancel(c, UnLE(v)); XorCancel(c, UnLE(w));
  }

  lemma {:induction false} ShortValue(s: seq<byte>)
    requires |s| <= 4
    ensures UnLE(s) < 0x1_0000_0000
  {
    LEOfUnLE(s);
    Widths();
    assert Pow256(|s|) <= Pow256(4);
  }

  /** A byte string whose last four bytes are the checksum of the rest. */
  predicate Sealed(b: seq<byte>) {
    |b| >= 4 && UnLE(b[|b| - 4..]) == Checksum(b[..|b| - 4])
  }

  /** The string with its checksum appended. */
  function Seal(data: seq<byte>): (b: seq<byte>)
    ensures |b| == |data| + 4
  {
    data + LE(Checksum(data), 4)
  }

  method AppendChecksum(data: seq<byte>) returns (b: seq<byte>)
    ensures b == Seal(data)
  {
    hide Checksum, BitSerialCrc, BitString, LE;
    var crc := Compute(data);
    var cw := new ByteWriter();
    cw.U32(crc);
    b := data + cw.buf;
  }

  /** Read the trailer and compare it with the checksum of what precedes it. */
  method TrailerMatches(b: seq<byte>) returns (ok: bool)
    requires |b| >= 4
    ensures ok == Sealed(b)
  {
    hide UnLE, Checksum, BitSerialCrc, BitString;
    var cr := new ByteReader(b[|b| - 4..]);
    var read, stored := cr.Word(4);
    assert b[|b| - 4..][..4] == b[|b| - 4..];
    var crc := Compute(b[..|b| - 4]);
    ok := crc == stored;
  }

  lemma {:induction false} SealIsSealed(data: seq<byte>)
    ensures Sealed(Seal(data))
    ensures Seal(data)[..|data|] == data && UnLE(Seal(data)[|data|..]) == Checksum(data)
  {
    hide Checksum;
    Widths();
    UnLEOfLE(Checksum(data), 4);
    assert Seal(data)[..|data|] == data && Seal(data)[|data|..] == LE(Checksum(data), 4);
  }

  lemma {:induction false} SealedIsSeal(b: seq<byte>)
    requires Sealed(b)
    ensures b == Seal(b[..|b| - 4])
  {
    hide Checksum;
    LEOfUnLE(b[|b| - 4..]);
  }

  /** Sealed strings are exactly those that leave one fixed register value when fed whole. */
  lemma {:induction false} SealedResidue(b: seq<byte>)
    requires |b| >= 4
    ensures Sealed(b) <==> Feed(ONES, b) == ShiftN(ONES, 32)
  {
    hide Feed, ShiftN, Xor;
    var data, trailer := b[..|b| - 4], b[|b| - 4..];
    var c, t := Feed(ONES, data), UnLE(b[|b| - 4..]);
    assert b == data + trailer;
    FeedAppend(ONES, data, trailer);
    FeedAsNumber(c, trailer);
    FeedRange(ONES, data);
    ShortValue(trailer);
    XorCancel(c, ONES);
    XorCancel(c, t);
    Xor32(c, t);
    if Feed(ONES, b) == ShiftN(ONES, 32) {
      ShiftNInjective(Xor(c, t), ONES, 32);
    }
  }

  /** Burst detection: two sealed strings of equal length that agree outside some window of four
      consecutive bytes are equal, wherever the window lies (trailer included). */
  lemma {:induction false} BurstDetected(a: seq<byte>, b: seq<byte>, start: nat)
    requires Sealed(a) && Sealed(b) && |a| == |b|
    requires forall i :: 0 <= i < |a| && !(start <= i < start + 4) ==> a[i] == b[i]
    ensures a == b
  {
    hide Checksum, Feed, ShiftN;
    if start < |a| {
      var stop := if start + 4 <= |a| then start + 4 else |a|;
      var pre, post := a[..start], a[stop..];
      var v, w := a[start..stop], b[start..stop];
      assert a == pre + (v + post) && b == pre + (w + post);
      SealedResidue(a); SealedResidue(b);
      FeedAppend(ONES, pre, v + post); FeedAppend(ONES, pre, w + post);
      FeedRange(ONES, pre);
      var c := Feed(ONES, pre);
      FeedAppend(c, v, post); FeedAppend(c, w, post);
      FeedRange(c, v); FeedRange(c, w);
      FeedInjective(Feed(c, v), Feed(c, w), post);
      WindowInjective(c, v, w);
    }
  }
}
