/** CRC-32 as section 3.2.9 of IEEE 802.3 defines it: the complemented remainder of a division by the generator
    polynomial, on bit strings, and the proof that the code of include/preemption_fabric/util/crc32.hpp computes it. */
module Division {
  import opened Words
  import opened Offsets
  import opened Crc32

  // ---- the standard ----

  /** The exponents of the generating polynomial. */
  const EXPONENTS: set<nat> := {32, 26, 23, 22, 16, 12, 11, 10, 8, 7, 5, 4, 2, 1, 0}

  /** Its coefficients, highest power first. */
  function Generator(): (g: seq<bool>)
    ensures |g| == 33 && forall i :: 0 <= i < 33 ==> (g[i] <==> 32 - i in EXPONENTS)
  {
    seq(33, i requires 0 <= i < 33 => 32 - i in EXPONENTS)
  }

  /** Addition of polynomials over the field of two elements. */
  function Add(a: seq<bool>, b: seq<bool>): (s: seq<bool>)
    requires |a| == |b|
    ensures |s| == |a| && forall i :: 0 <= i < |s| ==> (s[i] <==> a[i] != b[i])
  {
    seq(|a|, i requires 0 <= i < |a| => a[i] != b[i])
  }

  function Complement(a: seq<bool>): (s: seq<bool>)
    ensures |s| == |a| && forall i :: 0 <= i < |s| ==> (s[i] <==> !a[i])
  {
    seq(|a|, i requires 0 <= i < |a| => !a[i])
  }

  function Zeros(n: nat): (s: seq<bool>)
    ensures |s| == n && forall i :: 0 <= i < n ==> !s[i]
  {
    seq(n, i => false)
  }

  /** Long division: while more than 32 coefficients are left, subtract the generator from the front if the leading one
      is set, and drop it. */
  function Remainder(s: seq<bool>): (r: seq<bool>)
    requires |s| >= 32
    ensures |r| == 32
    decreases |s|
  {
    if |s| == 32 then s
    else if s[0] then Remainder(Add(s[..33], Generator())[1..] + s[33..])
    else Remainder(s[1..])
  }

  /** A byte goes out least significant bit first. */
  function ByteBits(b: byte): seq<bool> {
    [b % 2 == 1, b / 2 % 2 == 1, b / 4 % 2 == 1, b / 8 % 2 == 1,
     b / 16 % 2 == 1, b / 32 % 2 == 1, b / 64 % 2 == 1, b / 128 % 2 == 1]
  }

  function WireBits(data: seq<byte>): seq<bool> {
    if data == [] then [] else ByteBits(data[0]) + WireBits(data[1..])
  }

  /** The message times x^32, its first 32 bits complemented. */
  function Dividend(data: seq<byte>): (s: seq<bool>)
    ensures |s| >= 32
  {
    var m := WireBits(data) + Zeros(32);
    Complement(m[..32]) + m[32..]
  }

  /** The number whose bits, least significant first, are these. */
  function Number(bits: seq<bool>): nat {
    if bits == [] then 0 else (if bits[0] then 1 else 0) + 2 * Number(bits[1..])
  }

  /** The frame check sequence: the complement of the remainder, its highest power sent first. */
  function FrameCheck(data: seq<byte>): nat {
    Number(Complement(Remainder(Dividend(data))))
  }

  // ---- bits of a register ----

  lemma {:induction false} BitsLength(v: nat, n: nat)
    ensures |Bits(v, n)| == n
    decreases n
  {
    if n > 0 { BitsLength(v / 2, n - 1); }
  }

  lemma {:induction false} NumberOfBits(v: nat, n: nat)
    requires v < Pow2(n)
    ensures Number(Bits(v, n)) == v
    decreases n
  {
    if n > 0 {
      NumberOfBits(v / 2, n - 1);
      assert Bits(v, n)[1..] == Bits(v / 2, n - 1);
    }
  }

  lemma {:induction false} BitsOfXor(a: nat, b: nat, n: nat)
    ensures |Bits(a, n)| == |Bits(b, n)| && Bits(Xor(a, b), n) == Add(Bits(a, n), Bits(b, n))
    decreases n
  {
    BitsLength(a, n); BitsLength(b, n); BitsLength(Xor(a, b), n);
    if n > 0 {
      BitsOfXor(a / 2, b / 2, n - 1);
      XorStep(a, b);
      hide Xor;
      assert Bits(Xor(a, b), n) == [Odd(Xor(a, b))] + Add(Bits(a / 2, n - 1), Bits(b / 2, n - 1));
    }
  }

  /** A number below 2^n has no bit at n. */
  lemma {:induction false} BitsPadded(v: nat, n: nat)
    requires v < Pow2(n)
    ensures Bits(v, n + 1) == Bits(v, n) + [false]
    decreases n
  {
    if n > 0 {
      BitsPadded(v / 2, n - 1);
    } else {
      assert v == 0 && Bits(0, 1) == [false] + Bits(0, 0);
    }
  }

  /** Halving moves every bit one place down. */
  lemma {:induction false} BitsOfHalf(v: nat, n: nat)
    requires n > 0 && v < Pow2(n)
    ensures |Bits(v, n)| == n && Bits(v / 2, n) == Bits(v, n)[1..] + [false]
  {
    BitsLength(v, n);
    BitsPadded(v / 2, n - 1);
    assert Bits(v, n)[1..] == Bits(v / 2, n - 1);
  }

  lemma {:induction false} BitsSplit(low: nat, high: nat, k: nat, n: nat)
    requires low < Pow2(k)
    ensures Bits(low + Pow2(k) * high, k + n) == Bits(low, k) + Bits(high, n)
    decreases k
  {
    if k == 0 {
      assert Bits(low, 0) + Bits(high, n) == Bits(high, n);
    } else {
      Doubled(k, high);
      var m := Pow2(k - 1) * high;
      EvenPart(m, low);
      BitsSplit(low / 2, high, k - 1, n);
      assert [Odd(low)] + (Bits(low / 2, k - 1) + Bits(high, n)) == [Odd(low)] + Bits(low / 2, k - 1) + Bits(high, n);
    }
  }

  lemma {:induction false} OneBit(v: nat, n: nat)
    ensures Bits(v, n + 1) == [v % 2 == 1] + Bits(v / 2, n)
  {
  }

  lemma {:induction false} FourBits(v: nat, n: nat)
    ensures Bits(v, n + 4) == [v % 2 == 1, v / 2 % 2 == 1, v / 4 % 2 == 1, v / 8 % 2 == 1] + Bits(v / 16, n)
  {
    hide Bits;
    OneBit(v, n + 3); OneBit(v / 2, n + 2); OneBit(v / 4, n + 1); OneBit(v / 8, n);
    assert v / 2 / 2 == v / 4 && v / 4 / 2 == v / 8 && v / 8 / 2 == v / 16;
  }

  lemma {:induction false} NoBitsLeft(v: nat)
    ensures Bits(v, 0) == []
  {
  }

  lemma {:induction false} Halves(b: byte)
    ensures b / 16 / 2 == b / 32 && b / 16 / 4 == b / 64 && b / 16 / 8 == b / 128
  {
  }

  lemma {:induction false} ByteIsBits(b: byte)
    ensures Bits(b, 8) == ByteBits(b)
  {
    hide Bits;
    Halves(b);
    FourBits(b, 4);
    FourBits(b / 16, 0);
    NoBitsLeft(b / 16 / 16);
  }

  lemma {:induction false} WireIsBits(data: seq<byte>)
    ensures WireBits(data) == BitString(data)
    decreases |data|
  {
    hide ByteBits, Bits;
    if data != [] {
      ByteIsBits(data[0]);
      WireIsBits(data[1..]);
    }
  }

  lemma {:induction false} FirstByte()
    ensures Generator()[1..9] == ByteBits(0x20)
  {
    hide Generator;
    var g := Generator();
    assert !g[1] && !g[2] && !g[3] && !g[4] && !g[5] && g[6] && !g[7] && !g[8];
    hide EXPONENTS;
    assert ByteBits(0x20) == [false, false, false, false, false, true, false, false];
  }

  lemma {:induction false} SecondByte()
    ensures Generator()[9..17] == ByteBits(0x83)
  {
    hide Generator;
    var g := Generator();
    assert g[9] && g[10] && !g[11] && !g[12] && !g[13] && !g[14] && !g[15] && g[16];
    hide EXPONENTS;
    assert ByteBits(0x83) == [true, true, false, false, false, false, false, true];
  }

  lemma {:induction false} ThirdByte()
    ensures Generator()[17..25] == ByteBits(0xb8)
  {
    hide Generator;
    var g := Generator();
    assert !g[17] && !g[18] && !g[19] && g[20] && g[21] && g[22] && !g[23] && g[24];
    hide EXPONENTS;
    assert ByteBits(0xb8) == [false, false, false, true, true, true, false, true];
  }

  lemma {:induction false} FourthByte()
    ensures Generator()[25..33] == ByteBits(0xed)
  {
    hide Generator;
    var g := Generator();
    assert g[25] && !g[26] && g[27] && g[28] && !g[29] && g[30] && g[31] && g[32];
    hide EXPONENTS;
    assert ByteBits(0xed) == [true, false, true, true, false, true, true, true];
  }

  lemma {:induction false} SplitByte(low: byte, high: nat, n: nat)
    ensures Bits(low + 256 * high, 8 + n) == ByteBits(low) + Bits(high, n)
  {
    Pow2Values();
    BitsSplit(low, high, 8, n);
    ByteIsBits(low);
  }

  /** The reflected constant holds the coefficients of the generator below its leading one. */
  lemma {:induction false} PolynomialBits()
    ensures Bits(POLYNOMIAL, 32) == Generator()[1..]
  {
    hide Bits, Generator, ByteBits;
    var g := Generator();
    FirstByte(); SecondByte(); ThirdByte(); FourthByte();
    SplitByte(0x20, 0xEDB883, 24);
    SplitByte(0x83, 0xEDB8, 16);
    SplitByte(0xB8, 0xED, 8);
    ByteIsBits(0xED);
    assert POLYNOMIAL == 0x20 + 256 * 0xEDB883 && 0xEDB883 == 0x83 + 256 * 0xEDB8 && 0xEDB8 == 0xB8 + 256 * 0xED;
    assert g[1..] == g[1..9] + (g[9..17] + (g[17..25] + g[25..33]));
  }

  // ---- the division is the shift register ----

  /** What is left to divide: the register added to the front of the message, which is followed by 32 zeros. */
  function Line(c: nat, m: seq<bool>): (s: seq<bool>)
    ensures |s| == |m| + 32
  {
    BitsLength(c, 32);
    Add(Bits(c, 32) + Zeros(|m|), m + Zeros(32))
  }

  function Bit(b: bool): nat {
    if b then 1 else 0
  }

  /** One bit of the message: what leaves the register decides whether the generator is subtracted. */
  lemma {:induction false} LineStep(c: u32, m: seq<bool>)
    requires m != []
    ensures var s := Line(c, m);
      && (s[0] <==> Odd(Xor(c, Bit(m[0]))))
      && s[1..] == Line(Xor(c, Bit(m[0])) / 2, m[1..])
  {
    hide Xor, Bits;
    LowBit(c, m[0]);
    Pow2Values();
    BitsOfHalf(c, 32);
    BitsLength(c / 2, 32);
    FirstBit(c, 31);
    var s, t := Line(c, m), Line(c / 2, m[1..]);
    forall i | 0 <= i < |t| ensures s[i + 1] == t[i] {
      assert (m + Zeros(32))[i + 1] == (m[1..] + Zeros(32))[i];
      assert (Bits(c, 32) + Zeros(|m|))[i + 1] == (Bits(c / 2, 32) + Zeros(|m| - 1))[i];
    }
  }

  lemma {:induction false} LowBit(c: nat, b: bool)
    ensures Odd(Xor(c, Bit(b))) <==> Odd(c) != b
    ensures Xor(c, Bit(b)) / 2 == c / 2
  {
    hide Xor;
    XorStep(c, Bit(b));
    XorZero(c / 2);
  }

  lemma {:induction false} FirstBit(v: nat, n: nat)
    ensures |Bits(v, n + 1)| > 0 && Bits(v, n + 1)[0] == Odd(v)
  {
  }

  /** Subtracting the generator from the front adds the constant to the register. */
  lemma {:induction false} LineSubtract(c: nat, m: seq<bool>, lead: bool)
    requires lead
    ensures Add(([lead] + Line(c, m))[..33], Generator())[1..] + ([lead] + Line(c, m))[33..] ==
      Line(Xor(POLYNOMIAL, c), m)
  {
    PolynomialBits();
    BitsOfXor(POLYNOMIAL, c, 32);
    BitsLength(c, 32); BitsLength(POLYNOMIAL, 32); BitsLength(Xor(POLYNOMIAL, c), 32);
    hide Xor, Bits, Generator;
    var s, t := [lead] + Line(c, m), Line(Xor(POLYNOMIAL, c), m);
    var u := Add(s[..33], Generator())[1..] + s[33..];
    forall i | 0 <= i < |t| ensures u[i] == t[i] {
      if i < 32 {
        assert u[i] == (s[i + 1] != Generator()[i + 1]) && Generator()[i + 1] == Bits(POLYNOMIAL, 32)[i];
      } else {
        assert u[i] == s[i + 1];
      }
    }
  }

  lemma {:induction false} DivisionIsShifting(c: u32, m: seq<bool>)
    ensures Remainder(Line(c, m)) == Bits(FeedBits(c, m), 32)
    decreases |m|
  {
    hide Xor, Add, Generator, Bits, ShiftN, Bit, Line;
    if m == [] {
      EmptyLine(c);
      hide FeedBits;
      NoBits(c);
    } else {
      var x, s := Xor(c, Bit(m[0])), Line(c, m);
      SmallBit(m[0]);
      Xor32(c, Bit(m[0]));
      LineStep(c, m);
      ShiftRange(x);
      DivisionIsShifting(Shift(x), m[1..]);
      FeedOne(c, m);
      hide FeedBits;
      assert s == [s[0]] + s[1..];
      if s[0] { LineSubtract(x / 2, m[1..], s[0]); }
    }
  }

  lemma {:induction false} EmptyLine(c: nat)
    ensures Line(c, []) == Bits(c, 32)
  {
    hide Bits;
    BitsLength(c, 32);
  }

  lemma SmallBit(b: bool)
    ensures Bit(b) < 0x1_0000_0000
  {
  }

  lemma {:induction false} FeedOne(c: nat, m: seq<bool>)
    requires m != []
    ensures FeedBits(c, m) == FeedBits(Shift(Xor(c, Bit(m[0]))), m[1..])
  {
    hide Xor, Shift;
  }

  // ---- the checksum ----

  /** The preset register is the complement of the first 32 bits. */
  lemma {:induction false} DividendIsLine(data: seq<byte>)
    ensures Dividend(data) == Line(ONES, WireBits(data))
  {
    hide WireBits;
    OnesBits();
    var m := WireBits(data) + Zeros(32);
    var s, t := Dividend(data), Line(ONES, WireBits(data));
    forall i | 0 <= i < |s| ensures s[i] == t[i] {
      if i < 32 { assert m[..32][i] == m[i]; }
    }
  }

  lemma {:induction false} AllOnes(v: nat, n: nat)
    requires v + 1 == Pow2(n)
    ensures |Bits(v, n)| == n && forall i :: 0 <= i < n ==> Bits(v, n)[i]
    decreases n
  {
    if n > 0 { AllOnes(v / 2, n - 1); }
  }

  lemma {:induction false} OnesBits()
    ensures |Bits(ONES, 32)| == 32 && forall i :: 0 <= i < 32 ==> Bits(ONES, 32)[i]
  {
    hide Bits, Pow2;
    Pow2Values();
    AllOnes(ONES, 32);
  }

  /** The checksum of the code is the frame check sequence of IEEE 802.3, on every byte string: the complement of the
      remainder of the complemented message by the generator, read least significant bit first. */
  lemma {:induction false} ChecksumIsRemainder(data: seq<byte>)
    ensures Checksum(data) == FrameCheck(data)
  {
    hide Feed, FeedBits, Xor, Remainder, Bits, Line, Dividend, WireBits;
    var c := Feed(ONES, data);
    FeedRange(ONES, data);
    FeedIsBitSerial(ONES, data);
    WireIsBits(data);
    DividendIsLine(data);
    DivisionIsShifting(ONES, WireBits(data));
    BitsOfXor(c, ONES, 32);
    OnesBits();
    Pow2Values();
    Xor32(c, ONES);
    NumberOfBits(Xor(c, ONES), 32);
    assert Add(Bits(c, 32), Bits(ONES, 32)) == Complement(Bits(c, 32));
  }

  /** The trailer holds the frame check sequence of what precedes it. */
  predicate Intact(b: seq<byte>)
    requires |b| >= 4
  {
    Word(b, |b| - 4) == FrameCheck(b[..|b| - 4])
  }

  lemma {:induction false} IntactIsSealed(b: seq<byte>)
    requires |b| >= 4
    ensures Intact(b) <==> Sealed(b)
  {
    hide UnLE, Checksum, FrameCheck, Word;
    WordIsUnLE(b, |b| - 4);
    assert b[|b| - 4..|b|] == b[|b| - 4..];
    ChecksumIsRemainder(b[..|b| - 4]);
  }
}
