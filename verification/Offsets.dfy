/** Numbers at byte offsets, and where the fields of a table lie. */
module Offsets {
  import opened Words
  import opened Fields

  // ---- numbers at offsets ----

  /** The 32-bit number at offset i, least significant byte first. */
  function Word(b: seq<byte>, i: nat): (n: nat)
    requires i + 4 <= |b|
    ensures n < 0x1_0000_0000
  {
    var p: int, q: int, r: int, s: int := b[i], b[i + 1], b[i + 2], b[i + 3];
    p + 0x100 * q + 0x1_0000 * r + 0x100_0000 * s
  }

  /** The 64-bit number at offset i. */
  function Long(b: seq<byte>, i: nat): (n: nat)
    requires i + 8 <= |b|
    ensures n < 0x1_0000_0000_0000_0000
  {
    Word(b, i) + 0x1_0000_0000 * Word(b, i + 4)
  }

  lemma {:induction false} UnLEOfFour(s: seq<byte>)
    requires |s| == 4
    ensures UnLE(s) == Word(s, 0)
  {
    assert s[3..][1..] == [] && s[2..][1..] == s[3..] && s[1..][1..] == s[2..];
    assert UnLE(s[3..]) == s[3];
    assert UnLE(s[2..]) == s[2] + 256 * UnLE(s[3..]);
    assert UnLE(s[1..]) == s[1] + 256 * UnLE(s[2..]);
  }

  lemma {:induction false} WordIsUnLE(b: seq<byte>, i: nat)
    requires i + 4 <= |b|
    ensures UnLE(b[i..i + 4]) == Word(b, i)
  {
    hide UnLE;
    UnLEOfFour(b[i..i + 4]);
  }

  lemma {:induction false} LongIsUnLE(b: seq<byte>, i: nat)
    requires i + 8 <= |b|
    ensures UnLE(b[i..i + 8]) == Long(b, i)
  {
    hide UnLE, Word;
    WordIsUnLE(b, i);
    WordIsUnLE(b, i + 4);
    assert b[i..i + 8] == b[i..i + 4] + b[i + 4..i + 8];
    UnLESplit(b[i..i + 4], b[i + 4..i + 8]);
    Widths();
  }

  lemma {:induction false} FourAre(s: seq<byte>, t: seq<byte>)
    requires |s| == |t| == 4
    ensures s == t <==> Word(s, 0) == Word(t, 0)
  {
    hide LE, Word;
    UnLEOfFour(s); UnLEOfFour(t);
    LEOfUnLE(s); LEOfUnLE(t);
  }

  /** A slice has the same numbers. */
  lemma {:induction false} WordInSlice(b: seq<byte>, from: nat, to: nat, i: nat)
    requires from + i + 4 <= to <= |b|
    ensures Word(b[from..to], i) == Word(b, from + i)
  {
  }

  lemma {:induction false} LongInSlice(b: seq<byte>, from: nat, to: nat, i: nat)
    requires from + i + 8 <= to <= |b|
    ensures Long(b[from..to], i) == Long(b, from + i)
  {
    hide Word;
    WordInSlice(b, from, to, i);
    WordInSlice(b, from, to, i + 4);
  }

  // ---- fields at offsets ----

  /** The bytes before field i. */
  function Offset(ks: seq<Kind>, i: nat): nat
    requires i <= |ks|
  {
    TotalWidth(ks[..i])
  }

  lemma {:induction false} OffsetStep(ks: seq<Kind>, i: nat)
    requires i < |ks|
    ensures Offset(ks, i + 1) == Offset(ks, i) + Width(ks[i])
  {
    assert ks[..i + 1] == ks[..i] + [ks[i]];
    TotalWidthAppend(ks[..i], [ks[i]]);
    assert TotalWidth([ks[i]]) == Width(ks[i]) + TotalWidth([]);
  }

  lemma OffsetZero(ks: seq<Kind>)
    ensures Offset(ks, 0) == 0
  {
  }

  lemma {:induction false} FieldBytes(fs: seq<Field>, ks: seq<Kind>, i: nat)
    requires HasKinds(fs, ks) && i < |ks| && KText !in ks[..i]
    ensures var o, n := Offset(ks, i), |Put(fs[i])|;
      o + n <= |PutAll(fs)| && PutAll(fs)[o..o + n] == Put(fs[i])
  {
    hide Put;
    var before, after := fs[..i], fs[i + 1..];
    FixedSize(before, ks[..i]);
    assert fs == before + ([fs[i]] + after);
    PutAllAppend(before, [fs[i]] + after);
    PutAllAppend([fs[i]], after);
    assert [fs[i]][1..] == [];
    assert PutAll([fs[i]]) == Put(fs[i]) + PutAll([]);
    hide PutAll;
    var a, p, z := PutAll(before), Put(fs[i]), PutAll(after);
    assert PutAll(fs) == a + (p + z);
  }

  lemma {:induction false} ByteField(fs: seq<Field>, ks: seq<Kind>, i: nat)
    requires HasKinds(fs, ks) && i < |ks| && KText !in ks[..i] && ks[i] == K8
    ensures var o := Offset(ks, i); fs[i].F8? && o + 1 <= |PutAll(fs)| && PutAll(fs)[o] == fs[i].b
  {
    FieldBytes(fs, ks, i);
    hide PutAll, Offset;
    var o := Offset(ks, i);
    assert PutAll(fs)[o] == PutAll(fs)[o..o + 1][0];
    assert Put(fs[i])[0] == fs[i].b % 256;
  }

  lemma {:induction false} WordField(fs: seq<Field>, ks: seq<Kind>, i: nat)
    requires HasKinds(fs, ks) && i < |ks| && KText !in ks[..i] && ks[i] == K32
    ensures var o := Offset(ks, i); fs[i].F32? && o + 4 <= |PutAll(fs)| && Word(PutAll(fs), o) == fs[i].w
  {
    FieldBytes(fs, ks, i);
    hide PutAll, Offset, LE, UnLE, Word;
    Widths();
    WordIsUnLE(PutAll(fs), Offset(ks, i));
    UnLEOfLE(fs[i].w, 4);
  }

  lemma {:induction false} LongField(fs: seq<Field>, ks: seq<Kind>, i: nat)
    requires HasKinds(fs, ks) && i < |ks| && KText !in ks[..i] && ks[i] == K64
    ensures var o := Offset(ks, i); fs[i].F64? && o + 8 <= |PutAll(fs)| && Long(PutAll(fs), o) == fs[i].q
  {
    FieldBytes(fs, ks, i);
    hide PutAll, Offset, LE, UnLE, Long;
    Widths();
    LongIsUnLE(PutAll(fs), Offset(ks, i));
    UnLEOfLE(fs[i].q, 8);
  }

  /** Fixed fields can be read from any string that is long enough. */
  lemma {:induction false} FixedTake(ks: seq<Kind>, s: seq<byte>)
    requires KText !in ks
    ensures TakeAll(ks, s).Some? <==> |s| >= TotalWidth(ks)
    ensures TakeAll(ks, s).Some? ==> TakeAll(ks, s).value.1 == s[TotalWidth(ks)..]
    decreases |ks|
  {
    if ks != [] {
      FixedTakeOne(ks[0], s);
      hide Take, Width;
      if |s| >= Width(ks[0]) {
        FixedTake(ks[1..], s[Width(ks[0])..]);
        if |s| >= TotalWidth(ks) { assert s[Width(ks[0])..][TotalWidth(ks[1..])..] == s[TotalWidth(ks)..]; }
      }
    } else {
      assert s[0..] == s;
    }
  }

  lemma {:induction false} FixedTakeOne(k: Kind, s: seq<byte>)
    requires k != KText
    ensures Take(k, s).Some? <==> |s| >= Width(k)
    ensures Take(k, s).Some? ==> Take(k, s).value.1 == s[Width(k)..]
  {
    hide UnLE;
  }
}
