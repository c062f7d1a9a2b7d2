/** Machine words and their little-endian byte form (include/preemption_fabric/util/binary.hpp).
    Words are integers with an explicit range, so that wrap-around is visible where it happens. */
module Words {

  type byte = x: int | 0 <= x < 0x100
  type u32 = x: int | 0 <= x < 0x1_0000_0000
  type u64 = x: int | 0 <= x < 0x1_0000_0000_0000_0000

  const MAX64: u64 := 0xFFFF_FFFF_FFFF_FFFF

  datatype Option<+T> = None | Some(value: T)

  /** Unsigned 64-bit addition, wrapping. */
  function WrapAdd(a: u64, b: u64): (r: u64)
    ensures a + b <= MAX64 ==> r == a + b
  {
    (a + b) % 0x1_0000_0000_0000_0000
  }

  function Pow256(n: nat): (r: nat)
    ensures r >= 1
  {
    if n == 0 then 1 else 256 * Pow256(n - 1)
  }

  /** The n low bytes of v, least significant first. */
  function LE(v: nat, n: nat): (s: seq<byte>)
    ensures |s| == n
  {
    if n == 0 then [] else [v % 256] + LE(v / 256, n - 1)
  }

  /** The value of a little-endian byte string. */
  function UnLE(s: seq<byte>): nat {
    if s == [] then 0 else s[0] + 256 * UnLE(s[1..])
  }

  lemma Widths()
    ensures Pow256(4) == 0x1_0000_0000 && Pow256(8) == 0x1_0000_0000_0000_0000
  {
    assert Pow256(2) == 0x1_0000;
    assert Pow256(4) == 256 * (256 * Pow256(2));
    assert Pow256(6) == 256 * (256 * Pow256(4));
  }

  lemma {:induction false} UnLEOfLE(v: nat, n: nat)
    requires v < Pow256(n)
    ensures UnLE(LE(v, n)) == v
  {
    if n > 0 {
      UnLEOfLE(v / 256, n - 1);
      assert LE(v, n)[1..] == LE(v / 256, n - 1);
    }
  }

  lemma {:induction false} LEOfUnLE(s: seq<byte>)
    ensures UnLE(s) < Pow256(|s|)
    ensures LE(UnLE(s), |s|) == s
  {
    if s != [] {
      LEOfUnLE(s[1..]);
      assert UnLE(s) % 256 == s[0] && UnLE(s) / 256 == UnLE(s[1..]);
      assert s == [s[0]] + s[1..];
    }
  }

  /** v shifted right by 8i bits. */
  function Shr8(v: nat, i: nat): nat
    decreases i
  {
    if i == 0 then v else Shr8(v / 256, i - 1)
  }

  lemma {:induction false} Shr8Next(v: nat, i: nat)
    ensures Shr8(v, i + 1) == Shr8(v, i) / 256
    decreases i
  {
    if i > 0 { Shr8Next(v / 256, i - 1); }
  }

  /** Byte i of the little-endian form is the value shifted right by 8i bits, masked to eight bits. */
  lemma {:induction false} LEAt(v: nat, n: nat, i: nat)
    requires i < n
    ensures LE(v, n)[i] == Shr8(v, i) % 256
  {
    if i > 0 { LEAt(v / 256, n - 1, i - 1); }
  }

  /** Splitting a little-endian value at a byte boundary. */
  lemma {:induction false} UnLESplit(a: seq<byte>, b: seq<byte>)
    ensures UnLE(a + b) == UnLE(a) + Pow256(|a|) * UnLE(b)
  {
    if a == [] {
      assert a + b == b;
    } else {
      UnLESplit(a[1..], b);
      assert (a + b)[1..] == a[1..] + b;
      assert 256 * (Pow256(|a| - 1) * UnLE(b)) == Pow256(|a|) * UnLE(b);
    }
  }

  lemma {:induction false} FourBytes(v: u32)
    ensures LE(v, 4) == [v % 256, v / 0x100 % 256, v / 0x1_0000 % 256, v / 0x100_0000 % 256]
  {
    LEAt(v, 4, 0); LEAt(v, 4, 1); LEAt(v, 4, 2); LEAt(v, 4, 3);
    Shr8Next(v, 0); Shr8Next(v, 1); Shr8Next(v, 2);
    hide *;
    assert v / 256 / 256 == v / 0x1_0000 && v / 256 / 256 / 256 == v / 0x100_0000;
  }

  lemma {:induction false} SliceOfPrefix(a: seq<byte>, b: seq<byte>, i: nat, j: nat)
    requires i <= j <= |a|
    ensures (a + b)[i..j] == a[i..j]
    ensures (a + b)[j..] == a[j..] + b
  {
  }

  /** Append-only output buffer. */
  class ByteWriter {
    var buf: seq<byte>

    constructor ()
      ensures buf == []
    {
      buf := [];
    }

    method U8(v: byte)
      modifies this
      ensures buf == old(buf) + LE(v, 1)
    {
      assert LE(v, 1) == [v] + LE(0, 0);
      buf := buf + [v];
    }

    method U32(v: u32)
      modifies this
      ensures buf == old(buf) + LE(v, 4)
    {
      ghost var start := buf;
      buf := buf + [v % 256];
      buf := buf + [v / 0x100 % 256];
      buf := buf + [v / 0x1_0000 % 256];
      buf := buf + [v / 0x100_0000 % 256];
      FourBytes(v);
      assert buf == start + LE(v, 4);
    }

    method U64(v: u64)
      modifies this
      ensures buf == old(buf) + LE(v, 8)
    {
      var i := 0;
      var shifted := v;
      while i < 8
        invariant 0 <= i <= 8
        invariant shifted == Shr8(v, i)
        invariant buf == old(buf) + LE(v, 8)[..i]
      {
        LEAt(v, 8, i);
        Shr8Next(v, i);
        assert LE(v, 8)[..i + 1] == LE(v, 8)[..i] + [LE(v, 8)[i]];
        buf := buf + [shifted % 256];
        shifted := shifted / 256;
        i := i + 1;
      }
      assert LE(v, 8)[..8] == LE(v, 8);
    }

    method Bytes(data: seq<byte>)
      modifies this
      ensures buf == old(buf) + data
    {
      buf := buf + data;
    }
  }

  /** Bounds-checked cursor over a byte string. A failed read leaves the cursor where it was. */
  class ByteReader {
    const data: seq<byte>
    var pos: nat

    ghost predicate Valid()
      reads this
    {
      pos <= |data|
    }

    ghost function Rest(): (r: seq<byte>)
      requires Valid()
      reads this
    {
      data[pos..]
    }

    constructor (d: seq<byte>)
      ensures Valid() && data == d && pos == 0 && Rest() == d
    {
      data := d;
      pos := 0;
    }

    method AtEnd() returns (end: bool)
      requires Valid()
      ensures end == (Rest() == [])
    {
      end := pos == |data|;
    }

    /** The shared body of the u8, u32 and u64 reads: n bytes, combined by shifting. */
    method Word(n: nat) returns (ok: bool, v: nat)
      requires Valid()
      modifies this
      ensures Valid()
      ensures ok == (|old(Rest())| >= n)
      ensures ok ==> v == UnLE(old(Rest())[..n]) && Rest() == old(Rest())[n..]
      ensures !ok ==> v == 0 && pos == old(pos)
    {
      if |data| - pos < n {
        return false, 0;
      }
      var i := 0;
      var weight: nat := 1;
      v := 0;
      ghost var window := data[pos..pos + n];
      while i < n
        invariant 0 <= i <= n && weight == Pow256(i) && pos == old(pos)
        invariant v == UnLE(window[..i])
      {
        assert window[..i + 1] == window[..i] + [window[i]];
        UnLESplit(window[..i], [window[i]]);
        assert UnLE([window[i]]) == window[i];
        v := v + weight * data[pos + i];
        weight := 256 * weight;
        i := i + 1;
      }
      assert window[..n] == window == old(Rest())[..n];
      assert data[pos..][n..] == data[pos + n..];
      pos := pos + n;
      ok := true;
    }

    method U32() returns (ok: bool, v: u32)
      requires Valid()
      modifies this
      ensures Valid()
      ensures ok == (|old(Rest())| >= 4)
      ensures ok ==> v == UnLE(old(Rest())[..4]) && Rest() == old(Rest())[4..]
      ensures !ok ==> v == 0 && pos == old(pos)
    {
      ghost var s := Rest();
      var w;
      ok, w := Word(4);
      Widths();
      if ok { LEOfUnLE(s[..4]); }
      v := w;
    }

    method Take(n: nat) returns (ok: bool, s: seq<byte>)
      requires Valid()
      modifies this
      ensures Valid()
      ensures ok == (|old(Rest())| >= n)
      ensures ok ==> s == old(Rest())[..n] && Rest() == old(Rest())[n..]
      ensures !ok ==> s == [] && pos == old(pos)
    {
      if |data| - pos < n {
        return false, [];
      }
      assert data[pos..][n..] == data[pos + n..];
      s := data[pos..pos + n];
      assert s == data[pos..][..n];
      pos := pos + n;
      ok := true;
    }
  }
}
