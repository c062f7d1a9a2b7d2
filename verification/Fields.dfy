/** Field tables: the straight-line runs of writer and reader calls in src/protocol/framing.cpp and
    src/persistence/store.cpp, as lists of typed fields. */
module Fields {
  import opened Words

  datatype Kind = K8 | K32 | K64 | KText

  datatype Field = F8(b: byte) | F32(w: u32) | F64(q: u64) | FText(text: seq<byte>) {
    function KindOf(): Kind {
      match this
      case F8(_) => K8
      case F32(_) => K32
      case F64(_) => K64
      case FText(_) => KText
    }

    /** ByteWriter::string throws on a text whose length does not fit 32 bits. */
    predicate Sized() {
      FText? ==> |text| < 0x1_0000_0000
    }
  }

  predicate HasKinds(fs: seq<Field>, ks: seq<Kind>) {
    |fs| == |ks| && forall i :: 0 <= i < |fs| ==> fs[i].KindOf() == ks[i]
  }

  predicate AllSized(fs: seq<Field>) {
    forall i :: 0 <= i < |fs| ==> fs[i].Sized()
  }

  function Put(f: Field): (s: seq<byte>)
    ensures f.F8? ==> |s| == 1
    ensures f.F32? ==> |s| == 4
    ensures f.F64? ==> |s| == 8
    ensures f.FText? ==> |s| == 4 + |f.text|
  {
    match f
    case F8(b) => LE(b, 1)
    case F32(w) => LE(w, 4)
    case F64(q) => LE(q, 8)
    case FText(t) => LE(|t|, 4) + t
  }

  function PutAll(fs: seq<Field>): seq<byte> {
    if fs == [] then [] else Put(fs[0]) + PutAll(fs[1..])
  }

  /** A checked read: the field and what is left, or nothing. */
  function Take(k: Kind, s: seq<byte>): Option<(Field, seq<byte>)> {
    Words4(s);
    match k
    case K8 => if |s| < 1 then None else Some((F8(s[0]), s[1..]))
    case K32 => if |s| < 4 then None else Some((F32(UnLE(s[..4])), s[4..]))
    case K64 => if |s| < 8 then None else Some((F64(UnLE(s[..8])), s[8..]))
    case KText =>
      if |s| < 4 then None
      else
        var n := UnLE(s[..4]);
        if |s| - 4 < n then None else Some((FText(s[4..][..n]), s[4..][n..]))
  }

  lemma {:induction false} Words4(s: seq<byte>)
    ensures |s| >= 4 ==> UnLE(s[..4]) < 0x1_0000_0000
    ensures |s| >= 8 ==> UnLE(s[..8]) < 0x1_0000_0000_0000_0000
  {
    Widths();
    if |s| >= 4 { LEOfUnLE(s[..4]); }
    if |s| >= 8 { LEOfUnLE(s[..8]); }
  }

  function TakeAll(ks: seq<Kind>, s: seq<byte>): Option<(seq<Field>, seq<byte>)> {
    if ks == [] then Some(([], s))
    else match Take(ks[0], s)
      case None => None
      case Some((f, rest)) =>
        match TakeAll(ks[1..], rest)
        case None => None
        case Some((fs, rest')) => Some(([f] + fs, rest'))
  }

  lemma {:induction false} TakeOfPut(f: Field, rest: seq<byte>)
    requires f.Sized()
    ensures Take(f.KindOf(), Put(f) + rest) == Some((f, rest))
  {
    var s := Put(f) + rest;
    Widths();
    match f
    case F8(b) =>
      assert LE(b, 1) == [b] + LE(b / 256, 0);
      assert s[1..] == rest;
    case F32(w) =>
      UnLEOfLE(w, 4);
      assert s[..4] == LE(w, 4) && s[4..] == rest;
    case F64(q) =>
      UnLEOfLE(q, 8);
      assert s[..8] == LE(q, 8) && s[8..] == rest;
    case FText(t) =>
      UnLEOfLE(|t|, 4);
      assert s[..4] == LE(|t|, 4) && s[4..] == t + rest;
      assert (t + rest)[..|t|] == t && (t + rest)[|t|..] == rest;
  }

  lemma {:induction false} PutOfTake(k: Kind, s: seq<byte>)
    requires Take(k, s).Some?
    ensures var (f, rest) := Take(k, s).value;
      f.KindOf() == k && f.Sized() && Put(f) + rest == s && |rest| < |s|
  {
    Words4(s);
    match k
    case K8 =>
      assert LE(s[0], 1) == [s[0]] + LE(0, 0);
    case K32 =>
      LEOfUnLE(s[..4]);
    case K64 =>
      LEOfUnLE(s[..8]);
    case KText =>
      PutOfText(s);
  }

  lemma {:induction false} PutOfText(s: seq<byte>)
    requires Take(KText, s).Some?
    ensures var (f, rest) := Take(KText, s).value;
      f.KindOf() == KText && f.Sized() && Put(f) + rest == s && |rest| < |s|
  {
    Words4(s);
    LEOfUnLE(s[..4]);
    hide LE, UnLE;
    var n := UnLE(s[..4]);
    var t, rest := s[4..][..n], s[4..][n..];
    assert s == s[..4] + s[4..] && s[4..] == t + rest;
    assert (s[..4] + t) + rest == s[..4] + (t + rest);
  }

  /** Reading back what was written gives the same fields and leaves the rest. */
  lemma {:induction false} TakeAllOfPutAll(fs: seq<Field>, ks: seq<Kind>, rest: seq<byte>)
    requires HasKinds(fs, ks) && AllSized(fs)
    ensures TakeAll(ks, PutAll(fs) + rest) == Some((fs, rest))
    decreases |fs|
  {
    hide Take, Put;
    if fs == [] {
      assert PutAll(fs) + rest == rest;
    } else {
      assert PutAll(fs) + rest == Put(fs[0]) + (PutAll(fs[1..]) + rest);
      TakeOfPut(fs[0], PutAll(fs[1..]) + rest);
      TakeAllOfPutAll(fs[1..], ks[1..], rest);
      assert fs == [fs[0]] + fs[1..];
    }
  }

  /** Whatever is read was written by those fields. */
  lemma {:induction false} PutAllOfTakeAll(ks: seq<Kind>, s: seq<byte>)
    requires TakeAll(ks, s).Some?
    ensures var (fs, rest) := TakeAll(ks, s).value;
      HasKinds(fs, ks) && AllSized(fs) && PutAll(fs) + rest == s
    decreases |ks|
  {
    hide Take, Put;
    if ks != [] {
      PutOfTake(ks[0], s);
      var (f, rest) := Take(ks[0], s).value;
      PutAllOfTakeAll(ks[1..], rest);
      var (fs, rest') := TakeAll(ks[1..], rest).value;
      assert ([f] + fs)[1..] == fs;
      assert Put(f) + (PutAll(fs) + rest') == Put(f) + PutAll(fs) + rest';
    }
  }

  lemma {:induction false} PutAllAppend(a: seq<Field>, b: seq<Field>)
    ensures PutAll(a + b) == PutAll(a) + PutAll(b)
    decreases |a|
  {
    if a == [] {
      assert a + b == b;
    } else {
      assert (a + b)[1..] == a[1..] + b;
      PutAllAppend(a[1..], b);
    }
  }

  // ---- sizes ----

  function Width(k: Kind): nat {
    match k
    case K8 => 1
    case K32 => 4
    case K64 => 8
    case KText => 4
  }

  function TotalWidth(ks: seq<Kind>): nat {
    if ks == [] then 0 else Width(ks[0]) + TotalWidth(ks[1..])
  }

  lemma {:induction false} TotalWidthAppend(a: seq<Kind>, b: seq<Kind>)
    ensures TotalWidth(a + b) == TotalWidth(a) + TotalWidth(b)
  {
    if a == [] {
      assert a + b == b;
    } else {
      assert (a + b)[1..] == a[1..] + b;
      TotalWidthAppend(a[1..], b);
    }
  }

  lemma {:induction false} FixedSize(fs: seq<Field>, ks: seq<Kind>)
    requires HasKinds(fs, ks) && KText !in ks
    ensures |PutAll(fs)| == TotalWidth(ks)
    decreases |fs|
  {
    if fs != [] {
      FixedSize(fs[1..], ks[1..]);
    }
  }

  function Repeat(k: Kind, n: nat): (ks: seq<Kind>)
    ensures |ks| == n && forall i :: 0 <= i < n ==> ks[i] == k
  {
    seq(n, i => k)
  }

  lemma {:induction false} RepeatWidth(k: Kind, n: nat)
    ensures TotalWidth(Repeat(k, n)) == n * Width(k)
  {
    if n > 0 {
      assert Repeat(k, n)[1..] == Repeat(k, n - 1);
      RepeatWidth(k, n - 1);
      assert n * Width(k) == Width(k) + (n - 1) * Width(k);
    }
  }

  lemma RunSize(fs: seq<Field>, k: Kind)
    requires !k.KText? && forall i :: 0 <= i < |fs| ==> fs[i].KindOf() == k
    ensures |PutAll(fs)| == |fs| * Width(k)
  {
    FixedSize(fs, Repeat(k, |fs|));
    RepeatWidth(k, |fs|);
  }

  lemma {:induction false} SuffixWidth(ks: seq<Kind>, i: nat)
    requires i < |ks|
    ensures TotalWidth(ks[i..]) == Width(ks[i]) + TotalWidth(ks[i + 1..])
  {
    assert ks[i..][1..] == ks[i + 1..];
  }

  // ---- reads that note a failure and carry on with zero ----

  function Zero(k: Kind): Field {
    match k
    case K8 => F8(0)
    case K32 => F32(0)
    case K64 => F64(0)
    case KText => FText([])
  }

  /** The reader's position and the running "all reads so far succeeded" flag. */
  datatype Cursor = Cursor(rest: seq<byte>, ok: bool)

  function Sweep1(k: Kind, c: Cursor): (Field, Cursor) {
    match Take(k, c.rest)
    case Some((f, rest)) => (f, c.(rest := rest))
    case None => (Zero(k), c.(ok := false))
  }

  function Sweep(ks: seq<Kind>, c: Cursor): (r: (seq<Field>, Cursor))
    ensures |r.0| == |ks|
    ensures r.1.ok ==> c.ok
  {
    if ks == [] then ([], c)
    else
      var (f, c1) := Sweep1(ks[0], c);
      var (fs, c2) := Sweep(ks[1..], c1);
      ([f] + fs, c2)
  }

  lemma {:induction false} SweepKinds(ks: seq<Kind>, c: Cursor)
    ensures HasKinds(Sweep(ks, c).0, ks)
    decreases |ks|
  {
    if ks != [] {
      if Take(ks[0], c.rest).Some? { PutOfTake(ks[0], c.rest); }
      SweepKinds(ks[1..], Sweep1(ks[0], c).1);
    }
  }

  /** A sweep whose flag stays up is a strict read; one that drops it is a strict failure. */
  lemma {:induction false} SweepIsTakeAll(ks: seq<Kind>, c: Cursor)
    requires c.ok
    ensures Sweep(ks, c).1.ok <==> TakeAll(ks, c.rest).Some?
    ensures Sweep(ks, c).1.ok ==> TakeAll(ks, c.rest) == Some((Sweep(ks, c).0, Sweep(ks, c).1.rest))
    decreases |ks|
  {
    hide Take;
    if ks != [] {
      var (f, c1) := Sweep1(ks[0], c);
      if c1.ok {
        SweepIsTakeAll(ks[1..], c1);
      }
    }
  }

  // ---- the loops over writer and reader ----

  method WriteField(w: ByteWriter, f: Field)
    modifies w
    ensures w.buf == old(w.buf) + Put(f)
    requires f.Sized()
  {
    match f
    case F8(b) => w.U8(b);
    case F32(v) => w.U32(v);
    case F64(q) => w.U64(q);
    case FText(t) =>
      w.U32(|t|);
      w.Bytes(t);
  }

  method WriteFields(w: ByteWriter, fs: seq<Field>)
    requires AllSized(fs)
    modifies w
    ensures w.buf == old(w.buf) + PutAll(fs)
  {
    hide Put;
    var i := 0;
    assert fs[..0] == [];
    while i < |fs|
      invariant 0 <= i <= |fs|
      invariant w.buf == old(w.buf) + PutAll(fs[..i])
    {
      WriteField(w, fs[i]);
      assert fs[..i + 1] == fs[..i] + [fs[i]];
      PutAllAppend(fs[..i], [fs[i]]);
      assert PutAll([fs[i]]) == Put(fs[i]);
      i := i + 1;
    }
    assert fs[..i] == fs;
  }

  method ReadField(r: ByteReader, k: Kind) returns (ok: bool, f: Field)
    requires r.Valid()
    modifies r
    ensures r.Valid()
    ensures ok <==> Take(k, old(r.Rest())).Some?
    ensures ok ==> Take(k, old(r.Rest())) == Some((f, r.Rest()))
    ensures !ok ==> f == Zero(k) && r.Valid()
    ensures !ok && !k.KText? ==> r.pos == old(r.pos)
  {
    Words4(r.Rest());
    var v: nat;
    match k {
      case K8 =>
        ghost var s := r.Rest();
        ok, v := r.Word(1);
        if ok { assert s[..1] == [s[0]]; assert UnLE([s[0]]) == s[0]; f := F8(v); } else { f := F8(0); }
      case K32 =>
        ok, v := r.Word(4);
        f := if ok then F32(v) else F32(0);
      case K64 =>
        ok, v := r.Word(8);
        f := if ok then F64(v) else F64(0);
      case KText =>
        ok, v := r.Word(4);
        if ok {
          var t;
          ok, t := r.Take(v);
          f := if ok then FText(t) else FText([]);
        } else {
          f := FText([]);
        }
    }
  }
}
