/** The encoder and decoder of src/persistence/store.cpp as they run, over a writer and a reader. */
module StoreCode {
  import opened Words
  import opened Fields
  import opened Crc32
  import opened Domain
  import opened Image
  import opened Store

  method WriteTable(w: ByteWriter, rows: seq<Row>)
    requires |rows| < 0x1_0000_0000
    requires forall i :: 0 <= i < |rows| ==> AllSized(rows[i])
    modifies w
    ensures w.buf == old(w.buf) + TableBytes(rows)
  {
    hide LE, PutAll, AllSized;
    w.U32(|rows|);
    var i := 0;
    ghost var start := w.buf;
    assert rows[..0] == [];
    while i < |rows|
      invariant 0 <= i <= |rows|
      invariant w.buf == start + RowsBytes(rows[..i])
    {
      WriteFields(w, rows[i]);
      assert rows[..i + 1] == rows[..i] + [rows[i]];
      RowsAppend(rows[..i], rows[i]);
      i := i + 1;
    }
    assert rows[..i] == rows;
  }

  lemma {:induction false} RowsAppend(rows: seq<Row>, row: Row)
    ensures RowsBytes(rows + [row]) == RowsBytes(rows) + PutAll(row)
    decreases |rows|
  {
    hide PutAll;
    if rows == [] {
      assert rows + [row] == [row];
      assert RowsBytes([row]) == PutAll(row) + RowsBytes([]);
    } else {
      assert (rows + [row])[1..] == rows[1..] + [row];
      RowsAppend(rows[1..], row);
    }
  }

  lemma {:induction false} SizedWithoutText(fs: Row, ks: seq<Kind>)
    requires HasKinds(fs, ks) && KText !in ks
    ensures AllSized(fs)
  {
  }

  method Encode(s: PersistentState) returns (b: seq<byte>)
    ensures b == Encoded(s)
  {
    if |s.safePoints| >= 0x1_0000_0000 || |s.receipts| >= 0x1_0000_0000 || |s.history| >= 0x1_0000_0000 {
      return [];
    }
    var raw := RawOf(s);
    hide RawOf, PutAll, LE, AllSized;
    RawShaped(s);
    TablesValid();
    NoText();
    SizedWithoutText(raw.head, HEAD_KINDS);
    SizedWithoutText(raw.mark, MARK_KINDS);
    forall i | 0 <= i < |raw.points| ensures AllSized(raw.points[i]) { SizedWithoutText(raw.points[i], POINT_KINDS); }
    forall i | 0 <= i < |raw.receipts| ensures AllSized(raw.receipts[i]) {
      SizedWithoutText(raw.receipts[i], RECEIPT_KINDS);
    }
    forall i | 0 <= i < |raw.past| ensures AllSized(raw.past[i]) { SizedWithoutText(raw.past[i], PAST_KINDS); }
    var payload := WritePayload(raw);
    b := FrameImage(payload);
  }

  method WritePayload(raw: Raw) returns (payload: seq<byte>)
    requires Shaped(raw) && AllSized(raw.head) && AllSized(raw.mark)
    requires forall i :: 0 <= i < |raw.points| ==> AllSized(raw.points[i])
    requires forall i :: 0 <= i < |raw.receipts| ==> AllSized(raw.receipts[i])
    requires forall i :: 0 <= i < |raw.past| ==> AllSized(raw.past[i])
    ensures payload == PayloadBytes(raw)
  {
    hide PutAll, AllSized, HasKinds, TableBytes;
    var body := new ByteWriter();
    WriteFields(body, raw.head);
    WriteFields(body, raw.mark);
    WriteTable(body, raw.points);
    WriteTable(body, raw.receipts);
    WriteTable(body, raw.past);
    payload := body.buf;
  }

  method FrameImage(payload: seq<byte>) returns (b: seq<byte>)
    ensures b == ImageBytes(payload)
  {
    hide LE, Checksum;
    var out: seq<byte> := MAGIC;
    var hw := new ByteWriter();
    hw.U32(VERSION);
    out := out + hw.buf;
    var lenw := new ByteWriter();
    lenw.U32(|payload| % 0x1_0000_0000);
    out := out + lenw.buf;
    assert hw.buf == LE(VERSION, 4) && lenw.buf == LE(|payload| % 0x1_0000_0000, 4);
    b := AppendChecksum(out + payload);
  }

  // ---- decoding ----

  method SweepFields(rd: ByteReader, ks: seq<Kind>, ok0: bool) returns (fs: Row, ok: bool)
    requires rd.Valid() && KText !in ks
    modifies rd
    ensures rd.Valid()
    ensures (fs, Cursor(rd.Rest(), ok)) == Sweep(ks, Cursor(old(rd.Rest()), ok0))
  {
    hide Take, Sweep;
    fs, ok := [], ok0;
    var i := 0;
    assert ks[0..] == ks;
    assert fs + Sweep(ks, Cursor(rd.Rest(), ok)).0 == Sweep(ks, Cursor(rd.Rest(), ok)).0;
    while i < |ks|
      invariant 0 <= i <= |ks| && rd.Valid()
      invariant Sweep(ks, Cursor(old(rd.Rest()), ok0)) ==
        var (tail, c) := Sweep(ks[i..], Cursor(rd.Rest(), ok)); (fs + tail, c)
    {
      ghost var before := Cursor(rd.Rest(), ok);
      var read, f := ReadField(rd, ks[i]);
      if !read { ok := false; }
      assert Sweep1(ks[i], before) == (f, Cursor(rd.Rest(), ok));
      SweepOne(ks, i, before, fs);
      fs := fs + [f];
      i := i + 1;
    }
    SweepNone(Cursor(rd.Rest(), ok));
    assert ks[i..] == [] && fs + [] == fs;
  }

  lemma {:induction false} SweepOne(ks: seq<Kind>, i: nat, c: Cursor, fs: Row)
    requires i < |ks|
    ensures var (f, c1) := Sweep1(ks[i], c);
      var (tail, end) := Sweep(ks[i + 1..], c1);
      fs + Sweep(ks[i..], c).0 == fs + [f] + tail && Sweep(ks[i..], c).1 == end
  {
    hide Sweep1;
    assert ks[i..][1..] == ks[i + 1..];
  }

  lemma SweepNone(c: Cursor)
    ensures Sweep([], c) == ([], c)
  {
  }

  method ReadTable(rd: ByteReader, t: Table, ok0: bool) returns (p: Parse<seq<Row>>)
    requires rd.Valid() && t.Valid()
    modifies rd
    ensures rd.Valid()
    ensures p == ParseTable(t, Cursor(old(rd.Rest()), ok0))
    ensures p.Parsed? ==> p.at == Cursor(rd.Rest(), true)
  {
    hide Take, Sweep;
    var ok := ok0;
    CountField(Cursor(rd.Rest(), ok0));
    var read, n := ReadField(rd, K32);
    if !read { ok := false; }
    ghost var c1 := Cursor(rd.Rest(), ok);
    assert Sweep1(K32, Cursor(old(rd.Rest()), ok0)) == (n, c1);
    var count := n.w;
    var rows: seq<Row> := [];
    var i := 0;
    PrefixedNone(ParseRows(t, count, c1));
    while ok && i < count
      invariant 0 <= i <= count && rd.Valid()
      invariant ParseRows(t, count, c1) == Prefixed(rows, ParseRows(t, count - i, Cursor(rd.Rest(), ok)))
    {
      ghost var c := Cursor(rd.Rest(), ok);
      var row;
      row, ok := SweepFields(rd, t.kinds, ok);
      SweepKinds(t.kinds, c);
      if row[t.enumAt].w > t.enumMax {
        return Rejected(InvalidEnum);
      }
      PrefixedStep(rows, row, ParseRows(t, count - i - 1, Cursor(rd.Rest(), ok)));
      rows := rows + [row];
      i := i + 1;
    }
    assert rows + [] == rows;
    p := if ok then Parsed(rows, Cursor(rd.data[rd.pos..], ok)) else Rejected(Truncated);
  }

  function Prefixed(rows: seq<Row>, p: Parse<seq<Row>>): Parse<seq<Row>> {
    match p
    case Rejected(e) => Rejected(e)
    case Parsed(more, c) => Parsed(rows + more, c)
  }

  lemma PrefixedNone(p: Parse<seq<Row>>)
    ensures Prefixed([], p) == p
  {
    if p.Parsed? { assert [] + p.value == p.value; }
  }

  lemma PrefixedStep(rows: seq<Row>, row: Row, p: Parse<seq<Row>>)
    ensures Prefixed(rows, Prefixed([row], p)) == Prefixed(rows + [row], p)
  {
    if p.Parsed? { assert rows + ([row] + p.value) == rows + [row] + p.value; }
  }

  method DecodePayload(payload: seq<byte>) returns (p: Parse<Raw>)
    ensures p == ParsePayload(payload)
  {
    TablesValid();
    NoText();
    hide Sweep, ParseTable, HEAD_KINDS, MARK_KINDS, POINTS, RECEIPTS, PAST, HasKinds, ByteReader.Rest;
    var rd := new ByteReader(payload);
    var head, mark, ok;
    head, ok := SweepFields(rd, HEAD_KINDS, true);
    ghost var c1 := Cursor(rd.Rest(), ok);
    mark, ok := SweepFields(rd, MARK_KINDS, ok);
    SweepKinds(MARK_KINDS, c1);
    MarkLeads(mark);
    if mark[0].w > 25 {
      return Rejected(InvalidEnum);
    }
    var points := ReadTable(rd, POINTS, ok);
    if points.Rejected? { return Rejected(points.error); }
    var receipts := ReadTable(rd, RECEIPTS, true);
    if receipts.Rejected? { return Rejected(receipts.error); }
    var past := ReadTable(rd, PAST, true);
    if past.Rejected? { return Rejected(past.error); }
    var end := rd.AtEnd();
    if !end { return Rejected(TrailingGarbage); }
    p := Parsed(Raw(head, mark, points.value, receipts.value, past.value), past.at);
  }

  lemma MarkLeads(mark: Row)
    requires HasKinds(mark, MARK_KINDS)
    ensures |mark| > 0 && mark[0].F32?
  {
  }

  method Decode(b: seq<byte>) returns (r: ImageResult)
    ensures r == Decoded(b)
  {
    hide ParsePayload, StateOf, Verdict, Sealed, UnLE;
    if |b| < 16 {
      return ImageFail(Truncated);
    }
    if b[0] != 0x50 || b[1] != 0x46 || b[2] != 0x53 || b[3] != 0x42 {
      assert b[..4][0] == b[0] && b[..4][1] == b[1] && b[..4][2] == b[2] && b[..4][3] == b[3];
      return ImageFail(BadMagic);
    }
    assert b[..4] == MAGIC;
    var version := ReadWord(b, 4);
    var length: nat := ReadWord(b, 8);
    if version != VERSION { return ImageFail(BadVersion); }
    if 16 + length != |b| { return ImageFail(Truncated); }
    var intact := TrailerMatches(b);
    if !intact { return ImageFail(ChecksumMismatch); }
    var p := DecodePayload(b[12..|b| - 4]);
    if p.Rejected? { return ImageFail(p.error); }
    BytesOfParsePayload(b[12..|b| - 4]);
    var s := StateOf(p.value);
    var verdict := ValidateState(s);
    r := if verdict.Some? then ImageFail(verdict.value) else ImageOk(s);
  }

  method ReadWord(b: seq<byte>, i: nat) returns (w: u32)
    requires i + 4 <= |b|
    ensures w == WordFrom(b, i)
  {
    hide UnLE;
    var rd := new ByteReader(b[i..i + 4]);
    var ok;
    assert b[i..i + 4][..4] == b[i..i + 4];
    ok, w := rd.U32();
  }
}
