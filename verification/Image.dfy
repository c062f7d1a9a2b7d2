/** The versioned, integrity-checked durable image (src/persistence/store.cpp): field tables, byte layout and the
    parse of a payload into raw rows. */
module Image {
  import opened Words
  import opened Fields
  import opened Domain

  const VERSION: u32 := 1

  // ---- field tables ----

  const HEAD_KINDS: seq<Kind> := [
    K32, K64, K64, K64, K64, K64, K64, K64, K64, K64, K64, K64]
  const MARK_KINDS: seq<Kind> := [
    K32, K64, K64, K8, K64, K8, K64, K64, K64, K8, K64, K8, K64, K64, K64]
  const POINT_KINDS: seq<Kind> := [
    K64, K64, K64, K64, K64, K64, K64, K8, K8, K32, K64]
  const RECEIPT_KINDS: seq<Kind> := [
    K32, K64, K64, K64, K64, K64]
  const PAST_KINDS: seq<Kind> := [
    K64, K64, K32]

  function Flag(b: bool): Field {
    F8(if b then 1 else 0)
  }

  function HeadFields(s: PersistentState): seq<Field> {
    [
      F32(1), F64(s.epoch), F64(s.policy), F64(s.scope.workloadId), F64(s.scope.workloadGen),
      F64(s.scope.executionId), F64(s.scope.executionGen), F64(s.scope.attemptId), F64(s.scope.attemptGen),
      F64(s.scope.workerId), F64(s.scope.workerBoot), F64(s.fencedBoot)]
  }

  function MarkFields(s: PersistentState): seq<Field> {
    [
      F32(s.lifecycle.Code()), F64(s.requestId), F64(s.requestGen), Flag(s.boundary.quiesced),
      F64(s.boundary.quiescenceGen), Flag(s.boundary.stateDurable), F64(s.boundary.captureGen),
      F64(s.boundary.checkpointRef), F64(s.boundary.checkpointGen), Flag(s.boundary.resourcesReleased),
      F64(s.boundary.releaseGen), Flag(s.preempted), F64(s.resumeGen), F64(s.durableProgress),
      F64(s.progressGen)]
  }

  function PointFields(p: SafePoint): seq<Field> {
    [
      F64(p.id), F64(p.generation), F64(p.executionId), F64(p.attemptId), F64(p.workerId), F64(p.workerBoot),
      F64(p.position), Flag(p.captureRequired), Flag(p.checkpointRequired), F32(p.state.Code()), F64(p.order)]
  }

  function ReceiptFields(r: Receipt): seq<Field> {
    [
      F32(r.resource.Code()), F64(r.units), F64(r.contractId), F64(r.contractGen), F64(r.releaseGen),
      F64(r.workerBoot)]
  }

  function PastFields(h: PastRequest): seq<Field> {
    [
      F64(h.requestId), F64(h.generation), F32(h.finalState.Code())]
  }

  // ---- raw payloads ----

  type Row = seq<Field>

  /** A payload as the reads see it, before fields are given their meaning. */
  datatype Raw = Raw(head: Row, mark: Row, points: seq<Row>, receipts: seq<Row>, past: seq<Row>)

  /** One kind of repeated record: its fields and where its enumeration sits. */
  datatype Table = Table(kinds: seq<Kind>, enumAt: nat, enumMax: nat) {
    predicate Valid() {
      enumAt < |kinds| && kinds[enumAt] == K32 && KText !in kinds
    }
    predicate Holds(row: Row) {
      HasKinds(row, kinds) && enumAt < |row| && row[enumAt].F32? && row[enumAt].w <= enumMax
    }
    predicate HoldsAll(rows: seq<Row>) {
      |rows| < 0x1_0000_0000 && forall i :: 0 <= i < |rows| ==> Holds(rows[i])
    }
  }

  const POINTS: Table := Table(POINT_KINDS, 9, 8)
  const RECEIPTS: Table := Table(RECEIPT_KINDS, 0, 11)
  const PAST: Table := Table(PAST_KINDS, 2, 25)

  lemma TablesValid()
    ensures POINTS.Valid() && RECEIPTS.Valid() && PAST.Valid()
  {
  }

  predicate Shaped(r: Raw) {
    && HasKinds(r.head, HEAD_KINDS)
    && HasKinds(r.mark, MARK_KINDS) && r.mark[0].w <= 25
    && POINTS.HoldsAll(r.points) && RECEIPTS.HoldsAll(r.receipts) && PAST.HoldsAll(r.past)
  }

  function RowsBytes(rows: seq<Row>): seq<byte> {
    if rows == [] then [] else PutAll(rows[0]) + RowsBytes(rows[1..])
  }

  /** A count followed by that many records. */
  function TableBytes(rows: seq<Row>): seq<byte> {
    LE(|rows|, 4) + RowsBytes(rows)
  }

  function PayloadBytes(r: Raw): seq<byte> {
    PutAll(r.head) + (PutAll(r.mark) + (TableBytes(r.points) + (TableBytes(r.receipts) + TableBytes(r.past))))
  }

  // ---- parsing ----

  datatype ImageError =
    | BadMagic | BadVersion | Truncated | ChecksumMismatch | InvalidEnum | TrailingGarbage | DuplicateId
    | ReleaseBeforeQuiescence | ResumeBeforePreempted | BrokenCheckpoint | InvalidResourceObligation

  datatype Parse<T> = Parsed(value: T, at: Cursor) | Rejected(error: ImageError)

  /** The record loop: it runs while all reads have succeeded, and an out-of-range enumeration stops it. */
  function ParseRows(t: Table, count: nat, c: Cursor): Parse<seq<Row>>
    requires t.Valid()
    decreases count
  {
    if count == 0 || !c.ok then Parsed([], c)
    else
      var (row, c1) := Sweep(t.kinds, c);
      SweepKinds(t.kinds, c);
      if row[t.enumAt].w > t.enumMax then Rejected(InvalidEnum)
      else match ParseRows(t, count - 1, c1)
        case Rejected(e) => Rejected(e)
        case Parsed(rows, c2) => Parsed([row] + rows, c2)
  }

  /** A count, its records, and the check that nothing was truncated so far. */
  function ParseTable(t: Table, c: Cursor): Parse<seq<Row>>
    requires t.Valid()
  {
    var (n, c1) := Sweep1(K32, c);
    CountField(c);
    match ParseRows(t, n.w, c1)
    case Rejected(e) => Rejected(e)
    case Parsed(rows, c2) => if c2.ok then Parsed(rows, c2) else Rejected(Truncated)
  }

  lemma CountField(c: Cursor)
    ensures Sweep1(K32, c).0.F32?
  {
  }

  function ParsePayload(payload: seq<byte>): Parse<Raw> {
    TablesValid();
    var (head, c1) := Sweep(HEAD_KINDS, Cursor(payload, true));
    var (mark, c2) := Sweep(MARK_KINDS, c1);
    SweepKinds(MARK_KINDS, c1);
    if mark[0].w > 25 then Rejected(InvalidEnum)
    else match ParseTable(POINTS, c2)
      case Rejected(e) => Rejected(e)
      case Parsed(points, c3) =>
        match ParseTable(RECEIPTS, c3)
        case Rejected(e) => Rejected(e)
        case Parsed(receipts, c4) =>
          match ParseTable(PAST, c4)
          case Rejected(e) => Rejected(e)
          case Parsed(past, c5) =>
            if c5.rest != [] then Rejected(TrailingGarbage) else Parsed(Raw(head, mark, points, receipts, past), c5)
  }

  // ---- parsing undoes writing, and only writing ----

  lemma {:induction false} SweepOfPut(fs: Row, ks: seq<Kind>, rest: seq<byte>)
    requires HasKinds(fs, ks) && KText !in ks
    ensures Sweep(ks, Cursor(PutAll(fs) + rest, true)) == (fs, Cursor(rest, true))
  {
    hide Sweep, TakeAll, PutAll;
    TakeAllOfPutAll(fs, ks, rest);
    SweepIsTakeAll(ks, Cursor(PutAll(fs) + rest, true));
  }

  lemma {:induction false} PutOfSweep(ks: seq<Kind>, c: Cursor)
    requires Sweep(ks, c).1.ok
    ensures c.ok && HasKinds(Sweep(ks, c).0, ks)
    ensures PutAll(Sweep(ks, c).0) + Sweep(ks, c).1.rest == c.rest
  {
    hide Sweep, TakeAll, PutAll;
    SweepIsTakeAll(ks, c);
    PutAllOfTakeAll(ks, c.rest);
  }

  lemma {:induction false} ParseRowsOfBytes(t: Table, rows: seq<Row>, rest: seq<byte>)
    requires t.Valid() && t.HoldsAll(rows)
    ensures ParseRows(t, |rows|, Cursor(RowsBytes(rows) + rest, true)) == Parsed(rows, Cursor(rest, true))
    decreases |rows|
  {
    hide Sweep, PutAll;
    if rows == [] {
      assert RowsBytes(rows) + rest == rest;
    } else {
      assert t.Holds(rows[0]);
      assert RowsBytes(rows) + rest == PutAll(rows[0]) + (RowsBytes(rows[1..]) + rest);
      SweepOfPut(rows[0], t.kinds, RowsBytes(rows[1..]) + rest);
      ParseRowsOfBytes(t, rows[1..], rest);
      assert rows == [rows[0]] + rows[1..];
    }
  }

  lemma {:induction false} BytesOfParseRows(t: Table, count: u32, c: Cursor)
    requires t.Valid() && ParseRows(t, count, c).Parsed? && ParseRows(t, count, c).at.ok && c.ok
    ensures var p := ParseRows(t, count, c);
      t.HoldsAll(p.value) && |p.value| == count && RowsBytes(p.value) + p.at.rest == c.rest
    decreases count
  {
    hide Sweep, PutAll;
    if count > 0 {
      var (row, c1) := Sweep(t.kinds, c);
      SweepKinds(t.kinds, c);
      var rows := ParseRows(t, count - 1, c1).value;
      RowsFlag(t, count - 1, c1);
      PutOfSweep(t.kinds, c);
      BytesOfParseRows(t, count - 1, c1);
      assert ([row] + rows)[1..] == rows;
      var rest := ParseRows(t, count, c).at.rest;
      assert PutAll(row) + RowsBytes(rows) + rest == PutAll(row) + (RowsBytes(rows) + rest);
    }
  }

  /** The flag never comes back up. */
  lemma {:induction false} RowsFlag(t: Table, count: nat, c: Cursor)
    requires t.Valid() && ParseRows(t, count, c).Parsed? && ParseRows(t, count, c).at.ok
    ensures c.ok
    decreases count
  {
  }

  lemma {:induction false} ParseTableOfBytes(t: Table, rows: seq<Row>, rest: seq<byte>)
    requires t.Valid() && t.HoldsAll(rows)
    ensures ParseTable(t, Cursor(TableBytes(rows) + rest, true)) == Parsed(rows, Cursor(rest, true))
  {
    hide Take, Put, LE;
    assert TableBytes(rows) + rest == LE(|rows|, 4) + (RowsBytes(rows) + rest);
    PutCount(|rows|);
    TakeOfPut(F32(|rows|), RowsBytes(rows) + rest);
    ParseRowsOfBytes(t, rows, rest);
  }

  lemma PutCount(n: u32)
    ensures Put(F32(n)) == LE(n, 4) && F32(n).KindOf() == K32
  {
  }

  lemma {:induction false} BytesOfParseTable(t: Table, c: Cursor)
    requires t.Valid() && ParseTable(t, c).Parsed?
    ensures var p := ParseTable(t, c);
      c.ok && p.at.ok && t.HoldsAll(p.value) && TableBytes(p.value) + p.at.rest == c.rest
  {
    hide Take, Put, LE, ParseRows, RowsBytes;
    var (n, c1) := Sweep1(K32, c);
    CountField(c);
    RowsFlag(t, n.w, c1);
    PutOfTake(K32, c.rest);
    PutCount(n.w);
    BytesOfParseRows(t, n.w, c1);
    var p := ParseTable(t, c);
    assert TableBytes(p.value) + p.at.rest == LE(n.w, 4) + (RowsBytes(p.value) + p.at.rest);
  }

  lemma {:induction false} ParsePayloadOfBytes(r: Raw)
    requires Shaped(r)
    ensures ParsePayload(PayloadBytes(r)) == Parsed(r, Cursor([], true))
  {
    TablesValid();
    NoText();
    hide Sweep, PutAll, ParseTable, TableBytes;
    var b5: seq<byte> := TableBytes(r.past);
    var b4 := TableBytes(r.receipts) + b5;
    var b3 := TableBytes(r.points) + b4;
    SweepOfPut(r.head, HEAD_KINDS, PutAll(r.mark) + b3);
    SweepOfPut(r.mark, MARK_KINDS, b3);
    ParseTableOfBytes(POINTS, r.points, b4);
    ParseTableOfBytes(RECEIPTS, r.receipts, b5);
    assert b5 + [] == b5;
    ParseTableOfBytes(PAST, r.past, []);
  }

  lemma NoText()
    ensures KText !in HEAD_KINDS && KText !in MARK_KINDS
  {
  }

  lemma {:induction false} BytesOfParsePayload(payload: seq<byte>)
    requires ParsePayload(payload).Parsed?
    ensures Shaped(ParsePayload(payload).value)
    ensures PayloadBytes(ParsePayload(payload).value) == payload
  {
    TablesValid();
    hide Sweep, PutAll, ParseTable, TableBytes;
    var c0 := Cursor(payload, true);
    var (head, c1) := Sweep(HEAD_KINDS, c0);
    var (mark, c2) := Sweep(MARK_KINDS, c1);
    SweepKinds(MARK_KINDS, c1);
    var points := ParseTable(POINTS, c2);
    BytesOfParseTable(POINTS, c2);
    var receipts := ParseTable(RECEIPTS, points.at);
    BytesOfParseTable(RECEIPTS, points.at);
    var past := ParseTable(PAST, receipts.at);
    BytesOfParseTable(PAST, receipts.at);
    assert TableBytes(past.value) + [] == TableBytes(past.value);
    PutOfSweep(MARK_KINDS, c1);
    PutOfSweep(HEAD_KINDS, c0);
  }

  // ---- sizes ----

  lemma {:induction false} TableWidths()
    ensures TotalWidth(HEAD_KINDS) == 92 && TotalWidth(MARK_KINDS) == 88
    ensures TotalWidth(POINT_KINDS) == 70 && TotalWidth(RECEIPT_KINDS) == 44 && TotalWidth(PAST_KINDS) == 20
  {
    HeadWidth(); MarkWidth(); PointWidth(); ReceiptWidth(); PastWidth();
  }

  lemma {:induction false} HeadWidth()
    ensures TotalWidth(HEAD_KINDS) == 92
  {
    assert HEAD_KINDS == [K32] + Repeat(K64, 11);
    TotalWidthAppend([K32], Repeat(K64, 11));
    RepeatWidth(K64, 11);
    RepeatWidth(K32, 1);
    assert Repeat(K32, 1) == [K32];
  }

  lemma {:induction false} MarkWidth()
    ensures TotalWidth(MARK_KINDS) == 88
  {
    hide TotalWidth;
    var ks := MARK_KINDS;
    MarkTailWidth();
    SuffixWidth(ks, 0); SuffixWidth(ks, 1); SuffixWidth(ks, 2); SuffixWidth(ks, 3); SuffixWidth(ks, 4);
    SuffixWidth(ks, 5); SuffixWidth(ks, 6); SuffixWidth(ks, 7);
    WholeWidth(ks);
  }

  lemma {:induction false} MarkTailWidth()
    ensures TotalWidth(MARK_KINDS[8..]) == 42
  {
    hide TotalWidth;
    var ks := MARK_KINDS;
    SuffixWidth(ks, 8); SuffixWidth(ks, 9); SuffixWidth(ks, 10); SuffixWidth(ks, 11); SuffixWidth(ks, 12);
    SuffixWidth(ks, 13); SuffixWidth(ks, 14);
    WholeWidth(ks);
  }

  lemma {:induction false} WholeWidth(ks: seq<Kind>)
    ensures TotalWidth(ks[0..]) == TotalWidth(ks) && TotalWidth(ks[|ks|..]) == 0
  {
    assert ks[0..] == ks;
  }

  lemma {:induction false} PointWidth()
    ensures TotalWidth(POINT_KINDS) == 70
  {
    hide TotalWidth;
    var ks := POINT_KINDS;
    assert ks == Repeat(K64, 7) + ks[7..];
    TotalWidthAppend(Repeat(K64, 7), ks[7..]);
    RepeatWidth(K64, 7);
    SuffixWidth(ks, 7); SuffixWidth(ks, 8); SuffixWidth(ks, 9); SuffixWidth(ks, 10);
    WholeWidth(ks);
  }

  lemma {:induction false} ReceiptWidth()
    ensures TotalWidth(RECEIPT_KINDS) == 44
  {
    hide TotalWidth;
    var ks := RECEIPT_KINDS;
    SuffixWidth(ks, 0); SuffixWidth(ks, 1); SuffixWidth(ks, 2); SuffixWidth(ks, 3); SuffixWidth(ks, 4);
    SuffixWidth(ks, 5);
    WholeWidth(ks);
  }

  lemma {:induction false} PastWidth()
    ensures TotalWidth(PAST_KINDS) == 20
  {
    hide TotalWidth;
    var ks := PAST_KINDS;
    SuffixWidth(ks, 0); SuffixWidth(ks, 1); SuffixWidth(ks, 2);
    WholeWidth(ks);
  }

  lemma {:induction false} RowsSize(t: Table, rows: seq<Row>)
    requires t.Valid() && forall i :: 0 <= i < |rows| ==> t.Holds(rows[i])
    ensures |RowsBytes(rows)| == TotalWidth(t.kinds) * |rows|
    decreases |rows|
  {
    hide TotalWidth, PutAll;
    if rows != [] {
      assert t.Holds(rows[0]);
      FixedSize(rows[0], t.kinds);
      RowsSize(t, rows[1..]);
      OneMore(TotalWidth(t.kinds), |rows[1..]|);
    }
  }

  lemma OneMore(w: nat, n: nat)
    ensures w + w * n == w * (n + 1)
  {
  }

  /** The payload length depends on the record counts alone. */
  lemma {:induction false} PayloadLength(r: Raw)
    requires Shaped(r)
    ensures |PayloadBytes(r)| == 192 + 70 * |r.points| + 44 * |r.receipts| + 20 * |r.past|
  {
    TablesValid();
    NoText();
    TableWidths();
    hide TotalWidth, PutAll, RowsBytes, LE;
    FixedSize(r.head, HEAD_KINDS);
    FixedSize(r.mark, MARK_KINDS);
    RowsSize(POINTS, r.points);
    RowsSize(RECEIPTS, r.receipts);
    RowsSize(PAST, r.past);
  }
}
