/** Meaning of the durable image (src/persistence/store.cpp): validation, encoding, decoding. */
module Store {
  import opened Words
  import opened Fields
  import opened Crc32
  import opened Lifecycle
  import opened Adapters
  import opened Domain
  import opened Image

  // ---- validation ----

  predicate OnMainPath(s: LifecycleState) {
    s in {Requested, ValidatingAuthority, Assessing, Deferred, WaitingForSafePoint, SafePointReached, Quiescing,
          Quiesced, CaptureRequired, CapturingState, StateDurable, ReleasePending, Releasing, ResourcesReleased,
          Preempted, ResumePending, Revalidating, Restoring, ResumeReady, Resuming, Resumed}
  }

  predicate ReleaseReached(s: LifecycleState) {
    s in {ReleasePending, Releasing, ResourcesReleased, Preempted, ResumePending, Revalidating, Restoring,
          ResumeReady, Resuming, Resumed}
  }

  predicate ResumeReached(s: LifecycleState) {
    s in {ResumePending, Revalidating, Restoring, ResumeReady, Resuming, Resumed}
  }

  /** The first complaint about the safe points, given the identifiers already seen. */
  function PointsVerdict(ps: seq<SafePoint>, seen: set<u64>): Option<ImageError>
    decreases |ps|
  {
    if ps == [] then None
    else if ps[0].id == 0 || ps[0].id in seen then Some(DuplicateId)
    else if ps[0].state == SpUnset then Some(InvalidEnum)
    else PointsVerdict(ps[1..], seen + {ps[0].id})
  }

  function ReceiptsVerdict(rs: seq<Receipt>): Option<ImageError> {
    if rs == [] then None
    else if rs[0].resource == NoResource then Some(InvalidEnum)
    else if rs[0].contractGen == 0 || rs[0].releaseGen == 0 then Some(InvalidResourceObligation)
    else if rs[0].units == 0 then Some(InvalidResourceObligation)
    else ReceiptsVerdict(rs[1..])
  }

  /** The validation ladder: its first complaint, if any. */
  function Verdict(s: PersistentState): Option<ImageError> {
    var b := s.boundary;
    if s.formatVersion != VERSION then Some(BadVersion)
    else if OnMainPath(s.lifecycle) && ReleaseReached(s.lifecycle) &&
            (!b.quiesced || !b.stateDurable || !b.resourcesReleased) then Some(ReleaseBeforeQuiescence)
    else if OnMainPath(s.lifecycle) && ResumeReached(s.lifecycle) && !s.preempted then Some(ResumeBeforePreempted)
    else if s.preempted && !b.stateDurable then Some(ReleaseBeforeQuiescence)
    else if b.stateDurable && !(b.checkpointRef != 0 && b.checkpointGen != 0) then Some(BrokenCheckpoint)
    else match PointsVerdict(s.safePoints, {})
      case Some(e) => Some(e)
      case None => ReceiptsVerdict(s.receipts)
  }

  /** What an image must satisfy, with no order of tests. */
  predicate WellFormed(s: PersistentState) {
    && s.formatVersion == VERSION
    && (ReleaseReached(s.lifecycle) ==>
          s.boundary.quiesced && s.boundary.stateDurable && s.boundary.resourcesReleased)
    && (ResumeReached(s.lifecycle) ==> s.preempted)
    && (s.preempted ==> s.boundary.stateDurable)
    && (s.boundary.stateDurable ==> s.boundary.checkpointRef != 0 && s.boundary.checkpointGen != 0)
    && PointsWellFormed(s.safePoints)
    && ReceiptsWellFormed(s.receipts)
  }

  predicate PointsWellFormed(ps: seq<SafePoint>) {
    && (forall i :: 0 <= i < |ps| ==> ps[i].id != 0 && ps[i].state != SpUnset)
    && (forall i, j :: 0 <= i < j < |ps| ==> ps[i].id != ps[j].id)
  }

  predicate ReceiptsWellFormed(rs: seq<Receipt>) {
    forall i :: 0 <= i < |rs| ==>
      rs[i].resource != NoResource && rs[i].contractGen != 0 && rs[i].releaseGen != 0 && rs[i].units != 0
  }

  lemma {:induction false} PointsVerdictMeans(ps: seq<SafePoint>, seen: set<u64>)
    ensures PointsVerdict(ps, seen).None? <==>
      PointsWellFormed(ps) && forall i :: 0 <= i < |ps| ==> ps[i].id !in seen
    decreases |ps|
  {
    if ps != [] {
      var t, seen' := ps[1..], seen + {ps[0].id};
      PointsVerdictMeans(t, seen');
      assert forall i :: 0 <= i < |t| ==> t[i] == ps[i + 1];
      assert forall i :: 1 <= i < |ps| ==> ps[i] == t[i - 1];
    }
  }

  lemma {:induction false} ReceiptsVerdictMeans(rs: seq<Receipt>)
    ensures ReceiptsVerdict(rs).None? <==> ReceiptsWellFormed(rs)
  {
    if rs != [] {
      var t := rs[1..];
      ReceiptsVerdictMeans(t);
      assert forall i :: 1 <= i < |rs| ==> rs[i] == t[i - 1];
    }
  }

  /** The ladder accepts exactly the well-formed states. */
  lemma {:induction false} VerdictMeans(s: PersistentState)
    ensures Verdict(s).None? <==> WellFormed(s)
  {
    PointsVerdictMeans(s.safePoints, {});
    ReceiptsVerdictMeans(s.receipts);
    hide PointsVerdict, PointsWellFormed, ReceiptsVerdict, ReceiptsWellFormed;
  }

  /** The identifier of point i is invalid or was used before. */
  predicate Repeats(ps: seq<SafePoint>, seen: set<u64>, i: nat)
    requires i < |ps|
  {
    ps[i].id == 0 || ps[i].id in seen || exists j :: 0 <= j < i && ps[j].id == ps[i].id
  }

  /** The complaint about the points is about the first bad one: its identifier, or else its state. */
  lemma {:induction false} FirstBadPoint(ps: seq<SafePoint>, seen: set<u64>) returns (i: nat)
    requires PointsVerdict(ps, seen).Some?
    ensures i < |ps| && (forall j :: 0 <= j < i ==> !Repeats(ps, seen, j) && ps[j].state != SpUnset)
    ensures Repeats(ps, seen, i) || ps[i].state == SpUnset
    ensures PointsVerdict(ps, seen) == Some(if Repeats(ps, seen, i) then DuplicateId else InvalidEnum)
    decreases |ps|
  {
    if ps[0].id == 0 || ps[0].id in seen || ps[0].state == SpUnset {
      i := 0;
    } else {
      var t, seen' := ps[1..], seen + {ps[0].id};
      var k := FirstBadPoint(t, seen');
      i := k + 1;
      forall j | 0 <= j < |t| ensures Repeats(t, seen', j) <==> Repeats(ps, seen, j + 1) { RepeatsTail(ps, seen, j); }
      hide Repeats;
      forall j | 1 <= j < i ensures !Repeats(ps, seen, j) && ps[j].state != SpUnset {
        assert ps[j] == t[j - 1] && !Repeats(t, seen', j - 1);
      }
      NotFirst(ps, seen);
    }
  }

  lemma {:induction false} NotFirst(ps: seq<SafePoint>, seen: set<u64>)
    requires ps != [] && ps[0].id != 0 && ps[0].id !in seen
    ensures !Repeats(ps, seen, 0)
  {
  }

  lemma {:induction false} RepeatsTail(ps: seq<SafePoint>, seen: set<u64>, j: nat)
    requires j + 1 < |ps|
    ensures Repeats(ps[1..], seen + {ps[0].id}, j) <==> Repeats(ps, seen, j + 1)
  {
    var t := ps[1..];
    if Repeats(ps, seen, j + 1) && exists k :: 0 <= k < j + 1 && ps[k].id == ps[j + 1].id {
      var k :| 0 <= k < j + 1 && ps[k].id == ps[j + 1].id;
      if k > 0 { assert t[k - 1].id == t[j].id; }
    }
    if exists k :: 0 <= k < j && t[k].id == t[j].id {
      var k :| 0 <= k < j && t[k].id == t[j].id;
      assert ps[k + 1].id == ps[j + 1].id;
    }
  }

  /** The complaint about the receipts is about the first bad one: its resource, or else its obligation. */
  lemma {:induction false} FirstBadReceipt(rs: seq<Receipt>) returns (i: nat)
    requires ReceiptsVerdict(rs).Some?
    ensures i < |rs| && ReceiptsWellFormed(rs[..i])
    ensures var r := rs[i];
      && (r.resource == NoResource || r.contractGen == 0 || r.releaseGen == 0 || r.units == 0)
      && ReceiptsVerdict(rs) == Some(if r.resource == NoResource then InvalidEnum else InvalidResourceObligation)
  {
    var r := rs[0];
    if r.resource == NoResource || r.contractGen == 0 || r.releaseGen == 0 || r.units == 0 {
      i := 0;
    } else {
      var k := FirstBadReceipt(rs[1..]);
      i := k + 1;
      assert rs[..i] == [r] + rs[1..][..k];
    }
  }

  /** Each complaint of the ladder and when it comes: the version, then release before quiescence, resume before
      preemption, preemption without durable state, a broken checkpoint, and last the first bad record. */
  lemma {:induction false} VerdictCodes(s: PersistentState)
    ensures var b, n, v := s.boundary, s.lifecycle.Code(), Verdict(s);
      var unreleased := 12 <= n <= 21 && !(b.quiesced && b.stateDurable && b.resourcesReleased);
      var unpreempted := 16 <= n <= 21 && !s.preempted;
      var volatile := s.preempted && !b.stateDurable;
      var broken := b.stateDurable && !(b.checkpointRef != 0 && b.checkpointGen != 0);
      && (v == Some(BadVersion) <==> s.formatVersion != 1)
      && (v == Some(ReleaseBeforeQuiescence) <==>
            s.formatVersion == 1 && (unreleased || (!unpreempted && volatile)))
      && (v == Some(ResumeBeforePreempted) <==> s.formatVersion == 1 && !unreleased && unpreempted)
      && (v == Some(BrokenCheckpoint) <==>
            s.formatVersion == 1 && !unreleased && !unpreempted && !volatile && broken)
      && (s.formatVersion == 1 && !unreleased && !unpreempted && !volatile && !broken ==>
            v == if PointsVerdict(s.safePoints, {}).Some? then PointsVerdict(s.safePoints, {})
                 else ReceiptsVerdict(s.receipts))
  {
    PathCodes(s.lifecycle);
    ComplaintKinds(s.safePoints, {}, s.receipts);
    hide PointsVerdict, ReceiptsVerdict, OnMainPath, ReleaseReached, ResumeReached, LifecycleState.Code;
  }

  lemma PathCodes(s: LifecycleState)
    ensures OnMainPath(s) <==> 1 <= s.Code() <= 21
    ensures ReleaseReached(s) <==> 12 <= s.Code() <= 21
    ensures ResumeReached(s) <==> 16 <= s.Code() <= 21
  {
  }

  lemma {:induction false} ComplaintKinds(ps: seq<SafePoint>, seen: set<u64>, rs: seq<Receipt>)
    ensures PointsVerdict(ps, seen).Some? ==> PointsVerdict(ps, seen).value in {DuplicateId, InvalidEnum}
    ensures ReceiptsVerdict(rs).Some? ==> ReceiptsVerdict(rs).value in {InvalidEnum, InvalidResourceObligation}
  {
    hide PointsVerdict, ReceiptsVerdict;
    if PointsVerdict(ps, seen).Some? { var i := FirstBadPoint(ps, seen); }
    if ReceiptsVerdict(rs).Some? { var i := FirstBadReceipt(rs); }
  }

  /** The validation loops, with the growing set of identifiers. */
  method ValidateState(s: PersistentState) returns (r: Option<ImageError>)
    ensures r == Verdict(s)
  {
    var b := s.boundary;
    if s.formatVersion != VERSION { return Some(BadVersion); }
    if OnMainPath(s.lifecycle) {
      if ReleaseReached(s.lifecycle) {
        if !b.quiesced { return Some(ReleaseBeforeQuiescence); }
        if !b.stateDurable { return Some(ReleaseBeforeQuiescence); }
        if !b.resourcesReleased { return Some(ReleaseBeforeQuiescence); }
      }
      if ResumeReached(s.lifecycle) {
        if !s.preempted { return Some(ResumeBeforePreempted); }
      }
    }
    if s.preempted && !b.stateDurable { return Some(ReleaseBeforeQuiescence); }
    if b.stateDurable && !(b.checkpointRef != 0 && b.checkpointGen != 0) { return Some(BrokenCheckpoint); }
    hide OnMainPath, ReleaseReached, ResumeReached;
    var seen: set<u64> := {};
    var ps := s.safePoints;
    var i := 0;
    assert ps[0..] == ps;
    while i < |ps|
      invariant 0 <= i <= |ps|
      invariant PointsVerdict(ps, {}) == PointsVerdict(ps[i..], seen)
    {
      assert ps[i..][1..] == ps[i + 1..];
      if ps[i].id == 0 { return Some(DuplicateId); }
      if ps[i].id in seen { return Some(DuplicateId); }
      seen := seen + {ps[i].id};
      if ps[i].state == SpUnset { return Some(InvalidEnum); }
      i := i + 1;
    }
    var rs := s.receipts;
    i := 0;
    assert rs[0..] == rs;
    while i < |rs|
      invariant 0 <= i <= |rs|
      invariant ReceiptsVerdict(rs) == ReceiptsVerdict(rs[i..])
    {
      assert rs[i..][1..] == rs[i + 1..];
      if rs[i].resource == NoResource { return Some(InvalidEnum); }
      if rs[i].contractGen == 0 || rs[i].releaseGen == 0 { return Some(InvalidResourceObligation); }
      if rs[i].units == 0 { return Some(InvalidResourceObligation); }
      i := i + 1;
    }
    r := None;
  }

  // ---- fields and states ----

  function PointOf(row: Row): SafePoint
    requires POINTS.Holds(row)
  {
    SafePoint(row[0].q, row[1].q, row[2].q, row[3].q, row[4].q, row[5].q, row[6].q, row[7].b != 0, row[8].b != 0,
      SafePointStateOf(row[9].w), row[10].q)
  }

  function ReceiptOf(row: Row): Receipt
    requires RECEIPTS.Holds(row)
  {
    Receipt(ResourceOf(row[0].w), row[1].q, row[2].q, row[3].q, row[4].q, row[5].q)
  }

  function PastOf(row: Row): PastRequest
    requires PAST.Holds(row)
  {
    SupersededRequest(row[0].q, row[1].q, FromCode(row[2].w))
  }

  function StateOf(r: Raw): PersistentState
    requires Shaped(r)
  {
    var h, m := r.head, r.mark;
    PersistentState(
      h[0].w, h[1].q, h[2].q, Scope(h[3].q, h[4].q, h[5].q, h[6].q, h[7].q, h[8].q, h[9].q, h[10].q), h[11].q,
      FromCode(m[0].w), m[1].q, m[2].q,
      Boundary(m[3].b != 0, m[4].q, m[5].b != 0, m[6].q, m[7].q, m[8].q, m[9].b != 0, m[10].q),
      m[11].b != 0, m[12].q, m[13].q, m[14].q,
      seq(|r.points|, i requires 0 <= i < |r.points| => PointOf(r.points[i])),
      seq(|r.receipts|, i requires 0 <= i < |r.receipts| => ReceiptOf(r.receipts[i])),
      seq(|r.past|, i requires 0 <= i < |r.past| => PastOf(r.past[i])))
  }

  function RawOf(s: PersistentState): Raw {
    Raw(HeadFields(s), MarkFields(s),
      seq(|s.safePoints|, i requires 0 <= i < |s.safePoints| => PointFields(s.safePoints[i])),
      seq(|s.receipts|, i requires 0 <= i < |s.receipts| => ReceiptFields(s.receipts[i])),
      seq(|s.history|, i requires 0 <= i < |s.history| => PastFields(s.history[i])))
  }

  /** All three record counts fit the 32-bit count fields. */
  predicate Countable(s: PersistentState) {
    |s.safePoints| < 0x1_0000_0000 && |s.receipts| < 0x1_0000_0000 && |s.history| < 0x1_0000_0000
  }

  lemma PointRow(p: SafePoint)
    ensures POINTS.Holds(PointFields(p)) && PointOf(PointFields(p)) == p
  {
  }

  lemma ReceiptRow(r: Receipt)
    ensures RECEIPTS.Holds(ReceiptFields(r)) && ReceiptOf(ReceiptFields(r)) == r
  {
    ResourceCodes(r.resource);
  }

  lemma PastRow(h: PastRequest)
    ensures PAST.Holds(PastFields(h)) && PastOf(PastFields(h)) == h
  {
    FromCodeOfCode(h.finalState);
  }

  lemma HeaderRows(s: PersistentState)
    ensures HasKinds(HeadFields(s), HEAD_KINDS) && HasKinds(MarkFields(s), MARK_KINDS)
    ensures MarkFields(s)[0].w == s.lifecycle.Code()
  {
  }

  lemma {:induction false} RawShaped(s: PersistentState)
    requires Countable(s)
    ensures Shaped(RawOf(s))
  {
    HeaderRows(s);
    forall i | 0 <= i < |s.safePoints| ensures POINTS.Holds(PointFields(s.safePoints[i])) { PointRow(s.safePoints[i]); }
    forall i | 0 <= i < |s.receipts| ensures RECEIPTS.Holds(ReceiptFields(s.receipts[i])) { ReceiptRow(s.receipts[i]); }
    forall i | 0 <= i < |s.history| ensures PAST.Holds(PastFields(s.history[i])) { PastRow(s.history[i]); }
    hide HeadFields, MarkFields, PointFields, ReceiptFields, PastFields;
  }

  /** The tables lose nothing but the format version, which is always written as the current one. */
  lemma {:induction false} StateOfRawOf(s: PersistentState)
    requires Countable(s)
    ensures Shaped(RawOf(s)) && StateOf(RawOf(s)) == s.(formatVersion := VERSION)
  {
    RawShaped(s);
    var t := StateOf(RawOf(s));
    ListsOfRawOf(s);
    FromCodeOfCode(s.lifecycle);
    hide PointOf, ReceiptOf, PastOf, PointFields, ReceiptFields, PastFields, FromCode;
    HeadersOfRawOf(s);
  }

  lemma {:induction false} ListsOfRawOf(s: PersistentState)
    requires Countable(s) && Shaped(RawOf(s))
    ensures StateOf(RawOf(s)).safePoints == s.safePoints
    ensures StateOf(RawOf(s)).receipts == s.receipts
    ensures StateOf(RawOf(s)).history == s.history
  {
    forall i | 0 <= i < |s.safePoints| ensures StateOf(RawOf(s)).safePoints[i] == s.safePoints[i] {
      PointRow(s.safePoints[i]);
    }
    forall i | 0 <= i < |s.receipts| ensures StateOf(RawOf(s)).receipts[i] == s.receipts[i] {
      ReceiptRow(s.receipts[i]);
    }
    forall i | 0 <= i < |s.history| ensures StateOf(RawOf(s)).history[i] == s.history[i] {
      PastRow(s.history[i]);
    }
    hide PointOf, ReceiptOf, PastOf, PointFields, ReceiptFields, PastFields, HeadFields, MarkFields;
  }

  lemma {:induction false} HeadersOfRawOf(s: PersistentState)
    requires Countable(s) && Shaped(RawOf(s))
    ensures StateOf(RawOf(s)).(safePoints := [], receipts := [], history := []) ==
      s.(formatVersion := VERSION, safePoints := [], receipts := [], history := [])
  {
    FromCodeOfCode(s.lifecycle);
    hide PointOf, ReceiptOf, PastOf, PointFields, ReceiptFields, PastFields, FromCode, LifecycleState.Code;
  }

  // ---- sizes ----

  /** Exact payload length. */
  function PayloadSize(s: PersistentState): nat {
    192 + 70 * |s.safePoints| + 44 * |s.receipts| + 20 * |s.history|
  }

  // ---- images ----

  const MAGIC: seq<byte> := [0x50, 0x46, 0x53, 0x42]

  /** Magic, version, 32-bit payload length, payload, checksum. */
  function ImageBytes(payload: seq<byte>): seq<byte> {
    Seal(MAGIC + LE(VERSION, 4) + LE(|payload| % 0x1_0000_0000, 4) + payload)
  }

  /** Too many records to count yield an empty image. */
  function Encoded(s: PersistentState): seq<byte> {
    if Countable(s) then ImageBytes(PayloadBytes(RawOf(s))) else []
  }

  datatype ImageResult = ImageOk(state: PersistentState) | ImageFail(error: ImageError)

  function WordFrom(b: seq<byte>, i: nat): (w: u32)
    requires i + 4 <= |b|
  {
    Widths();
    LEOfUnLE(b[i..i + 4]);
    UnLE(b[i..i + 4])
  }

  function Decoded(b: seq<byte>): ImageResult {
    if |b| < 16 then ImageFail(Truncated)
    else if b[..4] != MAGIC then ImageFail(BadMagic)
    else if WordFrom(b, 4) != VERSION then ImageFail(BadVersion)
    else if 16 + WordFrom(b, 8) != |b| then ImageFail(Truncated)
    else if !Sealed(b) then ImageFail(ChecksumMismatch)
    else match ParsePayload(b[12..|b| - 4])
      case Rejected(e) => ImageFail(e)
      case Parsed(raw, _) =>
        BytesOfParsePayload(b[12..|b| - 4]);
        var s := StateOf(raw);
        match Verdict(s)
        case Some(e) => ImageFail(e)
        case None => ImageOk(s)
  }

  lemma {:induction false} ImageShape(payload: seq<byte>)
    ensures var b := ImageBytes(payload);
      && |b| == 16 + |payload| && b[..4] == MAGIC && WordFrom(b, 4) == VERSION
      && WordFrom(b, 8) == |payload| % 0x1_0000_0000 && b[12..|b| - 4] == payload && Sealed(b)
  {
    hide LE, UnLE, Pow256, Checksum;
    Widths();
    var n := |payload| % 0x1_0000_0000;
    UnLEOfLE(VERSION, 4);
    UnLEOfLE(n, 4);
    var h := MAGIC + LE(VERSION, 4) + LE(n, 4);
    assert h[..4] == MAGIC && h[4..8] == LE(VERSION, 4) && h[8..12] == LE(n, 4);
    var b := ImageBytes(payload);
    SealIsSealed(h + payload);
    assert b == h + payload + LE(Checksum(h + payload), 4);
    SliceOfPrefix(h + payload, LE(Checksum(h + payload), 4), 0, 4);
    SliceOfPrefix(h + payload, LE(Checksum(h + payload), 4), 4, 8);
    SliceOfPrefix(h + payload, LE(Checksum(h + payload), 4), 8, 12);
    SliceOfPrefix(h + payload, LE(Checksum(h + payload), 4), 12, |h + payload|);
    SliceOfPrefix(h, payload, 0, 4);
    SliceOfPrefix(h, payload, 4, 8);
    SliceOfPrefix(h, payload, 8, 12);
    assert (h + payload)[12..] == payload;
  }

  /** Decoding an encoded state runs the validation on it, whenever the payload length fits its field. */
  lemma {:induction false} DecodedOfEncoded(s: PersistentState)
    ensures PayloadSize(s) >= 0x1_0000_0000 ==> Decoded(Encoded(s)) == ImageFail(Truncated)
    ensures PayloadSize(s) < 0x1_0000_0000 ==>
      |Encoded(s)| == 16 + PayloadSize(s) &&
      Decoded(Encoded(s)) == match Verdict(s.(formatVersion := VERSION))
        case None => ImageOk(s.(formatVersion := VERSION))
        case Some(e) => ImageFail(e)
  {
    hide Verdict, StateOf, RawOf, ParsePayload, PayloadBytes, ImageBytes, Sealed, WordFrom, LE;
    if Countable(s) {
      StateOfRawOf(s);
      RawCounts(s);
      PayloadLength(RawOf(s));
      ImageShape(PayloadBytes(RawOf(s)));
      ParsePayloadOfBytes(RawOf(s));
    }
  }

  lemma {:induction false} RawCounts(s: PersistentState)
    ensures |RawOf(s).points| == |s.safePoints| && |RawOf(s).receipts| == |s.receipts|
    ensures |RawOf(s).past| == |s.history|
  {
  }

  /** Persistence round trip, exactly: a state comes back equal if and only if it is well formed and its payload
      length fits 32 bits. */
  lemma {:induction false} StoreRoundTrip(s: PersistentState)
    ensures Decoded(Encoded(s)) == ImageOk(s) <==> WellFormed(s) && PayloadSize(s) < 0x1_0000_0000
    ensures WellFormed(s) && PayloadSize(s) < 0x1_0000_0000 ==> |Encoded(s)| == 16 + PayloadSize(s)
  {
    hide Decoded, Encoded, Verdict;
    DecodedOfEncoded(s);
    VerdictMeans(s);
  }

  // ---- re-encoding what was accepted ----

  /** Boolean bytes hold zero or one. */
  predicate CanonicalFlags(r: Raw)
    requires Shaped(r)
  {
    && r.mark[3].b <= 1 && r.mark[5].b <= 1 && r.mark[9].b <= 1 && r.mark[11].b <= 1
    && forall i :: 0 <= i < |r.points| ==> CanonicalPoint(r.points[i])
  }

  predicate CanonicalPoint(row: Row)
    requires POINTS.Holds(row)
  {
    row[7].b <= 1 && row[8].b <= 1
  }

  lemma PointFieldsOf(row: Row)
    requires POINTS.Holds(row)
    ensures PointFields(PointOf(row)) == row <==> CanonicalPoint(row)
  {
    if CanonicalPoint(row) {
      assert PointFields(PointOf(row))[7] == row[7] && PointFields(PointOf(row))[8] == row[8];
    } else {
      assert PointFields(PointOf(row))[7] != row[7] || PointFields(PointOf(row))[8] != row[8];
    }
  }

  lemma ReceiptFieldsOf(row: Row)
    requires RECEIPTS.Holds(row)
    ensures ReceiptFields(ReceiptOf(row)) == row
  {
    CodeOfResource(row[0].w);
  }

  lemma PastFieldsOf(row: Row)
    requires PAST.Holds(row)
    ensures PastFields(PastOf(row)) == row
  {
    CodeOfFromCode(row[2].w);
  }

  lemma {:induction false} HeadFieldsOf(r: Raw)
    requires Shaped(r) && r.head[0].w == VERSION
    ensures HeadFields(StateOf(r)) == r.head
  {
    hide PointOf, ReceiptOf, PastOf, FromCode;
  }

  lemma {:induction false} MarkFieldsOf(r: Raw)
    requires Shaped(r)
    ensures MarkFields(StateOf(r)) == r.mark <==>
      r.mark[3].b <= 1 && r.mark[5].b <= 1 && r.mark[9].b <= 1 && r.mark[11].b <= 1
  {
    CodeOfFromCode(r.mark[0].w);
    hide PointOf, ReceiptOf, PastOf, FromCode, LifecycleState.Code;
    var m := MarkFields(StateOf(r));
    assert m[3] == r.mark[3] <==> r.mark[3].b <= 1;
    assert m[5] == r.mark[5] <==> r.mark[5].b <= 1;
    assert m[9] == r.mark[9] <==> r.mark[9].b <= 1;
    assert m[11] == r.mark[11] <==> r.mark[11].b <= 1;
  }

  lemma {:induction false} RawOfStateOf(r: Raw)
    requires Shaped(r) && r.head[0].w == VERSION
    ensures RawOf(StateOf(r)) == r <==> CanonicalFlags(r)
  {
    HeadFieldsOf(r);
    MarkFieldsOf(r);
    var s := StateOf(r);
    var r' := RawOf(s);
    forall i | 0 <= i < |r.receipts| ensures r'.receipts[i] == r.receipts[i] { ReceiptFieldsOf(r.receipts[i]); }
    forall i | 0 <= i < |r.past| ensures r'.past[i] == r.past[i] { PastFieldsOf(r.past[i]); }
    forall i | 0 <= i < |r.points| ensures r'.points[i] == r.points[i] <==> CanonicalPoint(r.points[i]) {
      PointFieldsOf(r.points[i]);
    }
    hide HeadFields, MarkFields, PointFields, ReceiptFields, PastFields, PointOf, ReceiptOf, PastOf;
    assert r'.receipts == r.receipts && r'.past == r.past;
    assert r'.points == r.points <==> forall i :: 0 <= i < |r.points| ==> r'.points[i] == r.points[i];
  }

  /** The raw fields of an accepted image. */
  function RawImage(b: seq<byte>): (r: Raw)
    requires Decoded(b).ImageOk?
    ensures Shaped(r) && StateOf(r) == Decoded(b).state && PayloadBytes(r) == b[12..|b| - 4]
  {
    BytesOfParsePayload(b[12..|b| - 4]);
    ParsePayload(b[12..|b| - 4]).value
  }

  lemma {:induction false} AcceptedImageBytes(b: seq<byte>)
    requires Decoded(b).ImageOk?
    ensures b == ImageBytes(b[12..|b| - 4]) && |b| - 16 < 0x1_0000_0000
  {
    hide ParsePayload, Verdict, StateOf, Checksum, LE, UnLE;
    SealedIsSeal(b);
    LEOfUnLE(b[4..8]);
    LEOfUnLE(b[8..12]);
    var n := |b| - 16;
    assert b[..|b| - 4] == b[..4] + b[4..8] + b[8..12] + b[12..|b| - 4];
  }

  /** Accepted images re-encode to themselves exactly when their boolean bytes are zero or one; in every case the
      re-encoding decodes to the same state. */
  lemma {:induction false} Reencode(b: seq<byte>)
    requires Decoded(b).ImageOk?
    ensures Decoded(Encoded(Decoded(b).state)) == Decoded(b)
    ensures Encoded(Decoded(b).state) == b <==> CanonicalFlags(RawImage(b))
  {
    var r := RawImage(b);
    var s := Decoded(b).state;
    AcceptedWellFormed(b);
    AcceptedImageBytes(b);
    PayloadLength(r);
    hide ParsePayload, Verdict, Decoded, PayloadBytes, ImageBytes, RawOf, WellFormed, CanonicalFlags;
    StateCounts(r);
    StoreRoundTrip(s);
    VersionKept(r);
    RawOfStateOf(r);
    RawShaped(s);
    if Encoded(s) == b {
      ImageShape(PayloadBytes(RawOf(s)));
      ParsePayloadOfBytes(r);
      ParsePayloadOfBytes(RawOf(s));
    }
  }

  /** The image of a state with the byte v for its first flag. */
  function FlaggedImage(s: PersistentState, v: byte): seq<byte> {
    ImageBytes(PayloadBytes(RawOf(s).(mark := MarkFields(s)[3 := F8(v)])))
  }

  /** Both sides of the condition are met: any non-zero byte stands for a raised flag, so every storable quiesced state
      has accepted images besides its own encoding. */
  lemma {:induction false} LooseImages(s: PersistentState, v: byte)
    requires WellFormed(s) && PayloadSize(s) < 0x1_0000_0000 && (v != 0) == s.boundary.quiesced
    ensures Decoded(FlaggedImage(s, v)) == ImageOk(s)
    ensures FlaggedImage(s, v) == Encoded(s) <==> v <= 1
    ensures CanonicalFlags(RawImage(FlaggedImage(s, v))) <==> v <= 1
  {
    hide *;
    VerdictMeans(s);
    CountableIfFits(s);
    FlaggedRaw(s, v);
    FlaggedDecodes(s, v);
    Reencode(FlaggedImage(s, v));
  }

  lemma {:induction false} CountableIfFits(s: PersistentState)
    requires PayloadSize(s) < 0x1_0000_0000
    ensures Countable(s) && (WellFormed(s) ==> s.formatVersion == VERSION)
  {
    hide PointsWellFormed, ReceiptsWellFormed, ReleaseReached, ResumeReached;
  }

  lemma {:induction false} FlaggedDecodes(s: PersistentState, v: byte)
    requires PayloadSize(s) < 0x1_0000_0000 && Verdict(s).None?
    requires var r := RawOf(s).(mark := MarkFields(s)[3 := F8(v)]); Shaped(r) && StateOf(r) == s
    ensures Decoded(FlaggedImage(s, v)) == ImageOk(s)
    ensures RawImage(FlaggedImage(s, v)) == RawOf(s).(mark := MarkFields(s)[3 := F8(v)])
  {
    var r := RawOf(s).(mark := MarkFields(s)[3 := F8(v)]);
    RawCounts(s);
    PayloadLength(r);
    hide StateOf, RawOf, MarkFields, Shaped, PayloadBytes, Verdict;
    DecodedRaw(r);
  }

  lemma {:induction false} DecodedRaw(r: Raw)
    requires Shaped(r) && |PayloadBytes(r)| < 0x1_0000_0000 && Verdict(StateOf(r)).None?
    ensures Decoded(ImageBytes(PayloadBytes(r))) == ImageOk(StateOf(r))
    ensures RawImage(ImageBytes(PayloadBytes(r))) == r
  {
    hide StateOf, ParsePayload, PayloadBytes, ImageBytes, Sealed, WordFrom, LE, Verdict, Shaped, RawImage;
    ImageShape(PayloadBytes(r));
    ParsePayloadOfBytes(r);
    RawImageParses(ImageBytes(PayloadBytes(r)));
  }

  lemma {:induction false} RawImageParses(b: seq<byte>)
    requires Decoded(b).ImageOk?
    ensures |b| >= 16 && ParsePayload(b[12..|b| - 4]).Parsed? && RawImage(b) == ParsePayload(b[12..|b| - 4]).value
  {
    hide StateOf, ParsePayload, Sealed, WordFrom, Verdict;
  }

  lemma {:induction false} FlaggedRaw(s: PersistentState, v: byte)
    requires Countable(s) && s.formatVersion == VERSION && (v != 0) == s.boundary.quiesced
    ensures var r := RawOf(s).(mark := MarkFields(s)[3 := F8(v)]);
      Shaped(r) && StateOf(r) == s && (CanonicalFlags(r) <==> v <= 1)
  {
    RawShaped(s);
    StateOfRawOf(s);
    RawOfStateOf(RawOf(s));
    hide PointOf, ReceiptOf, PastOf, PointFields, ReceiptFields, PastFields, FromCode, HeadFields, CanonicalPoint;
  }

  lemma {:induction false} AcceptedWellFormed(b: seq<byte>)
    requires Decoded(b).ImageOk?
    ensures WellFormed(Decoded(b).state)
  {
    hide ParsePayload, StateOf, Sealed, WellFormed, Verdict;
    VerdictMeans(Decoded(b).state);
  }

  lemma {:induction false} StateCounts(r: Raw)
    requires Shaped(r)
    ensures |StateOf(r).safePoints| == |r.points| && |StateOf(r).receipts| == |r.receipts|
    ensures |StateOf(r).history| == |r.past|
    ensures Countable(StateOf(r))
  {
  }

  lemma {:induction false} VersionKept(r: Raw)
    requires Shaped(r)
    ensures StateOf(r).formatVersion == r.head[0].w
    ensures WellFormed(StateOf(r)) ==> r.head[0].w == VERSION
  {
    hide ReleaseReached, ResumeReached, PointsWellFormed, ReceiptsWellFormed;
  }

  /** Integrity: two accepted images of equal length that differ only within four consecutive bytes are the same. */
  lemma {:induction false} ImageBurstDetected(a: seq<byte>, b: seq<byte>, start: nat)
    requires Decoded(a).ImageOk? && Decoded(b).ImageOk? && |a| == |b|
    requires forall i :: 0 <= i < |a| && !(start <= i < start + 4) ==> a[i] == b[i]
    ensures a == b
  {
    hide ParsePayload, Verdict, StateOf, Sealed, WordFrom;
    BurstDetected(a, b, start);
  }
}
