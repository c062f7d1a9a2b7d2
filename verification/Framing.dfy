/** The framed wire protocol (src/protocol/framing.cpp, include/preemption_fabric/protocol/framing.hpp). */
module Framing {
  import opened Words
  import opened Fields
  import opened Crc32

  /** A protocol message. Enumerations are carried by their 32-bit codes, which C++ does not range-check. */
  datatype Message = Message(
    typ: u32, seqNo: u32, coordinatorEpoch: u64, workerId: u64, workerBootId: u64, executionId: u64,
    executionGeneration: u64, attemptId: u64, attemptGeneration: u64, requestId: u64, requestGeneration: u64,
    workerB: u64, progressPosition: u64, progressGeneration: u64, progressKind: u32, safePointId: u64,
    safePointGeneration: u64, safePointPosition: u64, safePointCaptureRequired: bool, checkpointRef: u64,
    checkpointGeneration: u64, captureId: u64, captureGeneration: u64, resumeId: u64, resumeGeneration: u64,
    resource: u32, units: u64, contractId: u64, contractGeneration: u64, reason: u32, outcome: u32,
    lifecycle: u32, preemptibility: u32, resumeOutcome: u32, depStatus: u32, preservationOutcome: u32,
    detail: seq<byte>, extra: seq<byte>)

  const MAGIC: u32 := 0x3152_4650
  const VERSION: u32 := 1
  const MAX_BODY: u32 := 0x1_0000

  // ---- the body's field table, in four runs ----

  const AUTHORITY_KINDS: seq<Kind> := [
    K32, K32, K64, K64, K64, K64, K64, K64, K64, K64, K64]
  const BOUNDARY_KINDS: seq<Kind> := [
    K64, K64, K64, K32, K64, K64, K64, K8]
  const RESOURCE_KINDS: seq<Kind> := [
    K64, K64, K64, K64, K64, K64, K32, K64, K64, K64]
  const OUTCOME_KINDS: seq<Kind> := [
    K32, K32, K32, K32, K32, K32, K32, KText, KText]

  function BodyKinds(): seq<Kind> {
    AUTHORITY_KINDS + BOUNDARY_KINDS + RESOURCE_KINDS + OUTCOME_KINDS
  }

  function AuthorityFields(m: Message): seq<Field> {
    [
      F32(m.typ), F32(m.seqNo), F64(m.coordinatorEpoch), F64(m.workerId), F64(m.workerBootId),
      F64(m.executionId), F64(m.executionGeneration), F64(m.attemptId), F64(m.attemptGeneration),
      F64(m.requestId), F64(m.requestGeneration)]
  }

  function BoundaryFields(m: Message): seq<Field> {
    [
      F64(m.workerB), F64(m.progressPosition), F64(m.progressGeneration), F32(m.progressKind),
      F64(m.safePointId), F64(m.safePointGeneration), F64(m.safePointPosition),
      F8(if m.safePointCaptureRequired then 1 else 0)]
  }

  function ResourceFields(m: Message): seq<Field> {
    [
      F64(m.checkpointRef), F64(m.checkpointGeneration), F64(m.captureId), F64(m.captureGeneration),
      F64(m.resumeId), F64(m.resumeGeneration), F32(m.resource), F64(m.units), F64(m.contractId),
      F64(m.contractGeneration)]
  }

  function OutcomeFields(m: Message): seq<Field> {
    [
      F32(m.reason), F32(m.outcome), F32(m.lifecycle), F32(m.preemptibility), F32(m.resumeOutcome),
      F32(m.depStatus), F32(m.preservationOutcome), FText(m.detail), FText(m.extra)]
  }

  function BodyFields(m: Message): seq<Field> {
    AuthorityFields(m) + BoundaryFields(m) + ResourceFields(m) + OutcomeFields(m)
  }

  function MessageFrom(a: seq<Field>, b: seq<Field>, r: seq<Field>, o: seq<Field>): Message
    requires HasKinds(a, AUTHORITY_KINDS) && HasKinds(b, BOUNDARY_KINDS)
    requires HasKinds(r, RESOURCE_KINDS) && HasKinds(o, OUTCOME_KINDS)
  {
    Message(
      a[0].w, a[1].w, a[2].q, a[3].q, a[4].q, a[5].q, a[6].q, a[7].q, a[8].q, a[9].q, a[10].q, b[0].q,
      b[1].q, b[2].q, b[3].w, b[4].q, b[5].q, b[6].q, b[7].b != 0, r[0].q, r[1].q, r[2].q, r[3].q, r[4].q,
      r[5].q, r[6].w, r[7].q, r[8].q, r[9].q, o[0].w, o[1].w, o[2].w, o[3].w, o[4].w, o[5].w, o[6].w,
      o[7].text, o[8].text)
  }

  function MessageOf(fs: seq<Field>): Message
    requires HasKinds(fs, BodyKinds())
  {
    SliceKinds(fs);
    MessageFrom(fs[..11], fs[11..19], fs[19..29], fs[29..])
  }

  /** A known message type and every enumeration within its declared range. */
  predicate InRange(m: Message) {
    && 1 <= m.typ <= 24
    && m.progressKind <= 8
    && m.resource <= 11
    && m.reason <= 13
    && m.outcome <= 8
    && m.lifecycle <= 25
    && m.preemptibility <= 9
    && m.resumeOutcome <= 13
    && m.depStatus <= 3
    && m.preservationOutcome <= 9
  }

  lemma SliceKinds(fs: seq<Field>)
    requires HasKinds(fs, BodyKinds())
    ensures |fs| == 38
    ensures HasKinds(fs[..11], AUTHORITY_KINDS) && HasKinds(fs[11..19], BOUNDARY_KINDS)
    ensures HasKinds(fs[19..29], RESOURCE_KINDS) && HasKinds(fs[29..], OUTCOME_KINDS)
  {
    var ks := BodyKinds();
    assert ks[..11] == AUTHORITY_KINDS && ks[11..19] == BOUNDARY_KINDS;
    assert ks[19..29] == RESOURCE_KINDS && ks[29..] == OUTCOME_KINDS;
  }

  lemma PartKinds(m: Message)
    ensures HasKinds(AuthorityFields(m), AUTHORITY_KINDS) && HasKinds(BoundaryFields(m), BOUNDARY_KINDS)
    ensures HasKinds(ResourceFields(m), RESOURCE_KINDS) && HasKinds(OutcomeFields(m), OUTCOME_KINDS)
  {
  }

  lemma BodyFieldKinds(m: Message)
    ensures HasKinds(BodyFields(m), BodyKinds())
    ensures BodyFields(m)[..11] == AuthorityFields(m) && BodyFields(m)[11..19] == BoundaryFields(m)
    ensures BodyFields(m)[19..29] == ResourceFields(m) && BodyFields(m)[29..] == OutcomeFields(m)
  {
    PartKinds(m);
    hide AuthorityFields, BoundaryFields, ResourceFields, OutcomeFields;
  }

  /** The table loses nothing. */
  lemma MessageOfBodyFields(m: Message)
    ensures HasKinds(BodyFields(m), BodyKinds())
    ensures MessageOf(BodyFields(m)) == m
  {
    BodyFieldKinds(m);
    PartKinds(m);
    assert MessageFrom(AuthorityFields(m), BoundaryFields(m), ResourceFields(m), OutcomeFields(m)) == m;
  }

  // ---- body and frame as byte strings ----

  function BodyBytes(m: Message): seq<byte> {
    PutAll(BodyFields(m))
  }

  /** Decoding of a body: all fields, nothing after them, known type, enumerations in range. */
  function ParseBody(body: seq<byte>): Option<Message> {
    match TakeAll(BodyKinds(), body)
    case None => None
    case Some((fs, rest)) =>
      PutAllOfTakeAll(BodyKinds(), body);
      var m := MessageOf(fs);
      if rest == [] && InRange(m) then Some(m) else None
  }

  /** Header, body and checksum trailer, for any header words. */
  function RawFrame(typ: u32, seqNo: u32, body: seq<byte>): seq<byte> {
    Seal(RawHeader(typ, seqNo, |body|) + body)
  }

  function RawHeader(typ: u32, seqNo: u32, length: nat): (h: seq<byte>)
    ensures |h| == 20
  {
    LE(MAGIC, 4) + LE(VERSION, 4) + LE(typ, 4) + LE(seqNo, 4) + LE(length, 4)
  }

  /** Nothing when encoding throws: a text or the whole body too long for a 32-bit length. */
  function FrameBytes(m: Message): Option<seq<byte>> {
    if AllSized(BodyFields(m)) && |BodyBytes(m)| < 0x1_0000_0000
    then Some(RawFrame(m.typ, m.seqNo, BodyBytes(m)))
    else None
  }

  /** Word i of a byte string. */
  function WordAt(b: seq<byte>, i: nat): (w: u32)
    requires 4 * i + 4 <= |b|
  {
    Widths();
    LEOfUnLE(b[4 * i..4 * i + 4]);
    UnLE(b[4 * i..4 * i + 4])
  }

  datatype FrameError =
    | Truncated | BadMagic | BadVersion | BadLength | ChecksumMismatch | MalformedBody | TrailingGarbage

  datatype FrameResult = FrameOk(message: Message) | FrameFail(error: FrameError)

  /** Decoding of exactly one frame. */
  function ParseFrame(b: seq<byte>): FrameResult {
    if |b| < 24 then FrameFail(Truncated)
    else if WordAt(b, 0) != MAGIC then FrameFail(BadMagic)
    else if WordAt(b, 1) != VERSION then FrameFail(BadVersion)
    else
      var length := WordAt(b, 4);
      if length > MAX_BODY then FrameFail(BadLength)
      else if |b| < 24 + length then FrameFail(Truncated)
      else if |b| > 24 + length then FrameFail(TrailingGarbage)
      else if !Sealed(b) then FrameFail(ChecksumMismatch)
      else match ParseBody(b[20..20 + length])
        case None => FrameFail(MalformedBody)
        case Some(m) =>
          if m.typ != WordAt(b, 2) then FrameFail(MalformedBody)
          else FrameOk(m.(seqNo := WordAt(b, 3)))
  }

  datatype Popped = NeedMore | Corrupt | Got(message: Message, rest: seq<byte>)

  /** What one pop finds at the front of a buffer. */
  function PopFront(b: seq<byte>): Popped {
    if |b| < 24 then NeedMore
    else if WordAt(b, 0) != MAGIC || WordAt(b, 1) != VERSION || WordAt(b, 4) > MAX_BODY then Corrupt
    else
      var total := 24 + WordAt(b, 4);
      if |b| < total then NeedMore
      else if !Sealed(b[..total]) then Corrupt
      else match ParseBody(b[20..total - 4])
        case None => Corrupt
        case Some(m) => Got(m.(seqNo := WordAt(b, 3)), b[total..])
  }

  // ---- sizes ----

  /** The body is 245 bytes of fixed fields plus the two texts. */
  lemma BodySize(m: Message)
    ensures |BodyBytes(m)| == 245 + |m.detail| + |m.extra|
  {
    var a, b, r, o := AuthorityFields(m), BoundaryFields(m), ResourceFields(m), OutcomeFields(m);
    PutAllAppend(a + b + r, o); PutAllAppend(a + b, r); PutAllAppend(a, b);
    AuthoritySize(m); BoundarySize(m); ResourceSize(m); OutcomeSize(m);
  }

  lemma AuthoritySize(m: Message)
    ensures |PutAll(AuthorityFields(m))| == 80
  {
    var fs := AuthorityFields(m);
    assert fs == fs[..2] + fs[2..];
    PutAllAppend(fs[..2], fs[2..]);
    RunSize(fs[..2], K32); RunSize(fs[2..], K64);
  }

  lemma BoundarySize(m: Message)
    ensures |PutAll(BoundaryFields(m))| == 53
  {
    var fs := BoundaryFields(m);
    assert fs == fs[..3] + [fs[3]] + fs[4..7] + [fs[7]];
    PutAllAppend(fs[..3] + [fs[3]] + fs[4..7], [fs[7]]);
    PutAllAppend(fs[..3] + [fs[3]], fs[4..7]);
    PutAllAppend(fs[..3], [fs[3]]);
    RunSize(fs[..3], K64); RunSize([fs[3]], K32); RunSize(fs[4..7], K64); RunSize([fs[7]], K8);
  }

  lemma ResourceSize(m: Message)
    ensures |PutAll(ResourceFields(m))| == 76
  {
    var fs := ResourceFields(m);
    assert fs == fs[..6] + [fs[6]] + fs[7..];
    PutAllAppend(fs[..6] + [fs[6]], fs[7..]);
    PutAllAppend(fs[..6], [fs[6]]);
    RunSize(fs[..6], K64); RunSize([fs[6]], K32); RunSize(fs[7..], K64);
  }

  lemma OutcomeSize(m: Message)
    ensures |PutAll(OutcomeFields(m))| == 36 + |m.detail| + |m.extra|
  {
    var fs := OutcomeFields(m);
    assert fs == fs[..7] + fs[7..];
    PutAllAppend(fs[..7], fs[7..]);
    RunSize(fs[..7], K32);
    PutAllAppend([FText(m.detail)], [FText(m.extra)]);
    assert fs[7..] == [FText(m.detail)] + [FText(m.extra)];
    assert PutAll([FText(m.detail)]) == Put(FText(m.detail)) && PutAll([FText(m.extra)]) == Put(FText(m.extra));
  }

  // ---- round trips ----

  lemma {:induction false} ParseBodyOfBytes(m: Message)
    requires AllSized(BodyFields(m))
    ensures ParseBody(BodyBytes(m)) == if InRange(m) then Some(m) else None
  {
    BodyFieldKinds(m);
    TakeAllOfPutAll(BodyFields(m), BodyKinds(), []);
    assert BodyBytes(m) + [] == BodyBytes(m);
    MessageOfBodyFields(m);
    hide BodyFields, MessageOf, TakeAll;
  }

  lemma {:induction false} HeaderWords(typ: u32, seqNo: u32, body: seq<byte>, rest: seq<byte>)
    requires |body| < 0x1_0000_0000
    ensures var b := RawFrame(typ, seqNo, body) + rest;
      && |RawFrame(typ, seqNo, body)| == 24 + |body|
      && WordAt(b, 0) == MAGIC && WordAt(b, 1) == VERSION && WordAt(b, 2) == typ && WordAt(b, 3) == seqNo
      && WordAt(b, 4) == |body|
      && b[20..20 + |body|] == body
  {
    hide LE, UnLE, Pow256, Checksum, WordAt, RawHeader;
    var h := RawHeader(typ, seqNo, |body|);
    var b := RawFrame(typ, seqNo, body) + rest;
    assert b[..20] == h;
    assert b[20..20 + |body|] == (h + body)[20..] == body;
    RawHeaderWords(typ, seqNo, |body|);
    SameWords(h, b);
  }

  lemma {:induction false} RawHeaderWords(typ: u32, seqNo: u32, length: u32)
    ensures var h := RawHeader(typ, seqNo, length);
      && WordAt(h, 0) == MAGIC && WordAt(h, 1) == VERSION && WordAt(h, 2) == typ && WordAt(h, 3) == seqNo
      && WordAt(h, 4) == length
  {
    hide LE, UnLE, Pow256;
    Widths();
    UnLEOfLE(MAGIC, 4); UnLEOfLE(VERSION, 4); UnLEOfLE(typ, 4); UnLEOfLE(seqNo, 4); UnLEOfLE(length, 4);
    var h := RawHeader(typ, seqNo, length);
    assert h[0..4] == LE(MAGIC, 4) && h[4..8] == LE(VERSION, 4) && h[8..12] == LE(typ, 4);
    assert h[12..16] == LE(seqNo, 4) && h[16..20] == LE(length, 4);
  }

  /** A pop of any well-sealed frame depends on its body alone: the header's type word is not consulted. */
  lemma {:induction false} PopRawFrame(typ: u32, seqNo: u32, body: seq<byte>, rest: seq<byte>)
    requires |body| <= MAX_BODY
    ensures PopFront(RawFrame(typ, seqNo, body) + rest) ==
      match ParseBody(body)
      case None => Corrupt
      case Some(m) => Got(m.(seqNo := seqNo), rest)
  {
    hide ParseBody, Sealed, WordAt, LE, RawHeader, Checksum;
    var f := RawFrame(typ, seqNo, body);
    HeaderWords(typ, seqNo, body, rest);
    SealIsSealed(RawHeader(typ, seqNo, |body|) + body);
    SliceOfPrefix(f, rest, 0, |f|);
  }

  /** decode_frame additionally wants the header's type word to agree with the body. */
  lemma {:induction false} ParseRawFrame(typ: u32, seqNo: u32, body: seq<byte>)
    requires |body| < 0x1_0000_0000
    ensures ParseFrame(RawFrame(typ, seqNo, body)) ==
      if |body| > MAX_BODY then FrameFail(BadLength)
      else match ParseBody(body)
        case None => FrameFail(MalformedBody)
        case Some(m) => if m.typ == typ then FrameOk(m.(seqNo := seqNo)) else FrameFail(MalformedBody)
  {
    hide ParseBody, Sealed, WordAt, LE, RawHeader, Checksum;
    HeaderWords(typ, seqNo, body, []);
    assert RawFrame(typ, seqNo, body) + [] == RawFrame(typ, seqNo, body);
    SealIsSealed(RawHeader(typ, seqNo, |body|) + body);
  }

  /** Frame round trip, exactly: an encodable message comes back equal if and only if its type and
      enumerations are in range and its texts total at most 65,291 bytes. */
  lemma {:induction false} FrameRoundTrip(m: Message)
    requires FrameBytes(m).Some?
    ensures ParseFrame(FrameBytes(m).value) == FrameOk(m) <==> InRange(m) && |m.detail| + |m.extra| <= 65_291
    ensures ParseFrame(FrameBytes(m).value).FrameOk? ==> ParseFrame(FrameBytes(m).value) == FrameOk(m)
  {
    BodySize(m);
    ParseBodyOfBytes(m);
    ParseRawFrame(m.typ, m.seqNo, BodyBytes(m));
    hide ParseBody, ParseFrame, BodyFields, BodyBytes;
  }

  /** Every message the round trip covers is encodable. */
  lemma {:induction false} ShortTextsEncode(m: Message)
    requires |m.detail| + |m.extra| <= 65_291
    ensures FrameBytes(m).Some? && |FrameBytes(m).value| == 269 + |m.detail| + |m.extra|
  {
    BodySize(m);
    TextsSized(m);
  }

  lemma {:induction false} TextsSized(m: Message)
    requires |m.detail| < 0x1_0000_0000 && |m.extra| < 0x1_0000_0000
    ensures AllSized(BodyFields(m))
  {
    assert AllSized(AuthorityFields(m)) && AllSized(BoundaryFields(m));
    assert AllSized(ResourceFields(m)) && AllSized(OutcomeFields(m));
    hide AuthorityFields, BoundaryFields, ResourceFields, OutcomeFields;
  }

  /** The streaming decoder accepts frames that decode_frame rejects: any header type over any valid body. */
  lemma {:induction false} PopIgnoresHeaderType(m: Message, typ: u32, rest: seq<byte>)
    requires InRange(m) && |m.detail| + |m.extra| <= 65_291 && typ != m.typ
    ensures PopFront(RawFrame(typ, m.seqNo, BodyBytes(m)) + rest) == Got(m, rest)
    ensures ParseFrame(RawFrame(typ, m.seqNo, BodyBytes(m))) == FrameFail(MalformedBody)
  {
    BodySize(m);
    TextsSized(m);
    ParseBodyOfBytes(m);
    PopRawFrame(typ, m.seqNo, BodyBytes(m), rest);
    ParseRawFrame(typ, m.seqNo, BodyBytes(m));
    hide ParseBody, ParseFrame, PopFront, BodyFields, BodyBytes;
  }

  /** Exactly when the two decoders agree: a popped prefix is a frame decode_frame accepts, with the same
      message, if and only if the header's type word is the message's type. */
  lemma {:induction false} PopAgreesWithParse(b: seq<byte>)
    requires PopFront(b).Got?
    ensures var p := PopFront(b); var n := |b| - |p.rest|;
      && 24 <= n <= |b|
      && b == b[..n] + p.rest
      && (ParseFrame(b[..n]) == FrameOk(p.message) <==> WordAt(b, 2) == p.message.typ)
      && (WordAt(b, 2) != p.message.typ ==> ParseFrame(b[..n]) == FrameFail(MalformedBody))
  {
    var n := 24 + WordAt(b, 4);
    var f := b[..n];
    hide WordAt, Sealed, ParseBody;
    assert f[20..n - 4] == b[20..n - 4];
    SameWords(f, b);
  }

  /** Whatever decode_frame accepts, the streaming decoder pops, whatever follows. */
  lemma {:induction false} ParsedFramePops(b: seq<byte>, rest: seq<byte>)
    requires ParseFrame(b).FrameOk?
    ensures PopFront(b + rest) == Got(ParseFrame(b).message, rest)
  {
    hide WordAt, Sealed, ParseBody;
    var n := |b|;
    SliceOfPrefix(b, rest, 0, n);
    SliceOfPrefix(b, rest, 20, n - 4);
    SameWords(b, b + rest);
  }

  lemma {:induction false} SameWords(a: seq<byte>, b: seq<byte>)
    requires 20 <= |a| <= |b| && b[..|a|] == a
    ensures WordAt(a, 0) == WordAt(b, 0) && WordAt(a, 1) == WordAt(b, 1) && WordAt(a, 2) == WordAt(b, 2)
    ensures WordAt(a, 3) == WordAt(b, 3) && WordAt(a, 4) == WordAt(b, 4)
  {
    assert a[0..4] == b[0..4] && a[4..8] == b[4..8] && a[8..12] == b[8..12];
    assert a[12..16] == b[12..16] && a[16..20] == b[16..20];
    hide UnLE;
  }

  /** Integrity: two accepted frames of equal length that differ only within four consecutive bytes,
      anywhere in the frame, are the same frame. */
  lemma {:induction false} FrameBurstDetected(a: seq<byte>, b: seq<byte>, start: nat)
    requires ParseFrame(a).FrameOk? && ParseFrame(b).FrameOk? && |a| == |b|
    requires forall i :: 0 <= i < |a| && !(start <= i < start + 4) ==> a[i] == b[i]
    ensures a == b
  {
    hide ParseBody, Sealed, WordAt;
    BurstDetected(a, b, start);
  }

  // ---- re-encoding what was accepted ----

  /** The raw fields of an accepted frame's body. */
  function RawBody(b: seq<byte>): (fs: seq<Field>)
    requires ParseFrame(b).FrameOk?
    ensures HasKinds(fs, BodyKinds()) && AllSized(fs) && PutAll(fs) == b[20..|b| - 4]
    ensures ParseFrame(b).message == MessageOf(fs).(seqNo := WordAt(b, 3)) && MessageOf(fs).typ == WordAt(b, 2)
  {
    var body := b[20..|b| - 4];
    PutAllOfTakeAll(BodyKinds(), body);
    assert PutAll(TakeAll(BodyKinds(), body).value.0) + [] == PutAll(TakeAll(BodyKinds(), body).value.0);
    TakeAll(BodyKinds(), body).value.0
  }

  lemma {:induction false} AcceptedFrameBytes(b: seq<byte>)
    requires ParseFrame(b).FrameOk?
    ensures |b| >= 24 && |b| - 24 <= MAX_BODY && b == RawFrame(WordAt(b, 2), WordAt(b, 3), b[20..|b| - 4])
  {
    hide ParseBody, Checksum, LE, UnLE;
    SealedIsSeal(b);
    Widths();
    LEOfUnLE(b[0..4]); LEOfUnLE(b[4..8]); LEOfUnLE(b[8..12]); LEOfUnLE(b[12..16]); LEOfUnLE(b[16..20]);
    assert b[..|b| - 4] == b[0..4] + b[4..8] + b[8..12] + b[12..16] + b[16..20] + b[20..|b| - 4];
  }

  /** The fields of a message rebuilt from raw fields differ from them only in a flag byte above one and in the
      sequence number the header overrides. */
  lemma {:induction false} FieldsOfMessageOf(fs: seq<Field>, s: u32)
    requires HasKinds(fs, BodyKinds())
    ensures |fs| == 38 && fs[1].F32? && fs[18].F8?
    ensures BodyFields(MessageOf(fs).(seqNo := s)) == fs <==> fs[18].b <= 1 && fs[1].w == s
  {
    SliceKinds(fs);
    var a, b, r, o := fs[..11], fs[11..19], fs[19..29], fs[29..];
    assert fs[1] == a[1] && fs[18] == b[7];
    hide AuthorityFields, BoundaryFields, ResourceFields, OutcomeFields, MessageFrom, HasKinds, BodyKinds;
    hide AUTHORITY_KINDS, BOUNDARY_KINDS, RESOURCE_KINDS, OUTCOME_KINDS;
    var m := MessageFrom(a, b, r, o).(seqNo := s);
    AuthorityBack(a, b, r, o, s);
    BoundaryBack(a, b, r, o, s);
    OutcomeBack(a, b, r, o, s);
    SameParts(fs, AuthorityFields(m), BoundaryFields(m));
  }

  lemma {:induction false} SameParts(fs: seq<Field>, a: seq<Field>, b: seq<Field>)
    requires |fs| == 38 && |a| == 11 && |b| == 8
    ensures a + b + fs[19..29] + fs[29..] == fs <==> a == fs[..11] && b == fs[11..19]
  {
    var t := a + b + fs[19..29] + fs[29..];
    assert t[..11] == a && t[11..19] == b;
    assert fs == fs[..11] + fs[11..19] + fs[19..29] + fs[29..];
  }

  lemma {:induction false} AuthorityBack(a: seq<Field>, b: seq<Field>, r: seq<Field>, o: seq<Field>, s: u32)
    requires HasKinds(a, AUTHORITY_KINDS) && HasKinds(b, BOUNDARY_KINDS)
    requires HasKinds(r, RESOURCE_KINDS) && HasKinds(o, OUTCOME_KINDS)
    ensures |AuthorityFields(MessageFrom(a, b, r, o).(seqNo := s))| == 11
    ensures a[1].F32? && (AuthorityFields(MessageFrom(a, b, r, o).(seqNo := s)) == a <==> a[1].w == s)
  {
    assert AuthorityFields(MessageFrom(a, b, r, o).(seqNo := s))[1] == F32(s);
  }

  lemma {:induction false} BoundaryBack(a: seq<Field>, b: seq<Field>, r: seq<Field>, o: seq<Field>, s: u32)
    requires HasKinds(a, AUTHORITY_KINDS) && HasKinds(b, BOUNDARY_KINDS)
    requires HasKinds(r, RESOURCE_KINDS) && HasKinds(o, OUTCOME_KINDS)
    ensures |BoundaryFields(MessageFrom(a, b, r, o).(seqNo := s))| == 8
    ensures b[7].F8? && (BoundaryFields(MessageFrom(a, b, r, o).(seqNo := s)) == b <==> b[7].b <= 1)
  {
    var back := BoundaryFields(MessageFrom(a, b, r, o).(seqNo := s));
    assert back[7] == b[7] <==> b[7].b <= 1;
  }

  lemma {:induction false} OutcomeBack(a: seq<Field>, b: seq<Field>, r: seq<Field>, o: seq<Field>, s: u32)
    requires HasKinds(a, AUTHORITY_KINDS) && HasKinds(b, BOUNDARY_KINDS)
    requires HasKinds(r, RESOURCE_KINDS) && HasKinds(o, OUTCOME_KINDS)
    ensures ResourceFields(MessageFrom(a, b, r, o).(seqNo := s)) == r
    ensures OutcomeFields(MessageFrom(a, b, r, o).(seqNo := s)) == o
  {
  }

  /** Accepted frames re-encode to themselves exactly when the capture flag is zero or one and the body repeats the
      header's sequence number; in every case the re-encoding decodes to the same message. */
  lemma {:induction false} FrameReencodes(b: seq<byte>)
    requires ParseFrame(b).FrameOk?
    ensures var m, fs := ParseFrame(b).message, RawBody(b);
      && |fs| == 38 && fs[1].F32? && fs[18].F8? && FrameBytes(m).Some?
      && ParseFrame(FrameBytes(m).value) == FrameOk(m)
      && (FrameBytes(m).value == b <==> fs[18].b <= 1 && fs[1].w == WordAt(b, 3))
  {
    var m, fs := ParseFrame(b).message, RawBody(b);
    AcceptedFrameBytes(b);
    AcceptedInRange(b);
    FieldsOfMessageOf(fs, WordAt(b, 3));
    hide ParseFrame, ParseBody, RawBody, MessageOf, BodyFields, WordAt, RawFrame, InRange;
    AcceptedTexts(fs, WordAt(b, 3));
    ShortTextsEncode(m);
    BodySize(m);
    FrameRoundTrip(m);
    SameBodies(m, fs, WordAt(b, 2), WordAt(b, 3));
  }

  lemma {:induction false} AcceptedInRange(b: seq<byte>)
    requires ParseFrame(b).FrameOk?
    ensures InRange(ParseFrame(b).message)
  {
    hide TakeAll, MessageOf, Sealed, WordAt;
  }

  lemma {:induction false} AcceptedTexts(fs: seq<Field>, s: u32)
    requires HasKinds(fs, BodyKinds()) && |PutAll(fs)| <= MAX_BODY
    ensures var m := MessageOf(fs).(seqNo := s); |m.detail| + |m.extra| <= 65_291
  {
    hide AuthorityFields, BoundaryFields, ResourceFields, OutcomeFields, MessageFrom, TotalWidth, PutAll, HasKinds;
    hide BodyKinds, AUTHORITY_KINDS, BOUNDARY_KINDS, RESOURCE_KINDS, OUTCOME_KINDS;
    SliceKinds(fs);
    var a, b, r, o := fs[..11], fs[11..19], fs[19..29], fs[29..];
    var m := MessageFrom(a, b, r, o).(seqNo := s);
    OutcomeBack(a, b, r, o, s);
    PartKinds(m);
    BodySize(m);
    assert fs == a + b + r + o;
    PartsSize(a, b, r, o, AuthorityFields(m), BoundaryFields(m));
  }

  lemma {:induction false} PartsSize(
    a: seq<Field>, b: seq<Field>, r: seq<Field>, o: seq<Field>, a': seq<Field>, b': seq<Field>)
    requires HasKinds(a, AUTHORITY_KINDS) && HasKinds(a', AUTHORITY_KINDS)
    requires HasKinds(b, BOUNDARY_KINDS) && HasKinds(b', BOUNDARY_KINDS)
    ensures |PutAll(a + b + r + o)| == |PutAll(a' + b' + r + o)|
  {
    NoTexts();
    hide TotalWidth, PutAll, HasKinds, AUTHORITY_KINDS, BOUNDARY_KINDS;
    FixedSize(a, AUTHORITY_KINDS); FixedSize(a', AUTHORITY_KINDS);
    FixedSize(b, BOUNDARY_KINDS); FixedSize(b', BOUNDARY_KINDS);
    PutAllAppend(a + b + r, o); PutAllAppend(a + b, r); PutAllAppend(a, b);
    PutAllAppend(a' + b' + r, o); PutAllAppend(a' + b', r); PutAllAppend(a', b');
  }

  lemma NoTexts()
    ensures KText !in AUTHORITY_KINDS && KText !in BOUNDARY_KINDS
  {
  }

  lemma {:induction false} SameBodies(m: Message, fs: seq<Field>, typ: u32, s: u32)
    requires HasKinds(fs, BodyKinds()) && AllSized(fs) && AllSized(BodyFields(m))
    requires |PutAll(fs)| < 0x1_0000_0000 && |BodyBytes(m)| < 0x1_0000_0000
    ensures RawFrame(typ, s, BodyBytes(m)) == RawFrame(typ, s, PutAll(fs)) <==> BodyFields(m) == fs
  {
    hide RawFrame, WordAt, TakeAll;
    if RawFrame(typ, s, BodyBytes(m)) == RawFrame(typ, s, PutAll(fs)) {
      HeaderWords(typ, s, BodyBytes(m), []);
      HeaderWords(typ, s, PutAll(fs), []);
      BodyFieldKinds(m);
      hide BodyFields;
      TakeAllOfPutAll(fs, BodyKinds(), []);
      TakeAllOfPutAll(BodyFields(m), BodyKinds(), []);
      assert PutAll(fs) == BodyBytes(m);
    }
  }

  /** The frame of a message with the byte v for its flag and n for the sequence number inside its body. */
  function LooseFrame(m: Message, v: byte, n: u32): seq<byte> {
    RawFrame(m.typ, m.seqNo, PutAll(LooseFields(m, v, n)))
  }

  function LooseFields(m: Message, v: byte, n: u32): seq<Field> {
    AuthorityFields(m)[1 := F32(n)] + BoundaryFields(m)[7 := F8(v)] + ResourceFields(m) + OutcomeFields(m)
  }

  /** Both sides of the condition are met: any non-zero byte stands for a raised flag and the body's sequence number is
      not looked at, so every sendable message has accepted frames besides its own encoding. */
  lemma {:induction false} LooseFrames(m: Message, v: byte, n: u32)
    requires InRange(m) && |m.detail| + |m.extra| <= 65_291 && (v != 0) == m.safePointCaptureRequired
    ensures ParseFrame(LooseFrame(m, v, n)) == FrameOk(m)
    ensures FrameBytes(m) == Some(LooseFrame(m, v, n)) <==> v <= 1 && n == m.seqNo
  {
    var fs := LooseFields(m, v, n);
    LooseBody(m, v, n);
    BodySize(m);
    ShortTextsEncode(m);
    hide LooseFields, ParseBody, ParseFrame, BodyFields, RawFrame;
    ParseRawFrame(m.typ, m.seqNo, PutAll(fs));
    SameBodies(m, fs, m.typ, m.seqNo);
  }

  lemma {:induction false} LooseBody(m: Message, v: byte, n: u32)
    requires InRange(m) && |m.detail| + |m.extra| <= 65_291 && (v != 0) == m.safePointCaptureRequired
    ensures var fs := LooseFields(m, v, n);
      && HasKinds(fs, BodyKinds()) && AllSized(fs) && |PutAll(fs)| == |BodyBytes(m)|
      && ParseBody(PutAll(fs)) == Some(m.(seqNo := n))
      && (BodyFields(m) == fs <==> v <= 1 && n == m.seqNo)
  {
    hide *;
    LooseFieldsAre(m, v, n);
    var a, b := AuthorityFields(m)[1 := F32(n)], BoundaryFields(m)[7 := F8(v)];
    var r, o := ResourceFields(m), OutcomeFields(m);
    var fs := LooseFields(m, v, n);
    PartKinds(m);
    LooseAuthority(m, n);
    LooseBoundary(m, v);
    SizedTail(m);
    LooseMessage(m, v, n);
    JoinParts(a, b, r, o);
    PartsSize(a, b, r, o, AuthorityFields(m), BoundaryFields(m));
    SameParts(fs, AuthorityFields(m), BoundaryFields(m));
    ParseFields(fs);
  }

  lemma LooseFieldsAre(m: Message, v: byte, n: u32)
    ensures |AuthorityFields(m)| == 11 && |BoundaryFields(m)| == 8
    ensures LooseFields(m, v, n) ==
      AuthorityFields(m)[1 := F32(n)] + BoundaryFields(m)[7 := F8(v)] + ResourceFields(m) + OutcomeFields(m)
    ensures BodyBytes(m) == PutAll(BodyFields(m))
    ensures BodyFields(m) == AuthorityFields(m) + BoundaryFields(m) + ResourceFields(m) + OutcomeFields(m)
  {
    hide PutAll;
  }

  lemma {:induction false} LooseAuthority(m: Message, n: u32)
    ensures |AuthorityFields(m)| == 11
    ensures var a := AuthorityFields(m)[1 := F32(n)];
      HasKinds(a, AUTHORITY_KINDS) && AllSized(a) && (AuthorityFields(m) == a <==> n == m.seqNo)
  {
    var a := AuthorityFields(m)[1 := F32(n)];
    assert AuthorityFields(m)[1] == F32(m.seqNo) && a[1] == F32(n);
  }

  lemma {:induction false} LooseBoundary(m: Message, v: byte)
    requires (v != 0) == m.safePointCaptureRequired
    ensures |BoundaryFields(m)| == 8
    ensures var b := BoundaryFields(m)[7 := F8(v)];
      HasKinds(b, BOUNDARY_KINDS) && AllSized(b) && (BoundaryFields(m) == b <==> v <= 1)
  {
    var b := BoundaryFields(m)[7 := F8(v)];
    assert BoundaryFields(m)[7] == F8(if m.safePointCaptureRequired then 1 else 0) && b[7] == F8(v);
  }

  lemma {:induction false} SizedTail(m: Message)
    requires |m.detail| + |m.extra| <= 65_291
    ensures AllSized(ResourceFields(m)) && AllSized(OutcomeFields(m))
  {
  }

  lemma {:induction false} LooseMessage(m: Message, v: byte, n: u32)
    requires (v != 0) == m.safePointCaptureRequired && |AuthorityFields(m)| == 11 && |BoundaryFields(m)| == 8
    requires var a, b := AuthorityFields(m)[1 := F32(n)], BoundaryFields(m)[7 := F8(v)];
      && HasKinds(a, AUTHORITY_KINDS) && HasKinds(b, BOUNDARY_KINDS)
      && HasKinds(ResourceFields(m), RESOURCE_KINDS) && HasKinds(OutcomeFields(m), OUTCOME_KINDS)
    ensures var a, b := AuthorityFields(m)[1 := F32(n)], BoundaryFields(m)[7 := F8(v)];
      MessageFrom(a, b, ResourceFields(m), OutcomeFields(m)) == m.(seqNo := n)
    ensures InRange(m.(seqNo := n)) == InRange(m)
  {
    hide HasKinds;
  }

  lemma {:induction false} JoinParts(a: seq<Field>, b: seq<Field>, r: seq<Field>, o: seq<Field>)
    requires HasKinds(a, AUTHORITY_KINDS) && HasKinds(b, BOUNDARY_KINDS)
    requires HasKinds(r, RESOURCE_KINDS) && HasKinds(o, OUTCOME_KINDS)
    requires AllSized(a) && AllSized(b) && AllSized(r) && AllSized(o)
    ensures var fs := a + b + r + o;
      && |fs| == 38 && fs[..11] == a && fs[11..19] == b && fs[19..29] == r && fs[29..] == o
      && HasKinds(fs, BodyKinds()) && AllSized(fs) && MessageOf(fs) == MessageFrom(a, b, r, o)
  {
    hide MessageFrom;
    var fs := a + b + r + o;
    assert fs[..11] == a && fs[11..19] == b && fs[19..29] == r && fs[29..] == o;
  }

  lemma {:induction false} ParseFields(fs: seq<Field>)
    requires HasKinds(fs, BodyKinds()) && AllSized(fs) && InRange(MessageOf(fs))
    ensures ParseBody(PutAll(fs)) == Some(MessageOf(fs))
  {
    hide MessageOf, TakeAll, InRange, BodyKinds;
    TakeAllOfPutAll(fs, BodyKinds(), []);
    assert PutAll(fs) + [] == PutAll(fs);
  }
}
