/** The wire layout of src/protocol/framing.cpp, byte by byte: where every field of a frame lies, and what every byte
    string does to the two decoders, with nothing but offsets and literal values. */
module Layout {
  import opened Words
  import opened Fields
  import opened Offsets
  import opened Crc32
  import opened Division
  import opened Framing
  import opened Stream

  // ---- a message in the bytes of its body ----

  predicate ShowsAuthority(p: seq<byte>, m: Message)
    requires |p| >= 237
  {
    && m.typ == Word(p, 0) && m.seqNo == Word(p, 4) && m.coordinatorEpoch == Long(p, 8) && m.workerId == Long(p, 16)
    && m.workerBootId == Long(p, 24) && m.executionId == Long(p, 32) && m.executionGeneration == Long(p, 40)
    && m.attemptId == Long(p, 48) && m.attemptGeneration == Long(p, 56) && m.requestId == Long(p, 64)
    && m.requestGeneration == Long(p, 72)
  }

  predicate ShowsBoundary(p: seq<byte>, m: Message)
    requires |p| >= 237
  {
    && m.workerB == Long(p, 80) && m.progressPosition == Long(p, 88) && m.progressGeneration == Long(p, 96)
    && m.progressKind == Word(p, 104) && m.safePointId == Long(p, 108) && m.safePointGeneration == Long(p, 116)
    && m.safePointPosition == Long(p, 124) && m.safePointCaptureRequired == (p[132] != 0)
  }

  predicate ShowsResource(p: seq<byte>, m: Message)
    requires |p| >= 237
  {
    && m.checkpointRef == Long(p, 133) && m.checkpointGeneration == Long(p, 141) && m.captureId == Long(p, 149)
    && m.captureGeneration == Long(p, 157) && m.resumeId == Long(p, 165) && m.resumeGeneration == Long(p, 173)
    && m.resource == Word(p, 181) && m.units == Long(p, 185) && m.contractId == Long(p, 193)
    && m.contractGeneration == Long(p, 201)
  }

  predicate ShowsOutcome(p: seq<byte>, m: Message)
    requires |p| >= 237
  {
    && m.reason == Word(p, 209) && m.outcome == Word(p, 213) && m.lifecycle == Word(p, 217)
    && m.preemptibility == Word(p, 221) && m.resumeOutcome == Word(p, 225) && m.depStatus == Word(p, 229)
    && m.preservationOutcome == Word(p, 233)
  }

  /** The two texts, each after its length. */
  predicate ShowsTexts(p: seq<byte>, m: Message)
    requires |p| >= 245
  {
    var d := Word(p, 237);
    && 245 + d <= |p| && |p| == 245 + d + Word(p, 241 + d)
    && m.detail == p[241..241 + d] && m.extra == p[245 + d..]
  }

  /** The body holds the message. */
  predicate Shows(p: seq<byte>, m: Message) {
    && |p| >= 245
    && ShowsAuthority(p, m) && ShowsBoundary(p, m) && ShowsResource(p, m) && ShowsOutcome(p, m) && ShowsTexts(p, m)
  }

  /** The lengths of the texts add up. */
  predicate Measured(p: seq<byte>) {
    && |p| >= 245 && 245 + Word(p, 237) <= |p|
    && |p| == 245 + Word(p, 237) + Word(p, 241 + Word(p, 237))
  }

  /** A known message type, and every enumeration within its range. */
  predicate Known(p: seq<byte>)
    requires |p| >= 237
  {
    && 1 <= Word(p, 0) <= 24 && Word(p, 104) <= 8 && Word(p, 181) <= 11 && Word(p, 209) <= 13 && Word(p, 213) <= 8
    && Word(p, 217) <= 25 && Word(p, 221) <= 9 && Word(p, 225) <= 13 && Word(p, 229) <= 3 && Word(p, 233) <= 9
  }

  // ---- field by field ----

  lemma FieldCount(fs: seq<Field>)
    requires HasKinds(fs, BodyKinds())
    ensures |fs| == 38 && |BodyKinds()| == 38
  {
  }

  lemma NoTextBefore()
    ensures |BodyKinds()| == 38 && forall i :: 0 <= i <= 36 ==> KText !in BodyKinds()[..i]
  {
    var ks := BodyKinds();
    assert forall j :: 0 <= j < 36 ==> ks[j] != KText;
  }

  lemma AuthorityKinds()
    ensures var ks := BodyKinds();
      |ks| == 38
      && ks[0] == K32 && ks[1] == K32 && ks[2] == K64 && ks[3] == K64 && ks[4] == K64 && ks[5] == K64 && ks[6] == K64
      && ks[7] == K64 && ks[8] == K64 && ks[9] == K64 && ks[10] == K64
  {
  }

  lemma {:induction false} AuthorityOffsets()
    ensures var ks := BodyKinds();
      |ks| == 38
      && Offset(ks, 0) == 0 && Offset(ks, 1) == 4 && Offset(ks, 2) == 8 && Offset(ks, 3) == 16 && Offset(ks, 4) == 24
      && Offset(ks, 5) == 32 && Offset(ks, 6) == 40 && Offset(ks, 7) == 48 && Offset(ks, 8) == 56
      && Offset(ks, 9) == 64 && Offset(ks, 10) == 72 && Offset(ks, 11) == 80
  {
    OffsetZero(BodyKinds());
    AuthorityKinds();
    hide BodyKinds, Offset;
    var ks := BodyKinds();
    OffsetStep(ks, 0); OffsetStep(ks, 1); OffsetStep(ks, 2); OffsetStep(ks, 3); OffsetStep(ks, 4); OffsetStep(ks, 5);
    OffsetStep(ks, 6); OffsetStep(ks, 7); OffsetStep(ks, 8); OffsetStep(ks, 9); OffsetStep(ks, 10);
  }

  lemma {:induction false} AuthorityRead(fs: seq<Field>)
    requires HasKinds(fs, BodyKinds()) && |PutAll(fs)| >= 237
    ensures var p := PutAll(fs);
      |fs| == 38
      && fs[0].F32? && fs[0].w == Word(p, 0) && fs[1].F32? && fs[1].w == Word(p, 4)
      && fs[2].F64? && fs[2].q == Long(p, 8) && fs[3].F64? && fs[3].q == Long(p, 16)
      && fs[4].F64? && fs[4].q == Long(p, 24) && fs[5].F64? && fs[5].q == Long(p, 32)
      && fs[6].F64? && fs[6].q == Long(p, 40) && fs[7].F64? && fs[7].q == Long(p, 48)
      && fs[8].F64? && fs[8].q == Long(p, 56) && fs[9].F64? && fs[9].q == Long(p, 64)
      && fs[10].F64? && fs[10].q == Long(p, 72)
  {
    AuthorityKinds();
    AuthorityOffsets();
    NoTextBefore();
    hide BodyKinds, Offset, PutAll, HasKinds, Word, Long;
    var ks := BodyKinds();
    FieldCount(fs);
    WordField(fs, ks, 0); WordField(fs, ks, 1); LongField(fs, ks, 2); LongField(fs, ks, 3); LongField(fs, ks, 4);
    LongField(fs, ks, 5); LongField(fs, ks, 6); LongField(fs, ks, 7); LongField(fs, ks, 8); LongField(fs, ks, 9);
    LongField(fs, ks, 10);
  }

  lemma {:induction false} AuthorityMessage(fs: seq<Field>)
    requires HasKinds(fs, BodyKinds())
    ensures var m := MessageOf(fs);
      |fs| == 38
      && fs[0].F32? && m.typ == fs[0].w && fs[1].F32? && m.seqNo == fs[1].w
      && fs[2].F64? && m.coordinatorEpoch == fs[2].q && fs[3].F64? && m.workerId == fs[3].q
      && fs[4].F64? && m.workerBootId == fs[4].q && fs[5].F64? && m.executionId == fs[5].q
      && fs[6].F64? && m.executionGeneration == fs[6].q && fs[7].F64? && m.attemptId == fs[7].q
      && fs[8].F64? && m.attemptGeneration == fs[8].q && fs[9].F64? && m.requestId == fs[9].q
      && fs[10].F64? && m.requestGeneration == fs[10].q
  {
    SliceKinds(fs);
    AuthorityKinds();
    FieldCount(fs);
    hide BodyKinds;
  }

  lemma BoundaryKinds()
    ensures var ks := BodyKinds();
      |ks| == 38
      && ks[11] == K64 && ks[12] == K64 && ks[13] == K64 && ks[14] == K32 && ks[15] == K64 && ks[16] == K64
      && ks[17] == K64 && ks[18] == K8
  {
  }

  lemma {:induction false} BoundaryOffsets()
    ensures var ks := BodyKinds();
      |ks| == 38
      && Offset(ks, 11) == 80 && Offset(ks, 12) == 88 && Offset(ks, 13) == 96 && Offset(ks, 14) == 104
      && Offset(ks, 15) == 108 && Offset(ks, 16) == 116 && Offset(ks, 17) == 124 && Offset(ks, 18) == 132
      && Offset(ks, 19) == 133
  {
    AuthorityOffsets();
    BoundaryKinds();
    hide BodyKinds, Offset;
    var ks := BodyKinds();
    OffsetStep(ks, 11); OffsetStep(ks, 12); OffsetStep(ks, 13); OffsetStep(ks, 14); OffsetStep(ks, 15);
    OffsetStep(ks, 16); OffsetStep(ks, 17); OffsetStep(ks, 18);
  }

  lemma {:induction false} BoundaryRead(fs: seq<Field>)
    requires HasKinds(fs, BodyKinds()) && |PutAll(fs)| >= 237
    ensures var p := PutAll(fs);
      |fs| == 38
      && fs[11].F64? && fs[11].q == Long(p, 80) && fs[12].F64? && fs[12].q == Long(p, 88)
      && fs[13].F64? && fs[13].q == Long(p, 96) && fs[14].F32? && fs[14].w == Word(p, 104)
      && fs[15].F64? && fs[15].q == Long(p, 108) && fs[16].F64? && fs[16].q == Long(p, 116)
      && fs[17].F64? && fs[17].q == Long(p, 124) && fs[18].F8? && fs[18].b == p[132]
  {
    BoundaryKinds();
    BoundaryOffsets();
    NoTextBefore();
    hide BodyKinds, Offset, PutAll, HasKinds, Word, Long;
    var ks := BodyKinds();
    FieldCount(fs);
    LongField(fs, ks, 11); LongField(fs, ks, 12); LongField(fs, ks, 13); WordField(fs, ks, 14); LongField(fs, ks, 15);
    LongField(fs, ks, 16); LongField(fs, ks, 17); ByteField(fs, ks, 18);
  }

  lemma {:induction false} BoundaryMessage(fs: seq<Field>)
    requires HasKinds(fs, BodyKinds())
    ensures var m := MessageOf(fs);
      |fs| == 38
      && fs[11].F64? && m.workerB == fs[11].q && fs[12].F64? && m.progressPosition == fs[12].q
      && fs[13].F64? && m.progressGeneration == fs[13].q && fs[14].F32? && m.progressKind == fs[14].w
      && fs[15].F64? && m.safePointId == fs[15].q && fs[16].F64? && m.safePointGeneration == fs[16].q
      && fs[17].F64? && m.safePointPosition == fs[17].q && fs[18].F8? && m.safePointCaptureRequired == (fs[18].b != 0)
  {
    SliceKinds(fs);
    BoundaryKinds();
    FieldCount(fs);
    hide BodyKinds;
  }

  lemma ResourceKinds()
    ensures var ks := BodyKinds();
      |ks| == 38
      && ks[19] == K64 && ks[20] == K64 && ks[21] == K64 && ks[22] == K64 && ks[23] == K64 && ks[24] == K64
      && ks[25] == K32 && ks[26] == K64 && ks[27] == K64 && ks[28] == K64
  {
  }

  lemma {:induction false} ResourceOffsets()
    ensures var ks := BodyKinds();
      |ks| == 38
      && Offset(ks, 19) == 133 && Offset(ks, 20) == 141 && Offset(ks, 21) == 149 && Offset(ks, 22) == 157
      && Offset(ks, 23) == 165 && Offset(ks, 24) == 173 && Offset(ks, 25) == 181 && Offset(ks, 26) == 185
      && Offset(ks, 27) == 193 && Offset(ks, 28) == 201 && Offset(ks, 29) == 209
  {
    BoundaryOffsets();
    ResourceKinds();
    hide BodyKinds, Offset;
    var ks := BodyKinds();
    OffsetStep(ks, 19); OffsetStep(ks, 20); OffsetStep(ks, 21); OffsetStep(ks, 22); OffsetStep(ks, 23);
    OffsetStep(ks, 24); OffsetStep(ks, 25); OffsetStep(ks, 26); OffsetStep(ks, 27); OffsetStep(ks, 28);
  }

  lemma {:induction false} ResourceRead(fs: seq<Field>)
    requires HasKinds(fs, BodyKinds()) && |PutAll(fs)| >= 237
    ensures var p := PutAll(fs);
      |fs| == 38
      && fs[19].F64? && fs[19].q == Long(p, 133) && fs[20].F64? && fs[20].q == Long(p, 141)
      && fs[21].F64? && fs[21].q == Long(p, 149) && fs[22].F64? && fs[22].q == Long(p, 157)
      && fs[23].F64? && fs[23].q == Long(p, 165) && fs[24].F64? && fs[24].q == Long(p, 173)
      && fs[25].F32? && fs[25].w == Word(p, 181) && fs[26].F64? && fs[26].q == Long(p, 185)
      && fs[27].F64? && fs[27].q == Long(p, 193) && fs[28].F64? && fs[28].q == Long(p, 201)
  {
    ResourceKinds();
    ResourceOffsets();
    NoTextBefore();
    hide BodyKinds, Offset, PutAll, HasKinds, Word, Long;
    var ks := BodyKinds();
    FieldCount(fs);
    LongField(fs, ks, 19); LongField(fs, ks, 20); LongField(fs, ks, 21); LongField(fs, ks, 22); LongField(fs, ks, 23);
    LongField(fs, ks, 24); WordField(fs, ks, 25); LongField(fs, ks, 26); LongField(fs, ks, 27); LongField(fs, ks, 28);
  }

  lemma {:induction false} ResourceMessage(fs: seq<Field>)
    requires HasKinds(fs, BodyKinds())
    ensures var m := MessageOf(fs);
      |fs| == 38
      && fs[19].F64? && m.checkpointRef == fs[19].q && fs[20].F64? && m.checkpointGeneration == fs[20].q
      && fs[21].F64? && m.captureId == fs[21].q && fs[22].F64? && m.captureGeneration == fs[22].q
      && fs[23].F64? && m.resumeId == fs[23].q && fs[24].F64? && m.resumeGeneration == fs[24].q
      && fs[25].F32? && m.resource == fs[25].w && fs[26].F64? && m.units == fs[26].q
      && fs[27].F64? && m.contractId == fs[27].q && fs[28].F64? && m.contractGeneration == fs[28].q
  {
    SliceKinds(fs);
    ResourceKinds();
    FieldCount(fs);
    hide BodyKinds;
  }

  lemma OutcomeKinds()
    ensures var ks := BodyKinds();
      |ks| == 38
      && ks[29] == K32 && ks[30] == K32 && ks[31] == K32 && ks[32] == K32 && ks[33] == K32 && ks[34] == K32
      && ks[35] == K32
  {
  }

  lemma {:induction false} OutcomeOffsets()
    ensures var ks := BodyKinds();
      |ks| == 38
      && Offset(ks, 29) == 209 && Offset(ks, 30) == 213 && Offset(ks, 31) == 217 && Offset(ks, 32) == 221
      && Offset(ks, 33) == 225 && Offset(ks, 34) == 229 && Offset(ks, 35) == 233 && Offset(ks, 36) == 237
  {
    ResourceOffsets();
    OutcomeKinds();
    hide BodyKinds, Offset;
    var ks := BodyKinds();
    OffsetStep(ks, 29); OffsetStep(ks, 30); OffsetStep(ks, 31); OffsetStep(ks, 32); OffsetStep(ks, 33);
    OffsetStep(ks, 34); OffsetStep(ks, 35);
  }

  lemma {:induction false} OutcomeRead(fs: seq<Field>)
    requires HasKinds(fs, BodyKinds()) && |PutAll(fs)| >= 237
    ensures var p := PutAll(fs);
      |fs| == 38
      && fs[29].F32? && fs[29].w == Word(p, 209) && fs[30].F32? && fs[30].w == Word(p, 213)
      && fs[31].F32? && fs[31].w == Word(p, 217) && fs[32].F32? && fs[32].w == Word(p, 221)
      && fs[33].F32? && fs[33].w == Word(p, 225) && fs[34].F32? && fs[34].w == Word(p, 229)
      && fs[35].F32? && fs[35].w == Word(p, 233)
  {
    OutcomeKinds();
    OutcomeOffsets();
    NoTextBefore();
    hide BodyKinds, Offset, PutAll, HasKinds, Word, Long;
    var ks := BodyKinds();
    FieldCount(fs);
    WordField(fs, ks, 29); WordField(fs, ks, 30); WordField(fs, ks, 31); WordField(fs, ks, 32); WordField(fs, ks, 33);
    WordField(fs, ks, 34); WordField(fs, ks, 35);
  }

  lemma {:induction false} OutcomeMessage(fs: seq<Field>)
    requires HasKinds(fs, BodyKinds())
    ensures var m := MessageOf(fs);
      |fs| == 38
      && fs[29].F32? && m.reason == fs[29].w && fs[30].F32? && m.outcome == fs[30].w
      && fs[31].F32? && m.lifecycle == fs[31].w && fs[32].F32? && m.preemptibility == fs[32].w
      && fs[33].F32? && m.resumeOutcome == fs[33].w && fs[34].F32? && m.depStatus == fs[34].w
      && fs[35].F32? && m.preservationOutcome == fs[35].w
  {
    SliceKinds(fs);
    OutcomeKinds();
    FieldCount(fs);
    hide BodyKinds;
  }

  // ---- texts ----

  /** A text is its length and its bytes. */
  lemma {:induction false} TextBytes(t: seq<byte>)
    requires |t| < 0x1_0000_0000
    ensures var b := Put(FText(t)); |b| == 4 + |t| && Word(b, 0) == |t| && b[4..] == t
  {
    hide LE, UnLE, Word;
    Widths();
    var b := Put(FText(t));
    assert b[0..4] == LE(|t|, 4);
    WordIsUnLE(b, 0);
    UnLEOfLE(|t|, 4);
  }

  lemma {:induction false} TextsRead(fs: seq<Field>)
    requires HasKinds(fs, BodyKinds()) && AllSized(fs)
    ensures var p := PutAll(fs);
      |fs| == 38 && fs[36].FText? && fs[37].FText? && |p| == 245 + |fs[36].text| + |fs[37].text|
      && Word(p, 237) == |fs[36].text| && p[241..241 + |fs[36].text|] == fs[36].text
      && Word(p, 241 + |fs[36].text|) == |fs[37].text| && p[245 + |fs[36].text|..] == fs[37].text
  {
    hide BodyKinds, Word, Put, PutAll, HasKinds, AllSized;
    TextFields(fs);
    HeadSize(fs);
    TextBytes(fs[36].text);
    TextBytes(fs[37].text);
    LastTwo(fs);
    JoinTexts(PutAll(fs[..36]), Put(fs[36]), Put(fs[37]));
  }

  lemma {:induction false} TextFields(fs: seq<Field>)
    requires HasKinds(fs, BodyKinds()) && AllSized(fs)
    ensures |fs| == 38 && fs[36].FText? && fs[37].FText? && fs[36].Sized() && fs[37].Sized()
  {
    FieldCount(fs);
    TextKinds();
    hide BodyKinds;
  }

  lemma {:induction false} HeadSize(fs: seq<Field>)
    requires HasKinds(fs, BodyKinds()) && |fs| == 38
    ensures |PutAll(fs[..36])| == 237
  {
    hide BodyKinds, PutAll, TotalWidth;
    HeadKinds();
    FixedSize(fs[..36], BodyKinds()[..36]);
  }

  lemma {:induction false} HeadKinds()
    ensures |BodyKinds()| == 38 && KText !in BodyKinds()[..36] && TotalWidth(BodyKinds()[..36]) == 237
  {
    hide BodyKinds, TotalWidth;
    OutcomeOffsets();
    NoTextBefore();
  }

  lemma TextKinds()
    ensures |BodyKinds()| == 38 && BodyKinds()[36] == KText && BodyKinds()[37] == KText
  {
  }

  lemma {:induction false} LastTwo(fs: seq<Field>)
    requires |fs| == 38
    ensures PutAll(fs) == PutAll(fs[..36]) + (Put(fs[36]) + Put(fs[37]))
  {
    hide Put;
    assert fs == fs[..36] + ([fs[36]] + [fs[37]]);
    PutAllAppend(fs[..36], [fs[36]] + [fs[37]]);
    PutAllAppend([fs[36]], [fs[37]]);
    assert PutAll([fs[36]]) == Put(fs[36]) && PutAll([fs[37]]) == Put(fs[37]);
  }

  lemma {:induction false} JoinTexts(head: seq<byte>, x: seq<byte>, y: seq<byte>)
    requires |head| == 237 && |x| >= 4 && |y| >= 4 && Word(x, 0) == |x| - 4 && Word(y, 0) == |y| - 4
    ensures var p, d := head + (x + y), |x| - 4;
      && |p| == 245 + d + |y| - 4 && Word(p, 237) == d && p[241..241 + d] == x[4..]
      && Word(p, 241 + d) == |y| - 4 && p[245 + d..] == y[4..]
  {
    var p, d := head + (x + y), |x| - 4;
    assert p[237..241 + d] == x && p[241 + d..|p|] == y;
    WordInSlice(p, 237, 241 + d, 0);
    WordInSlice(p, 241 + d, |p|, 0);
    hide Word;
    assert p[241..241 + d] == p[237..241 + d][4..];
    assert p[245 + d..] == p[241 + d..|p|][4..];
  }

  lemma {:induction false} TextsMessage(fs: seq<Field>)
    requires HasKinds(fs, BodyKinds())
    ensures |fs| == 38 && fs[36].FText? && fs[37].FText?
    ensures MessageOf(fs).detail == fs[36].text && MessageOf(fs).extra == fs[37].text
  {
    SliceKinds(fs);
    FieldCount(fs);
    TextKinds();
    hide BodyKinds;
  }

  // ---- bodies ----

  /** The bytes of any field list show the message that is read from it. */
  lemma {:induction false} FieldsShow(fs: seq<Field>)
    requires HasKinds(fs, BodyKinds()) && AllSized(fs)
    ensures Shows(PutAll(fs), MessageOf(fs)) && Measured(PutAll(fs))
    ensures InRange(MessageOf(fs)) <==> Known(PutAll(fs))
  {
    hide BodyKinds, HasKinds, AllSized, PutAll, MessageOf, Word, Long;
    TextsRead(fs);
    TextsMessage(fs);
    AuthorityRead(fs); AuthorityMessage(fs);
    BoundaryRead(fs); BoundaryMessage(fs);
    ResourceRead(fs); ResourceMessage(fs);
    OutcomeRead(fs); OutcomeMessage(fs);
  }

  /** The body of every encodable message: each field at its offset, the texts after their lengths, and nothing else. */
  lemma {:induction false} BodyShows(m: Message)
    requires AllSized(BodyFields(m))
    ensures Shows(BodyBytes(m), m) && BodyBytes(m)[132] == if m.safePointCaptureRequired then 1 else 0
  {
    BodyFieldKinds(m);
    MessageOfBodyFields(m);
    FlagField(m);
    hide BodyFields, BodyKinds, MessageOf, HasKinds, AllSized, PutAll;
    FieldsShow(BodyFields(m));
    BoundaryRead(BodyFields(m));
  }

  lemma {:induction false} FlagField(m: Message)
    ensures |BodyFields(m)| == 38 && BodyFields(m)[18] == F8(if m.safePointCaptureRequired then 1 else 0)
  {
    BodyFieldKinds(m);
    assert BodyFields(m)[18] == BodyFields(m)[11..19][7];
  }

  lemma {:induction false} SameShown(p: seq<byte>, m: Message, m': Message)
    requires Shows(p, m) && Shows(p, m')
    ensures m == m'
  {
    hide Word, Long;
  }

  /** The fixed fields can be read from any body that is long enough. */
  lemma {:induction false} HeadFields(p: seq<byte>) returns (head: seq<Field>)
    requires |p| >= 237
    ensures |BodyKinds()| == 38 && HasKinds(head, BodyKinds()[..36]) && AllSized(head) && PutAll(head) == p[..237]
  {
    hide BodyKinds, TotalWidth;
    var ks := BodyKinds();
    HeadKinds();
    FixedTake(ks[..36], p);
    PutAllOfTakeAll(ks[..36], p);
    head := TakeAll(ks[..36], p).value.0;
    FixedSize(head, ks[..36]);
    hide TakeAll, PutAll, HasKinds, AllSized;
    assert (PutAll(head) + p[237..])[..237] == PutAll(head);
  }

  lemma {:induction false} WithTexts(head: seq<Field>, x: seq<byte>, y: seq<byte>)
    requires |BodyKinds()| == 38 && HasKinds(head, BodyKinds()[..36]) && AllSized(head)
    requires |x| < 0x1_0000_0000 && |y| < 0x1_0000_0000
    ensures var fs := head + [FText(x), FText(y)];
      HasKinds(fs, BodyKinds()) && AllSized(fs) && PutAll(fs) == PutAll(head) + (Put(FText(x)) + Put(FText(y)))
  {
    TextKinds();
    hide BodyKinds, Put;
    var fs := head + [FText(x), FText(y)];
    assert fs[..36] == head;
    LastTwo(fs);
    hide PutAll;
  }

  /** Any body whose lengths add up is that of some field list. */
  lemma {:induction false} MeasuredFields(p: seq<byte>) returns (fs: seq<Field>)
    requires Measured(p)
    ensures HasKinds(fs, BodyKinds()) && AllSized(fs) && PutAll(fs) == p
  {
    hide Word, BodyKinds, HasKinds, AllSized, PutAll, Put;
    var d := Word(p, 237);
    var e := Word(p, 241 + d);
    var head := HeadFields(p);
    var x, y := p[241..241 + d], p[245 + d..245 + d + e];
    TextSlice(p, 237, d);
    TextSlice(p, 241 + d, e);
    WithTexts(head, x, y);
    fs := head + [FText(x), FText(y)];
    assert p == p[..237] + (p[237..241 + d] + p[241 + d..245 + d + e]);
  }

  /** A length and that many bytes are a text. */
  lemma {:induction false} TextSlice(p: seq<byte>, o: nat, n: nat)
    requires o + 4 + n <= |p| && Word(p, o) == n
    ensures Put(FText(p[o + 4..o + 4 + n])) == p[o..o + 4 + n]
  {
    hide LE, UnLE, Word;
    WordIsUnLE(p, o);
    LEOfUnLE(p[o..o + 4]);
    assert p[o..o + 4 + n] == p[o..o + 4] + p[o + 4..o + 4 + n];
  }

  lemma {:induction false} ListOutcome(fs: seq<Field>)
    requires HasKinds(fs, BodyKinds()) && AllSized(fs)
    ensures ParseBody(PutAll(fs)) == if InRange(MessageOf(fs)) then Some(MessageOf(fs)) else None
  {
    TakeAllOfPutAll(fs, BodyKinds(), []);
    assert PutAll(fs) + [] == PutAll(fs);
    hide BodyKinds, HasKinds, AllSized, MessageOf, PutAll, TakeAll, InRange;
  }

  lemma {:induction false} AcceptedList(p: seq<byte>) returns (fs: seq<Field>)
    requires ParseBody(p).Some?
    ensures HasKinds(fs, BodyKinds()) && AllSized(fs) && PutAll(fs) == p
  {
    PutAllOfTakeAll(BodyKinds(), p);
    hide BodyKinds, HasKinds, AllSized, MessageOf, PutAll, TakeAll, InRange;
    fs := TakeAll(BodyKinds(), p).value.0;
    assert PutAll(fs) + [] == PutAll(fs);
  }

  /** Exactly which bodies are accepted, and as what: the lengths add up, the type is known, the enumerations are in
      range, and the message is the one the bytes show. */
  lemma {:induction false} BodyOutcome(p: seq<byte>)
    ensures ParseBody(p).Some? <==> Measured(p) && Known(p)
    ensures ParseBody(p).Some? ==> Shows(p, ParseBody(p).value)
  {
    MeasuredLength(p);
    hide *;
    if Measured(p) || ParseBody(p).Some? {
      var fs;
      if Measured(p) { fs := MeasuredFields(p); } else { fs := AcceptedList(p); }
      FieldsShow(fs);
      ListOutcome(fs);
    }
  }

  lemma MeasuredLength(p: seq<byte>)
    ensures Measured(p) ==> |p| >= 245
  {
  }

  // ---- frames ----

  const MAGIC_BYTES: seq<byte> := [0x50, 0x46, 0x52, 0x31]
  const VERSION_BYTES: seq<byte> := [1, 0, 0, 0]

  /** A header that announces a body of at most 64 KiB. */
  predicate GoodHeader(b: seq<byte>) {
    |b| >= 24 && b[..4] == MAGIC_BYTES && b[4..8] == VERSION_BYTES && Word(b, 16) <= 65_536
  }

  /** The header words as the decoders read them. */
  lemma {:induction false} HeaderBytes(b: seq<byte>)
    requires |b| >= 24
    ensures WordAt(b, 0) == MAGIC <==> b[..4] == MAGIC_BYTES
    ensures WordAt(b, 1) == VERSION <==> b[4..8] == VERSION_BYTES
    ensures WordAt(b, 2) == Word(b, 8) && WordAt(b, 3) == Word(b, 12) && WordAt(b, 4) == Word(b, 16)
  {
    assert Word(MAGIC_BYTES, 0) == MAGIC && Word(VERSION_BYTES, 0) == VERSION;
    FourAre(b[..4], MAGIC_BYTES);
    FourAre(b[4..8], VERSION_BYTES);
    WordInSlice(b, 0, 4, 0);
    WordInSlice(b, 4, 8, 0);
    hide UnLE, Word;
    assert b[..4] == b[0..4];
    WordIsUnLE(b, 0); WordIsUnLE(b, 4); WordIsUnLE(b, 8); WordIsUnLE(b, 12); WordIsUnLE(b, 16);
  }

  /** The whole frame is there, and nothing after it. */
  predicate Whole(b: seq<byte>) {
    GoodHeader(b) && |b| == 24 + Word(b, 16)
  }

  /** What lies between header and trailer. */
  function BodyOf(b: seq<byte>): seq<byte> {
    if |b| >= 24 then b[20..|b| - 4] else []
  }

  /** The body is well formed. */
  predicate GoodBody(p: seq<byte>) {
    Measured(p) && Known(p)
  }

  lemma {:induction false} HeaderOutcome(b: seq<byte>)
    ensures ParseFrame(b) == FrameFail(Truncated) <==> |b| < 24 || (GoodHeader(b) && |b| < 24 + Word(b, 16))
    ensures ParseFrame(b) == FrameFail(BadMagic) <==> |b| >= 24 && b[..4] != MAGIC_BYTES
    ensures ParseFrame(b) == FrameFail(BadVersion) <==>
      |b| >= 24 && b[..4] == MAGIC_BYTES && b[4..8] != VERSION_BYTES
    ensures ParseFrame(b) == FrameFail(BadLength) <==>
      |b| >= 24 && b[..4] == MAGIC_BYTES && b[4..8] == VERSION_BYTES && Word(b, 16) > 65_536
    ensures ParseFrame(b) == FrameFail(TrailingGarbage) <==> GoodHeader(b) && |b| > 24 + Word(b, 16)
  {
    if |b| >= 24 { HeaderBytes(b); }
    hide WordAt, Sealed, ParseBody, Word, MAGIC_BYTES, VERSION_BYTES, MAGIC, VERSION;
  }

  lemma {:induction false} WholeOutcome(b: seq<byte>)
    requires Whole(b)
    ensures ParseFrame(b) ==
      if !Intact(b) then FrameFail(ChecksumMismatch)
      else match ParseBody(BodyOf(b))
        case None => FrameFail(MalformedBody)
        case Some(m) => if m.typ == Word(b, 8) then FrameOk(m.(seqNo := Word(b, 12))) else FrameFail(MalformedBody)
  {
    hide WordAt, Sealed, ParseBody, Intact, Word, MAGIC_BYTES, VERSION_BYTES, MAGIC, VERSION;
    HeaderBytes(b);
    IntactIsSealed(b);
  }

  /** The one-shot decoder on every byte string: each error and each message, by the bytes alone. */
  lemma {:induction false} FrameOutcome(b: seq<byte>)
    ensures ParseFrame(b) == FrameFail(Truncated) <==> |b| < 24 || (GoodHeader(b) && |b| < 24 + Word(b, 16))
    ensures ParseFrame(b) == FrameFail(BadMagic) <==> |b| >= 24 && b[..4] != MAGIC_BYTES
    ensures ParseFrame(b) == FrameFail(BadVersion) <==>
      |b| >= 24 && b[..4] == MAGIC_BYTES && b[4..8] != VERSION_BYTES
    ensures ParseFrame(b) == FrameFail(BadLength) <==>
      |b| >= 24 && b[..4] == MAGIC_BYTES && b[4..8] == VERSION_BYTES && Word(b, 16) > 65_536
    ensures ParseFrame(b) == FrameFail(TrailingGarbage) <==> GoodHeader(b) && |b| > 24 + Word(b, 16)
    ensures ParseFrame(b) == FrameFail(ChecksumMismatch) <==> Whole(b) && !Intact(b)
    ensures ParseFrame(b) == FrameFail(MalformedBody) <==>
      Whole(b) && Intact(b) && !(GoodBody(BodyOf(b)) && Word(b, 20) == Word(b, 8))
    ensures ParseFrame(b).FrameOk? <==> Whole(b) && Intact(b) && GoodBody(BodyOf(b)) && Word(b, 20) == Word(b, 8)
    ensures ParseFrame(b).FrameOk? ==> ShownBy(b, ParseFrame(b).message)
  {
    HeaderOutcome(b);
    if Whole(b) {
      WholeOutcome(b);
      BodyOutcome(BodyOf(b));
      ShownType(b);
    }
    hide ParseFrame, ParseBody, Intact, GoodBody, Word, MAGIC_BYTES, VERSION_BYTES, ShownBy, BodyOf;
  }

  /** The frame carries the message: the sequence number from the header, everything else from the body. */
  predicate ShownBy(b: seq<byte>, m: Message) {
    |b| >= 269 && m.seqNo == Word(b, 12) && Shows(BodyOf(b), m.(seqNo := Word(b, 24)))
  }

  /** The type and the sequence number inside a body, as offsets of the frame. */
  lemma {:induction false} ShownType(b: seq<byte>)
    requires |b| >= 24
    ensures var p := ParseBody(BodyOf(b));
      && (p.Some? <==> GoodBody(BodyOf(b)))
      && (p.Some? ==> |b| >= 269 && p.value.typ == Word(b, 20) && ShownBy(b, p.value.(seqNo := Word(b, 12))))
  {
    BodyOutcome(BodyOf(b));
    hide ParseBody, Word, Long, Measured, Known, ShowsBoundary, ShowsResource, ShowsOutcome, ShowsTexts;
    if ParseBody(BodyOf(b)).Some? {
      WordInSlice(b, 20, |b| - 4, 0);
      WordInSlice(b, 20, |b| - 4, 4);
      var m := ParseBody(BodyOf(b)).value;
      assert m.(seqNo := Word(b, 12)).(seqNo := Word(b, 24)) == m;
    }
  }

  // ---- the incremental decoder ----

  /** One pop on every buffer: it waits exactly where the one-shot decoder finds too few bytes, gives up exactly on a
      bad header, a bad trailer or a bad body, and otherwise takes the frame in front, whatever its header's type. */
  lemma {:induction false} PopOutcome(b: seq<byte>)
    ensures PopFront(b).NeedMore? <==> |b| < 24 || (GoodHeader(b) && |b| < 24 + Word(b, 16))
    ensures PopFront(b).NeedMore? <==> ParseFrame(b) == FrameFail(Truncated)
    ensures PopFront(b).Corrupt? <==> |b| >= 24 && (!GoodHeader(b) || (|b| >= 24 + Word(b, 16) && !GoodFront(b)))
    ensures PopFront(b).Got? ==>
      GoodHeader(b) && ShownBy(Front(b), PopFront(b).message) && PopFront(b).rest == b[|Front(b)|..]
  {
    HeaderOutcome(b);
    if |b| >= 24 { HeaderBytes(b); }
    if GoodHeader(b) && |b| >= 24 + Word(b, 16) { FrontOutcome(b); }
    hide ParseFrame, WordAt, Sealed, ParseBody, Word, MAGIC_BYTES, VERSION_BYTES, MAGIC, VERSION, Intact, GoodBody;
    hide BodyOf, ShownBy, GoodFront;
  }

  /** The frame in front has a good trailer and a good body. */
  predicate GoodFront(b: seq<byte>)
    requires GoodHeader(b)
  {
    Intact(Front(b)) && GoodBody(BodyOf(Front(b)))
  }

  /** The frame that the header announces, if it is all there. */
  function Front(b: seq<byte>): (f: seq<byte>)
    ensures GoodHeader(b) ==> |f| >= 24
  {
    if |b| >= 24 && 24 + Word(b, 16) <= |b| then b[..24 + Word(b, 16)] else b
  }

  lemma {:induction false} FrontOutcome(b: seq<byte>)
    requires GoodHeader(b) && |b| >= 24 + Word(b, 16)
    ensures PopFront(b).Corrupt? <==> !GoodFront(b)
    ensures PopFront(b).Got? <==> GoodFront(b)
    ensures PopFront(b).Got? ==> ShownBy(Front(b), PopFront(b).message) && PopFront(b).rest == b[|Front(b)|..]
  {
    hide WordAt, Sealed, ParseBody, Word, MAGIC_BYTES, VERSION_BYTES, MAGIC, VERSION, Intact, GoodBody, ShownBy;
    var f := Front(b);
    HeaderBytes(b);
    IntactIsSealed(f);
    assert b[0..|f|] == f;
    WordInSlice(b, 0, |f|, 12);
    ShownType(f);
    assert BodyOf(f) == b[20..|f| - 4];
  }

  /** The decoder object: a fatal decoder stays as it is, a waiting one keeps its buffer, a corrupt buffer is dropped
      and the decoder is fatal from then on, and a frame is taken off the front. */
  lemma {:induction false} DecoderOutcome(d: Decoder)
    ensures d.fatal ==> PopOnce(d) == (d, None)
    ensures !d.fatal && PopFront(d.buffer).NeedMore? ==> PopOnce(d) == (d, None)
    ensures !d.fatal && PopFront(d.buffer).Corrupt? ==> PopOnce(d) == (Decoder([], true), None)
    ensures !d.fatal && PopFront(d.buffer).Got? ==>
      PopOnce(d) == (Decoder(d.buffer[|Front(d.buffer)|..], false), Some(PopFront(d.buffer).message))
  {
    PopOutcome(d.buffer);
    hide PopFront, Word, GoodHeader, Intact, GoodBody, ShownBy;
  }

  // ---- what the encoder writes ----

  /** The frame of every encodable message, byte by byte. */
  lemma {:induction false} FrameShows(m: Message)
    requires FrameBytes(m).Some?
    ensures var f := FrameBytes(m).value;
      && |f| == 269 + |m.detail| + |m.extra| && f[..4] == MAGIC_BYTES && f[4..8] == VERSION_BYTES
      && Word(f, 8) == m.typ && Word(f, 12) == m.seqNo && Word(f, 16) == |f| - 24
      && Shows(BodyOf(f), m) && f[152] == (if m.safePointCaptureRequired then 1 else 0) && Intact(f)
  {
    hide RawHeader, Checksum, BodyBytes, WordAt, Sealed, Seal, Shows, AllSized, BodyFields, Word, MAGIC, VERSION;
    hide MAGIC_BYTES, VERSION_BYTES, Intact;
    var f, p := FrameBytes(m).value, BodyBytes(m);
    BodySize(m);
    BodyShows(m);
    SealedRaw(m.typ, m.seqNo, p);
    IntactIsSealed(f);
    HeaderBytes(f);
    assert BodyOf(f) == p;
    assert f[152] == p[132];
  }

  lemma {:induction false} SealedRaw(typ: u32, seqNo: u32, p: seq<byte>)
    requires |p| < 0x1_0000_0000
    ensures var f := RawFrame(typ, seqNo, p);
      && |f| == 24 + |p| && Sealed(f) && f[20..|f| - 4] == p && WordAt(f, 0) == MAGIC && WordAt(f, 1) == VERSION
      && WordAt(f, 2) == typ && WordAt(f, 3) == seqNo && WordAt(f, 4) == |p|
  {
    hide RawHeader, Checksum, WordAt, Sealed, Seal, MAGIC, VERSION;
    HeaderWords(typ, seqNo, p, []);
    SealIsSealed(RawHeader(typ, seqNo, |p|) + p);
    assert RawFrame(typ, seqNo, p) + [] == RawFrame(typ, seqNo, p);
  }
}
