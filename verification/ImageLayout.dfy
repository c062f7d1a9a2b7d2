/** The durable image of src/persistence/store.cpp, byte by byte: where every field of a state and of its records lies,
    with nothing but offsets and literal values. */
module ImageLayout {
  import opened Words
  import opened Fields
  import opened Offsets
  import opened Crc32
  import opened Division
  import opened Lifecycle
  import opened Adapters
  import opened Domain
  import opened Image
  import opened Store

  // ---- enumerations ----

  const LIFECYCLES: seq<LifecycleState> := [
    Invalid, Requested, ValidatingAuthority, Assessing, Deferred, WaitingForSafePoint, SafePointReached, Quiescing,
    Quiesced, CaptureRequired, CapturingState, StateDurable, ReleasePending, Releasing, ResourcesReleased, Preempted,
    ResumePending, Revalidating, Restoring, ResumeReady, Resuming, Resumed, Cancelled, Aborted, Failed, Superseded]

  const POINT_STATES: seq<SafePointState> := [
    SpUnset, SpDeclared, SpReached, SpValidating, SpValid, SpInvalid, SpSuperseded, SpStale, SpUnknown]

  const RESOURCES: seq<ResourceClass> := [
    NoResource, AcceleratorExecutionSlot, DeviceMemory, PinnedHostMemory, HostMemory, TemporaryBuffers,
    ModelAdapterResidency, TransferReservation, NetworkBandwidth, StorageLease, RuntimeHandle, OtherResource]

  predicate IsLifecycle(s: LifecycleState, n: nat) {
    n < |LIFECYCLES| && s == LIFECYCLES[n]
  }

  predicate IsPointState(s: SafePointState, n: nat) {
    n < |POINT_STATES| && s == POINT_STATES[n]
  }

  predicate IsResource(c: ResourceClass, n: nat) {
    n < |RESOURCES| && c == RESOURCES[n]
  }

  lemma LifecycleNumber(n: nat)
    requires n <= 25
    ensures IsLifecycle(FromCode(n), n)
  {
    if n <= 8 { EarlyLifecycle(n); } else if n <= 17 { MiddleLifecycle(n); } else { LateLifecycle(n); }
    hide FromCode, LIFECYCLES;
  }

  lemma EarlyLifecycle(n: nat)
    requires n <= 8
    ensures IsLifecycle(FromCode(n), n)
  {
  }

  lemma MiddleLifecycle(n: nat)
    requires 9 <= n <= 17
    ensures IsLifecycle(FromCode(n), n)
  {
  }

  lemma LateLifecycle(n: nat)
    requires 18 <= n <= 25
    ensures IsLifecycle(FromCode(n), n)
  {
  }

  lemma PointStateNumber(n: nat)
    requires n <= 8
    ensures IsPointState(SafePointStateOf(n), n)
  {
  }

  lemma ResourceNumber(n: nat)
    requires n <= 11
    ensures IsResource(ResourceOf(n), n)
  {
  }

  // ---- a state in the bytes of its payload ----

  predicate ShowsIdentity(p: seq<byte>, s: PersistentState)
    requires |p| >= 192
  {
    && s.formatVersion == Word(p, 0) && s.epoch == Long(p, 4) && s.policy == Long(p, 12)
    && s.scope.workloadId == Long(p, 20) && s.scope.workloadGen == Long(p, 28) && s.scope.executionId == Long(p, 36)
    && s.scope.executionGen == Long(p, 44) && s.scope.attemptId == Long(p, 52) && s.scope.attemptGen == Long(p, 60)
    && s.scope.workerId == Long(p, 68) && s.scope.workerBoot == Long(p, 76) && s.fencedBoot == Long(p, 84)
  }

  predicate ShowsBoundary(p: seq<byte>, s: PersistentState)
    requires |p| >= 192
  {
    && IsLifecycle(s.lifecycle, Word(p, 92)) && s.requestId == Long(p, 96) && s.requestGen == Long(p, 104)
    && s.boundary.quiesced == (p[112] != 0) && s.boundary.quiescenceGen == Long(p, 113)
    && s.boundary.stateDurable == (p[121] != 0) && s.boundary.captureGen == Long(p, 122)
    && s.boundary.checkpointRef == Long(p, 130) && s.boundary.checkpointGen == Long(p, 138)
    && s.boundary.resourcesReleased == (p[146] != 0) && s.boundary.releaseGen == Long(p, 147)
    && s.preempted == (p[155] != 0) && s.resumeGen == Long(p, 156) && s.durableProgress == Long(p, 164)
    && s.progressGen == Long(p, 172)
  }

  predicate ShowsPoint(p: seq<byte>, o: nat, q: SafePoint)
    requires o + 70 <= |p|
  {
    && q.id == Long(p, o) && q.generation == Long(p, o + 8) && q.executionId == Long(p, o + 16)
    && q.attemptId == Long(p, o + 24) && q.workerId == Long(p, o + 32) && q.workerBoot == Long(p, o + 40)
    && q.position == Long(p, o + 48) && q.captureRequired == (p[o + 56] != 0)
    && q.checkpointRequired == (p[o + 57] != 0) && IsPointState(q.state, Word(p, o + 58))
    && q.order == Long(p, o + 62)
  }

  predicate ShowsReceipt(p: seq<byte>, o: nat, q: Receipt)
    requires o + 44 <= |p|
  {
    && IsResource(q.resource, Word(p, o)) && q.units == Long(p, o + 4) && q.contractId == Long(p, o + 12)
    && q.contractGen == Long(p, o + 20) && q.releaseGen == Long(p, o + 28) && q.workerBoot == Long(p, o + 36)
  }

  predicate ShowsPast(p: seq<byte>, o: nat, q: PastRequest)
    requires o + 20 <= |p|
  {
    && q.requestId == Long(p, o) && q.generation == Long(p, o + 8) && IsLifecycle(q.finalState, Word(p, o + 16))
  }

  /** The payload holds the state: two runs of fields, then three lists, each after its count, and nothing else. */
  predicate Shows(p: seq<byte>, s: PersistentState) {
    var n, r, h := |s.safePoints|, |s.receipts|, |s.history|;
    && |p| == 192 + 70 * n + 44 * r + 20 * h && ShowsIdentity(p, s) && ShowsBoundary(p, s)
    && Word(p, 180) == n && Word(p, 184 + 70 * n) == r && Word(p, 188 + 70 * n + 44 * r) == h
    && (forall i :: 0 <= i < n ==> ShowsPoint(p, 184 + 70 * i, s.safePoints[i]))
    && (forall i :: 0 <= i < r ==> ShowsReceipt(p, 188 + 70 * n + 44 * i, s.receipts[i]))
    && (forall i :: 0 <= i < h ==> ShowsPast(p, 192 + 70 * n + 44 * r + 20 * i, s.history[i]))
  }

  // ---- field by field ----

  lemma {:induction false} HeadOffsets()
    ensures |HEAD_KINDS| == 12
    ensures
      && Offset(HEAD_KINDS, 0) == 0 && Offset(HEAD_KINDS, 1) == 4 && Offset(HEAD_KINDS, 2) == 12
      && Offset(HEAD_KINDS, 3) == 20 && Offset(HEAD_KINDS, 4) == 28 && Offset(HEAD_KINDS, 5) == 36
      && Offset(HEAD_KINDS, 6) == 44 && Offset(HEAD_KINDS, 7) == 52 && Offset(HEAD_KINDS, 8) == 60
      && Offset(HEAD_KINDS, 9) == 68 && Offset(HEAD_KINDS, 10) == 76 && Offset(HEAD_KINDS, 11) == 84
  {
    hide Offset;
    OffsetZero(HEAD_KINDS);
    OffsetStep(HEAD_KINDS, 0); OffsetStep(HEAD_KINDS, 1); OffsetStep(HEAD_KINDS, 2); OffsetStep(HEAD_KINDS, 3);
    OffsetStep(HEAD_KINDS, 4); OffsetStep(HEAD_KINDS, 5); OffsetStep(HEAD_KINDS, 6); OffsetStep(HEAD_KINDS, 7);
    OffsetStep(HEAD_KINDS, 8); OffsetStep(HEAD_KINDS, 9); OffsetStep(HEAD_KINDS, 10); OffsetStep(HEAD_KINDS, 11);
  }

  lemma HeadNoText()
    ensures |HEAD_KINDS| == 12 && forall i :: 0 <= i <= 12 ==> KText !in HEAD_KINDS[..i]
  {
    assert forall j :: 0 <= j < 12 ==> HEAD_KINDS[j] != KText;
  }

  lemma {:induction false} HeadRead(fs: Row)
    requires HasKinds(fs, HEAD_KINDS)
    ensures |fs| == 12 && |PutAll(fs)| >= 92
    ensures
      && fs[0].F32? && fs[0].w == Word(PutAll(fs), 0) && fs[1].F64? && fs[1].q == Long(PutAll(fs), 4) && fs[2].F64?
      && fs[2].q == Long(PutAll(fs), 12) && fs[3].F64? && fs[3].q == Long(PutAll(fs), 20) && fs[4].F64?
      && fs[4].q == Long(PutAll(fs), 28) && fs[5].F64? && fs[5].q == Long(PutAll(fs), 36) && fs[6].F64?
      && fs[6].q == Long(PutAll(fs), 44) && fs[7].F64? && fs[7].q == Long(PutAll(fs), 52) && fs[8].F64?
      && fs[8].q == Long(PutAll(fs), 60) && fs[9].F64? && fs[9].q == Long(PutAll(fs), 68) && fs[10].F64?
      && fs[10].q == Long(PutAll(fs), 76) && fs[11].F64? && fs[11].q == Long(PutAll(fs), 84)
  {
    HeadOffsets();
    HeadNoText();
    hide Offset, PutAll, Word, Long;
    WordField(fs, HEAD_KINDS, 0); LongField(fs, HEAD_KINDS, 1); LongField(fs, HEAD_KINDS, 2);
    LongField(fs, HEAD_KINDS, 3); LongField(fs, HEAD_KINDS, 4); LongField(fs, HEAD_KINDS, 5);
    LongField(fs, HEAD_KINDS, 6); LongField(fs, HEAD_KINDS, 7); LongField(fs, HEAD_KINDS, 8);
    LongField(fs, HEAD_KINDS, 9); LongField(fs, HEAD_KINDS, 10); LongField(fs, HEAD_KINDS, 11);
  }

  lemma {:induction false} HeadAt(p: seq<byte>, o: nat, fs: Row)
    requires o + 92 <= |p| && p[o..o + 92] == PutAll(fs) && HasKinds(fs, HEAD_KINDS)
    ensures |fs| == 12
    ensures
      && fs[0].F32? && fs[0].w == Word(p, o + 0) && fs[1].F64? && fs[1].q == Long(p, o + 4)
      && fs[2].F64? && fs[2].q == Long(p, o + 12) && fs[3].F64? && fs[3].q == Long(p, o + 20)
      && fs[4].F64? && fs[4].q == Long(p, o + 28) && fs[5].F64? && fs[5].q == Long(p, o + 36)
      && fs[6].F64? && fs[6].q == Long(p, o + 44) && fs[7].F64? && fs[7].q == Long(p, o + 52)
      && fs[8].F64? && fs[8].q == Long(p, o + 60) && fs[9].F64? && fs[9].q == Long(p, o + 68)
      && fs[10].F64? && fs[10].q == Long(p, o + 76) && fs[11].F64? && fs[11].q == Long(p, o + 84)
  {
    hide PutAll, Word, Long, HEAD_KINDS, HasKinds;
    HeadRead(fs);
    WordInSlice(p, o, o + 92, 0); LongInSlice(p, o, o + 92, 4); LongInSlice(p, o, o + 92, 12);
    LongInSlice(p, o, o + 92, 20); LongInSlice(p, o, o + 92, 28); LongInSlice(p, o, o + 92, 36);
    LongInSlice(p, o, o + 92, 44); LongInSlice(p, o, o + 92, 52); LongInSlice(p, o, o + 92, 60);
    LongInSlice(p, o, o + 92, 68); LongInSlice(p, o, o + 92, 76); LongInSlice(p, o, o + 92, 84);
  }

  lemma {:induction false} MarkOffsets()
    ensures |MARK_KINDS| == 15
    ensures
      && Offset(MARK_KINDS, 0) == 0 && Offset(MARK_KINDS, 1) == 4 && Offset(MARK_KINDS, 2) == 12
      && Offset(MARK_KINDS, 3) == 20 && Offset(MARK_KINDS, 4) == 21 && Offset(MARK_KINDS, 5) == 29
      && Offset(MARK_KINDS, 6) == 30 && Offset(MARK_KINDS, 7) == 38 && Offset(MARK_KINDS, 8) == 46
      && Offset(MARK_KINDS, 9) == 54 && Offset(MARK_KINDS, 10) == 55 && Offset(MARK_KINDS, 11) == 63
      && Offset(MARK_KINDS, 12) == 64 && Offset(MARK_KINDS, 13) == 72 && Offset(MARK_KINDS, 14) == 80
  {
    hide Offset;
    OffsetZero(MARK_KINDS);
    OffsetStep(MARK_KINDS, 0); OffsetStep(MARK_KINDS, 1); OffsetStep(MARK_KINDS, 2); OffsetStep(MARK_KINDS, 3);
    OffsetStep(MARK_KINDS, 4); OffsetStep(MARK_KINDS, 5); OffsetStep(MARK_KINDS, 6); OffsetStep(MARK_KINDS, 7);
    OffsetStep(MARK_KINDS, 8); OffsetStep(MARK_KINDS, 9); OffsetStep(MARK_KINDS, 10); OffsetStep(MARK_KINDS, 11);
    OffsetStep(MARK_KINDS, 12); OffsetStep(MARK_KINDS, 13); OffsetStep(MARK_KINDS, 14);
  }

  lemma MarkNoText()
    ensures |MARK_KINDS| == 15 && forall i :: 0 <= i <= 15 ==> KText !in MARK_KINDS[..i]
  {
    assert forall j :: 0 <= j < 15 ==> MARK_KINDS[j] != KText;
  }

  lemma {:induction false} MarkStart(fs: Row)
    requires HasKinds(fs, MARK_KINDS)
    ensures |fs| == 15 && |PutAll(fs)| >= 38
    ensures
      && fs[0].F32? && fs[0].w == Word(PutAll(fs), 0) && fs[1].F64? && fs[1].q == Long(PutAll(fs), 4) && fs[2].F64?
      && fs[2].q == Long(PutAll(fs), 12) && fs[3].F8? && fs[3].b == PutAll(fs)[20] && fs[4].F64?
      && fs[4].q == Long(PutAll(fs), 21) && fs[5].F8? && fs[5].b == PutAll(fs)[29] && fs[6].F64?
      && fs[6].q == Long(PutAll(fs), 30)
  {
    MarkOffsets();
    MarkNoText();
    hide Offset, PutAll, Word, Long;
    WordField(fs, MARK_KINDS, 0); LongField(fs, MARK_KINDS, 1); LongField(fs, MARK_KINDS, 2);
    ByteField(fs, MARK_KINDS, 3); LongField(fs, MARK_KINDS, 4); ByteField(fs, MARK_KINDS, 5);
    LongField(fs, MARK_KINDS, 6);
  }

  lemma {:induction false} MarkEnd(fs: Row)
    requires HasKinds(fs, MARK_KINDS)
    ensures |fs| == 15 && |PutAll(fs)| >= 88
    ensures
      && fs[7].F64? && fs[7].q == Long(PutAll(fs), 38) && fs[8].F64? && fs[8].q == Long(PutAll(fs), 46) && fs[9].F8?
      && fs[9].b == PutAll(fs)[54] && fs[10].F64? && fs[10].q == Long(PutAll(fs), 55) && fs[11].F8?
      && fs[11].b == PutAll(fs)[63] && fs[12].F64? && fs[12].q == Long(PutAll(fs), 64) && fs[13].F64?
      && fs[13].q == Long(PutAll(fs), 72) && fs[14].F64? && fs[14].q == Long(PutAll(fs), 80)
  {
    MarkOffsets();
    MarkNoText();
    hide Offset, PutAll, Word, Long;
    LongField(fs, MARK_KINDS, 7); LongField(fs, MARK_KINDS, 8); ByteField(fs, MARK_KINDS, 9);
    LongField(fs, MARK_KINDS, 10);
    ByteField(fs, MARK_KINDS, 11); LongField(fs, MARK_KINDS, 12); LongField(fs, MARK_KINDS, 13);
    LongField(fs, MARK_KINDS, 14);
  }

  lemma {:induction false} MarkRead(fs: Row)
    requires HasKinds(fs, MARK_KINDS)
    ensures |fs| == 15 && |PutAll(fs)| >= 88
    ensures
      && fs[0].F32? && fs[0].w == Word(PutAll(fs), 0) && fs[1].F64? && fs[1].q == Long(PutAll(fs), 4) && fs[2].F64?
      && fs[2].q == Long(PutAll(fs), 12) && fs[3].F8? && fs[3].b == PutAll(fs)[20] && fs[4].F64?
      && fs[4].q == Long(PutAll(fs), 21) && fs[5].F8? && fs[5].b == PutAll(fs)[29] && fs[6].F64?
      && fs[6].q == Long(PutAll(fs), 30) && fs[7].F64? && fs[7].q == Long(PutAll(fs), 38) && fs[8].F64?
      && fs[8].q == Long(PutAll(fs), 46) && fs[9].F8? && fs[9].b == PutAll(fs)[54] && fs[10].F64?
      && fs[10].q == Long(PutAll(fs), 55) && fs[11].F8? && fs[11].b == PutAll(fs)[63] && fs[12].F64?
      && fs[12].q == Long(PutAll(fs), 64) && fs[13].F64? && fs[13].q == Long(PutAll(fs), 72) && fs[14].F64?
      && fs[14].q == Long(PutAll(fs), 80)
  {
    hide PutAll, Word, Long, MARK_KINDS, HasKinds;
    MarkStart(fs);
    MarkEnd(fs);
  }

  lemma {:induction false} MarkAt(p: seq<byte>, o: nat, fs: Row)
    requires o + 88 <= |p| && p[o..o + 88] == PutAll(fs) && HasKinds(fs, MARK_KINDS)
    ensures |fs| == 15
    ensures
      && fs[0].F32? && fs[0].w == Word(p, o + 0) && fs[1].F64? && fs[1].q == Long(p, o + 4)
      && fs[2].F64? && fs[2].q == Long(p, o + 12) && fs[3].F8? && fs[3].b == p[o + 20]
      && fs[4].F64? && fs[4].q == Long(p, o + 21) && fs[5].F8? && fs[5].b == p[o + 29]
      && fs[6].F64? && fs[6].q == Long(p, o + 30) && fs[7].F64? && fs[7].q == Long(p, o + 38)
      && fs[8].F64? && fs[8].q == Long(p, o + 46) && fs[9].F8? && fs[9].b == p[o + 54]
      && fs[10].F64? && fs[10].q == Long(p, o + 55) && fs[11].F8? && fs[11].b == p[o + 63]
      && fs[12].F64? && fs[12].q == Long(p, o + 64) && fs[13].F64? && fs[13].q == Long(p, o + 72)
      && fs[14].F64? && fs[14].q == Long(p, o + 80)
  {
    hide PutAll, Word, Long, MARK_KINDS, HasKinds;
    MarkRead(fs);
    WordInSlice(p, o, o + 88, 0); LongInSlice(p, o, o + 88, 4); LongInSlice(p, o, o + 88, 12);
    LongInSlice(p, o, o + 88, 21); LongInSlice(p, o, o + 88, 30); LongInSlice(p, o, o + 88, 38);
    LongInSlice(p, o, o + 88, 46); LongInSlice(p, o, o + 88, 55); LongInSlice(p, o, o + 88, 64);
    LongInSlice(p, o, o + 88, 72); LongInSlice(p, o, o + 88, 80);
  }

  lemma {:induction false} PointOffsets()
    ensures |POINT_KINDS| == 11
    ensures
      && Offset(POINT_KINDS, 0) == 0 && Offset(POINT_KINDS, 1) == 8 && Offset(POINT_KINDS, 2) == 16
      && Offset(POINT_KINDS, 3) == 24 && Offset(POINT_KINDS, 4) == 32 && Offset(POINT_KINDS, 5) == 40
      && Offset(POINT_KINDS, 6) == 48 && Offset(POINT_KINDS, 7) == 56 && Offset(POINT_KINDS, 8) == 57
      && Offset(POINT_KINDS, 9) == 58 && Offset(POINT_KINDS, 10) == 62
  {
    hide Offset;
    OffsetZero(POINT_KINDS);
    OffsetStep(POINT_KINDS, 0); OffsetStep(POINT_KINDS, 1); OffsetStep(POINT_KINDS, 2); OffsetStep(POINT_KINDS, 3);
    OffsetStep(POINT_KINDS, 4); OffsetStep(POINT_KINDS, 5); OffsetStep(POINT_KINDS, 6); OffsetStep(POINT_KINDS, 7);
    OffsetStep(POINT_KINDS, 8); OffsetStep(POINT_KINDS, 9); OffsetStep(POINT_KINDS, 10);
  }

  lemma PointNoText()
    ensures |POINT_KINDS| == 11 && forall i :: 0 <= i <= 11 ==> KText !in POINT_KINDS[..i]
  {
    assert forall j :: 0 <= j < 11 ==> POINT_KINDS[j] != KText;
  }

  lemma {:induction false} PointRead(fs: Row)
    requires HasKinds(fs, POINT_KINDS)
    ensures |fs| == 11 && |PutAll(fs)| >= 70
    ensures
      && fs[0].F64? && fs[0].q == Long(PutAll(fs), 0) && fs[1].F64? && fs[1].q == Long(PutAll(fs), 8) && fs[2].F64?
      && fs[2].q == Long(PutAll(fs), 16) && fs[3].F64? && fs[3].q == Long(PutAll(fs), 24) && fs[4].F64?
      && fs[4].q == Long(PutAll(fs), 32) && fs[5].F64? && fs[5].q == Long(PutAll(fs), 40) && fs[6].F64?
      && fs[6].q == Long(PutAll(fs), 48) && fs[7].F8? && fs[7].b == PutAll(fs)[56] && fs[8].F8?
      && fs[8].b == PutAll(fs)[57] && fs[9].F32? && fs[9].w == Word(PutAll(fs), 58) && fs[10].F64?
      && fs[10].q == Long(PutAll(fs), 62)
  {
    PointOffsets();
    PointNoText();
    hide Offset, PutAll, Word, Long;
    LongField(fs, POINT_KINDS, 0); LongField(fs, POINT_KINDS, 1); LongField(fs, POINT_KINDS, 2);
    LongField(fs, POINT_KINDS, 3); LongField(fs, POINT_KINDS, 4); LongField(fs, POINT_KINDS, 5);
    LongField(fs, POINT_KINDS, 6); ByteField(fs, POINT_KINDS, 7); ByteField(fs, POINT_KINDS, 8);
    WordField(fs, POINT_KINDS, 9); LongField(fs, POINT_KINDS, 10);
  }

  lemma {:induction false} PointAt(p: seq<byte>, o: nat, fs: Row)
    requires o + 70 <= |p| && p[o..o + 70] == PutAll(fs) && HasKinds(fs, POINT_KINDS)
    ensures |fs| == 11
    ensures
      && fs[0].F64? && fs[0].q == Long(p, o + 0) && fs[1].F64? && fs[1].q == Long(p, o + 8)
      && fs[2].F64? && fs[2].q == Long(p, o + 16) && fs[3].F64? && fs[3].q == Long(p, o + 24)
      && fs[4].F64? && fs[4].q == Long(p, o + 32) && fs[5].F64? && fs[5].q == Long(p, o + 40)
      && fs[6].F64? && fs[6].q == Long(p, o + 48) && fs[7].F8? && fs[7].b == p[o + 56]
      && fs[8].F8? && fs[8].b == p[o + 57] && fs[9].F32? && fs[9].w == Word(p, o + 58)
      && fs[10].F64? && fs[10].q == Long(p, o + 62)
  {
    hide PutAll, Word, Long, POINT_KINDS, HasKinds;
    PointRead(fs);
    LongInSlice(p, o, o + 70, 0); LongInSlice(p, o, o + 70, 8); LongInSlice(p, o, o + 70, 16);
    LongInSlice(p, o, o + 70, 24); LongInSlice(p, o, o + 70, 32); LongInSlice(p, o, o + 70, 40);
    LongInSlice(p, o, o + 70, 48); WordInSlice(p, o, o + 70, 58); LongInSlice(p, o, o + 70, 62);
  }

  lemma {:induction false} ReceiptOffsets()
    ensures |RECEIPT_KINDS| == 6
    ensures
      && Offset(RECEIPT_KINDS, 0) == 0 && Offset(RECEIPT_KINDS, 1) == 4 && Offset(RECEIPT_KINDS, 2) == 12
      && Offset(RECEIPT_KINDS, 3) == 20 && Offset(RECEIPT_KINDS, 4) == 28 && Offset(RECEIPT_KINDS, 5) == 36
  {
    hide Offset;
    OffsetZero(RECEIPT_KINDS);
    OffsetStep(RECEIPT_KINDS, 0); OffsetStep(RECEIPT_KINDS, 1); OffsetStep(RECEIPT_KINDS, 2);
    OffsetStep(RECEIPT_KINDS, 3); OffsetStep(RECEIPT_KINDS, 4); OffsetStep(RECEIPT_KINDS, 5);
  }

  lemma ReceiptNoText()
    ensures |RECEIPT_KINDS| == 6 && forall i :: 0 <= i <= 6 ==> KText !in RECEIPT_KINDS[..i]
  {
    assert forall j :: 0 <= j < 6 ==> RECEIPT_KINDS[j] != KText;
  }

  lemma {:induction false} ReceiptRead(fs: Row)
    requires HasKinds(fs, RECEIPT_KINDS)
    ensures |fs| == 6 && |PutAll(fs)| >= 44
    ensures
      && fs[0].F32? && fs[0].w == Word(PutAll(fs), 0) && fs[1].F64? && fs[1].q == Long(PutAll(fs), 4) && fs[2].F64?
      && fs[2].q == Long(PutAll(fs), 12) && fs[3].F64? && fs[3].q == Long(PutAll(fs), 20) && fs[4].F64?
      && fs[4].q == Long(PutAll(fs), 28) && fs[5].F64? && fs[5].q == Long(PutAll(fs), 36)
  {
    ReceiptOffsets();
    ReceiptNoText();
    hide Offset, PutAll, Word, Long;
    WordField(fs, RECEIPT_KINDS, 0); LongField(fs, RECEIPT_KINDS, 1); LongField(fs, RECEIPT_KINDS, 2);
    LongField(fs, RECEIPT_KINDS, 3); LongField(fs, RECEIPT_KINDS, 4); LongField(fs, RECEIPT_KINDS, 5);
  }

  lemma {:induction false} ReceiptAt(p: seq<byte>, o: nat, fs: Row)
    requires o + 44 <= |p| && p[o..o + 44] == PutAll(fs) && HasKinds(fs, RECEIPT_KINDS)
    ensures |fs| == 6
    ensures
      && fs[0].F32? && fs[0].w == Word(p, o + 0) && fs[1].F64? && fs[1].q == Long(p, o + 4)
      && fs[2].F64? && fs[2].q == Long(p, o + 12) && fs[3].F64? && fs[3].q == Long(p, o + 20)
      && fs[4].F64? && fs[4].q == Long(p, o + 28) && fs[5].F64? && fs[5].q == Long(p, o + 36)
  {
    hide PutAll, Word, Long, RECEIPT_KINDS, HasKinds;
    ReceiptRead(fs);
    WordInSlice(p, o, o + 44, 0); LongInSlice(p, o, o + 44, 4); LongInSlice(p, o, o + 44, 12);
    LongInSlice(p, o, o + 44, 20); LongInSlice(p, o, o + 44, 28); LongInSlice(p, o, o + 44, 36);
  }

  lemma {:induction false} PastOffsets()
    ensures |PAST_KINDS| == 3
    ensures
      && Offset(PAST_KINDS, 0) == 0 && Offset(PAST_KINDS, 1) == 8 && Offset(PAST_KINDS, 2) == 16
  {
    hide Offset;
    OffsetZero(PAST_KINDS);
    OffsetStep(PAST_KINDS, 0); OffsetStep(PAST_KINDS, 1); OffsetStep(PAST_KINDS, 2);
  }

  lemma PastNoText()
    ensures |PAST_KINDS| == 3 && forall i :: 0 <= i <= 3 ==> KText !in PAST_KINDS[..i]
  {
    assert forall j :: 0 <= j < 3 ==> PAST_KINDS[j] != KText;
  }

  lemma {:induction false} PastRead(fs: Row)
    requires HasKinds(fs, PAST_KINDS)
    ensures |fs| == 3 && |PutAll(fs)| >= 20
    ensures
      && fs[0].F64? && fs[0].q == Long(PutAll(fs), 0) && fs[1].F64? && fs[1].q == Long(PutAll(fs), 8) && fs[2].F32?
      && fs[2].w == Word(PutAll(fs), 16)
  {
    PastOffsets();
    PastNoText();
    hide Offset, PutAll, Word, Long;
    LongField(fs, PAST_KINDS, 0); LongField(fs, PAST_KINDS, 1); WordField(fs, PAST_KINDS, 2);
  }

  lemma {:induction false} PastAt(p: seq<byte>, o: nat, fs: Row)
    requires o + 20 <= |p| && p[o..o + 20] == PutAll(fs) && HasKinds(fs, PAST_KINDS)
    ensures |fs| == 3
    ensures
      && fs[0].F64? && fs[0].q == Long(p, o + 0) && fs[1].F64? && fs[1].q == Long(p, o + 8)
      && fs[2].F32? && fs[2].w == Word(p, o + 16)
  {
    hide PutAll, Word, Long, PAST_KINDS, HasKinds;
    PastRead(fs);
    LongInSlice(p, o, o + 20, 0); LongInSlice(p, o, o + 20, 8); WordInSlice(p, o, o + 20, 16);
  }

  // ---- records at offsets ----

  lemma {:induction false} RowAt(kinds: seq<Kind>, w: nat, rows: seq<Row>, i: nat)
    requires KText !in kinds && TotalWidth(kinds) == w && i < |rows|
    requires forall j :: 0 <= j < |rows| ==> HasKinds(rows[j], kinds)
    ensures w * i + w <= |RowsBytes(rows)| && RowsBytes(rows)[w * i..w * i + w] == PutAll(rows[i])
    decreases |rows|
  {
    hide PutAll, HasKinds, TotalWidth;
    FixedSize(rows[0], kinds);
    var head, tail := PutAll(rows[0]), RowsBytes(rows[1..]);
    if i > 0 {
      RowAt(kinds, w, rows[1..], i - 1);
      OneMore(w, i - 1);
      assert (head + tail)[w + w * (i - 1)..w + w * (i - 1) + w] == tail[w * (i - 1)..w * (i - 1) + w];
    } else {
      assert (head + tail)[..w] == head;
    }
  }

  lemma {:induction false} CountAt(p: seq<byte>, o: nat, n: u32)
    requires o + 4 <= |p| && p[o..o + 4] == LE(n, 4)
    ensures Word(p, o) == n
  {
    hide LE, UnLE, Word;
    Widths();
    WordIsUnLE(p, o);
    UnLEOfLE(n, 4);
  }

  /** The parts of a payload. */
  lemma {:induction false} PayloadParts(r: Raw)
    requires Shaped(r)
    ensures var p, n, c, h := PayloadBytes(r), |r.points|, |r.receipts|, |r.past|;
      && |p| == 192 + 70 * n + 44 * c + 20 * h
      && p[0..92] == PutAll(r.head) && p[92..180] == PutAll(r.mark) && p[180..184] == LE(n, 4)
      && p[184..184 + 70 * n] == RowsBytes(r.points) && p[184 + 70 * n..188 + 70 * n] == LE(c, 4)
      && p[188 + 70 * n..188 + 70 * n + 44 * c] == RowsBytes(r.receipts)
      && p[188 + 70 * n + 44 * c..192 + 70 * n + 44 * c] == LE(h, 4)
      && p[192 + 70 * n + 44 * c..] == RowsBytes(r.past)
  {
    hide PutAll, RowsBytes, LE, Shaped;
    PartSizes(r);
    EightParts(PutAll(r.head), PutAll(r.mark), LE(|r.points|, 4), RowsBytes(r.points), LE(|r.receipts|, 4),
               RowsBytes(r.receipts), LE(|r.past|, 4), RowsBytes(r.past));
  }

  lemma {:induction false} PartSizes(r: Raw)
    requires Shaped(r)
    ensures |PutAll(r.head)| == 92 && |PutAll(r.mark)| == 88 && |RowsBytes(r.points)| == 70 * |r.points|
    ensures |RowsBytes(r.receipts)| == 44 * |r.receipts| && |RowsBytes(r.past)| == 20 * |r.past|
  {
    TablesValid();
    NoText();
    TableWidths();
    hide TotalWidth, PutAll, RowsBytes, HasKinds;
    FixedSize(r.head, HEAD_KINDS);
    FixedSize(r.mark, MARK_KINDS);
    RowsSize(POINTS, r.points);
    RowsSize(RECEIPTS, r.receipts);
    RowsSize(PAST, r.past);
  }

  lemma {:induction false} Peel(p: seq<byte>, o: nat, x: seq<byte>, rest: seq<byte>)
    requires o <= |p| && p[o..] == x + rest
    ensures o + |x| <= |p| && p[o..o + |x|] == x && p[o + |x|..] == rest
  {
    assert p[o..o + |x|] == p[o..][..|x|] && p[o + |x|..] == p[o..][|x|..];
  }

  lemma {:induction false} EightParts(
    a: seq<byte>, b: seq<byte>, c: seq<byte>, d: seq<byte>, e: seq<byte>, f: seq<byte>, g: seq<byte>, h: seq<byte>)
    requires |a| == 92 && |b| == 88 && |c| == |e| == |g| == 4
    ensures var p := a + (b + ((c + d) + ((e + f) + (g + h))));
      && |p| == 192 + |d| + |f| + |h|
      && p[0..92] == a && p[92..180] == b && p[180..184] == c && p[184..184 + |d|] == d
      && p[184 + |d|..188 + |d|] == e && p[188 + |d|..188 + |d| + |f|] == f
      && p[188 + |d| + |f|..192 + |d| + |f|] == g && p[192 + |d| + |f|..] == h
  {
    var x6 := g + h;
    var x4 := (e + f) + x6;
    var x2 := (c + d) + x4;
    var p := a + (b + x2);
    assert p[0..] == p;
    Peel(p, 0, a, b + x2);
    Peel(p, 92, b, x2);
    assert x6 == (g + h) + [];
    CountedPart(p, 180, c, d, x4);
    CountedPart(p, 184 + |d|, e, f, x6);
    CountedPart(p, 188 + |d| + |f|, g, h, []);
  }

  lemma {:induction false} CountedPart(p: seq<byte>, o: nat, count: seq<byte>, rows: seq<byte>, rest: seq<byte>)
    requires o <= |p| && |count| == 4 && p[o..] == (count + rows) + rest
    ensures o + 4 + |rows| <= |p| && p[o..o + 4] == count && p[o + 4..o + 4 + |rows|] == rows
    ensures p[o + 4 + |rows|..] == rest
    ensures rest == [] ==> p[o + 4..] == rows
  {
    Regroup(count, rows, rest);
    Peel(p, o, count, rows + rest);
    Peel(p, o + 4, rows, rest);
  }

  lemma {:induction false} Regroup(x: seq<byte>, y: seq<byte>, z: seq<byte>)
    ensures (x + y) + z == x + (y + z)
  {
  }

  // ---- a raw payload shows its state ----

  lemma {:induction false} HeadSlice(r: Raw)
    requires Shaped(r)
    ensures var p := PayloadBytes(r); |p| >= 192 && p[0..92] == PutAll(r.head) && p[92..180] == PutAll(r.mark)
  {
    hide PayloadBytes, PutAll, RowsBytes, LE, Shaped;
    PayloadParts(r);
  }

  lemma {:induction false} PointSlice(r: Raw)
    requires Shaped(r)
    ensures var p, s := PayloadBytes(r), RowsBytes(r.points); 184 + |s| <= |p| && p[184..184 + |s|] == s
  {
    hide PayloadBytes, PutAll, RowsBytes, LE, Shaped;
    PartSizes(r);
    PayloadParts(r);
  }

  lemma {:induction false} ReceiptSlice(r: Raw)
    requires Shaped(r)
    ensures var p, s, o := PayloadBytes(r), RowsBytes(r.receipts), 188 + 70 * |r.points|;
      o + |s| <= |p| && p[o..o + |s|] == s
  {
    hide PayloadBytes, PutAll, RowsBytes, LE, Shaped;
    PartSizes(r);
    PayloadParts(r);
  }

  lemma {:induction false} PastSlice(r: Raw)
    requires Shaped(r)
    ensures var p, s, o := PayloadBytes(r), RowsBytes(r.past), 192 + 70 * |r.points| + 44 * |r.receipts|;
      o + |s| <= |p| && p[o..o + |s|] == s
  {
    hide PayloadBytes, PutAll, RowsBytes, LE, Shaped;
    PartSizes(r);
    PayloadParts(r);
    var p, s, o := PayloadBytes(r), RowsBytes(r.past), 192 + 70 * |r.points| + 44 * |r.receipts|;
    assert p[o..] == p[o..o + |s|];
  }

  lemma {:induction false} CountSlices(r: Raw)
    requires Shaped(r)
    ensures var p, n, c, h := PayloadBytes(r), |r.points|, |r.receipts|, |r.past|;
      && |p| == 192 + 70 * n + 44 * c + 20 * h
      && p[180..184] == LE(n, 4) && p[184 + 70 * n..188 + 70 * n] == LE(c, 4)
      && p[188 + 70 * n + 44 * c..192 + 70 * n + 44 * c] == LE(h, 4)
  {
    hide PayloadBytes, PutAll, RowsBytes, LE, Shaped;
    PayloadParts(r);
  }

  lemma {:induction false} IdentityShown(r: Raw)
    requires Shaped(r)
    ensures |PayloadBytes(r)| >= 192 && ShowsIdentity(PayloadBytes(r), StateOf(r))
  {
    hide PayloadBytes, Word, Long, PutAll, RowsBytes, LE, PointOf, ReceiptOf, PastOf, FromCode;
    HeadSlice(r);
    HeadAt(PayloadBytes(r), 0, r.head);
  }

  lemma {:induction false} BoundaryShown(r: Raw)
    requires Shaped(r)
    ensures |PayloadBytes(r)| >= 192 && ShowsBoundary(PayloadBytes(r), StateOf(r))
  {
    hide PayloadBytes, Word, Long, PutAll, RowsBytes, LE, PointOf, ReceiptOf, PastOf, FromCode, IsLifecycle;
    HeadSlice(r);
    MarkAt(PayloadBytes(r), 92, r.mark);
    LifecycleNumber(r.mark[0].w);
  }

  lemma {:induction false} PointRowShown(p: seq<byte>, o: nat, row: Row)
    requires o + 70 <= |p| && p[o..o + 70] == PutAll(row) && POINTS.Holds(row)
    ensures ShowsPoint(p, o, PointOf(row))
  {
    PointAt(p, o, row);
    PointStateNumber(row[9].w);
    hide PutAll, Word, Long, SafePointStateOf, IsPointState;
  }

  lemma {:induction false} ReceiptRowShown(p: seq<byte>, o: nat, row: Row)
    requires o + 44 <= |p| && p[o..o + 44] == PutAll(row) && RECEIPTS.Holds(row)
    ensures ShowsReceipt(p, o, ReceiptOf(row))
  {
    ReceiptAt(p, o, row);
    ResourceNumber(row[0].w);
    hide PutAll, Word, Long, ResourceOf, IsResource;
  }

  lemma {:induction false} PastRowShown(p: seq<byte>, o: nat, row: Row)
    requires o + 20 <= |p| && p[o..o + 20] == PutAll(row) && PAST.Holds(row)
    ensures ShowsPast(p, o, PastOf(row))
  {
    PastAt(p, o, row);
    LifecycleNumber(row[2].w);
    hide PutAll, Word, Long, FromCode, IsLifecycle;
  }

  /** Where record i of a list of n lies. */
  lemma {:induction false} RecordBytes(p: seq<byte>, o: nat, kinds: seq<Kind>, w: nat, rows: seq<Row>, i: nat)
    requires KText !in kinds && TotalWidth(kinds) == w && i < |rows|
    requires forall j :: 0 <= j < |rows| ==> HasKinds(rows[j], kinds)
    requires o + |RowsBytes(rows)| <= |p| && p[o..o + |RowsBytes(rows)|] == RowsBytes(rows)
    ensures w * i + w <= |RowsBytes(rows)| && p[o + w * i..o + w * i + w] == PutAll(rows[i])
  {
    hide HasKinds, TotalWidth, PutAll, RowsBytes;
    RowAt(kinds, w, rows, i);
    SubSlice(p, o, |RowsBytes(rows)|, w * i, w);
  }

  lemma {:induction false} SubSlice(p: seq<byte>, o: nat, n: nat, a: nat, m: nat)
    requires o + n <= |p| && a + m <= n
    ensures p[o..o + n][a..a + m] == p[o + a..o + a + m]
  {
    var x, y := p[o..o + n][a..a + m], p[o + a..o + a + m];
    assert |x| == |y| && forall k :: 0 <= k < m ==> x[k] == y[k];
  }

  lemma {:induction false} PointsShown(r: Raw, i: nat)
    requires Shaped(r) && i < |r.points|
    ensures 184 + 70 * i + 70 <= |PayloadBytes(r)|
    ensures ShowsPoint(PayloadBytes(r), 184 + 70 * i, PointOf(r.points[i]))
  {
    hide PayloadBytes, PutAll, RowsBytes, LE, TotalWidth, HasKinds, ShowsPoint, PointOf;
    TablesValid();
    TableWidths();
    PointSlice(r);
    RecordBytes(PayloadBytes(r), 184, POINT_KINDS, 70, r.points, i);
    PointRowShown(PayloadBytes(r), 184 + 70 * i, r.points[i]);
  }

  lemma {:induction false} ReceiptsShown(r: Raw, i: nat)
    requires Shaped(r) && i < |r.receipts|
    ensures var o := 188 + 70 * |r.points| + 44 * i;
      o + 44 <= |PayloadBytes(r)| && ShowsReceipt(PayloadBytes(r), o, ReceiptOf(r.receipts[i]))
  {
    hide PayloadBytes, PutAll, RowsBytes, LE, TotalWidth, HasKinds, ShowsReceipt, ReceiptOf;
    TablesValid();
    TableWidths();
    ReceiptSlice(r);
    var o := 188 + 70 * |r.points|;
    RecordBytes(PayloadBytes(r), o, RECEIPT_KINDS, 44, r.receipts, i);
    ReceiptRowShown(PayloadBytes(r), o + 44 * i, r.receipts[i]);
  }

  lemma {:induction false} PastShown(r: Raw, i: nat)
    requires Shaped(r) && i < |r.past|
    ensures var o := 192 + 70 * |r.points| + 44 * |r.receipts| + 20 * i;
      o + 20 <= |PayloadBytes(r)| && ShowsPast(PayloadBytes(r), o, PastOf(r.past[i]))
  {
    hide PayloadBytes, PutAll, RowsBytes, LE, TotalWidth, HasKinds, ShowsPast, PastOf;
    TablesValid();
    TableWidths();
    PastSlice(r);
    var o := 192 + 70 * |r.points| + 44 * |r.receipts|;
    RecordBytes(PayloadBytes(r), o, PAST_KINDS, 20, r.past, i);
    PastRowShown(PayloadBytes(r), o + 20 * i, r.past[i]);
  }

  lemma {:induction false} CountsShown(r: Raw)
    requires Shaped(r)
    ensures var p, n, c := PayloadBytes(r), |r.points|, |r.receipts|;
      && |p| == 192 + 70 * n + 44 * c + 20 * |r.past|
      && Word(p, 180) == n && Word(p, 184 + 70 * n) == c && Word(p, 188 + 70 * n + 44 * c) == |r.past|
  {
    hide PayloadBytes, PutAll, RowsBytes, LE, Word, HasKinds, Table.Holds;
    CountSlices(r);
    var p, n, c := PayloadBytes(r), |r.points|, |r.receipts|;
    CountAt(p, 180, n);
    CountAt(p, 184 + 70 * n, c);
    CountAt(p, 188 + 70 * n + 44 * c, |r.past|);
  }

  /** Every raw payload shows the state it stands for. */
  lemma {:induction false} RawShows(r: Raw)
    requires Shaped(r)
    ensures Shows(PayloadBytes(r), StateOf(r))
  {
    hide PayloadBytes, StateOf, Shaped, PointOf, ReceiptOf, PastOf, Word, Table.Holds;
    hide ShowsIdentity, ShowsBoundary, ShowsPoint, ShowsReceipt, ShowsPast;
    var p, s := PayloadBytes(r), StateOf(r);
    StateLists(r);
    IdentityShown(r);
    BoundaryShown(r);
    CountsShown(r);
    forall i | 0 <= i < |s.safePoints| ensures ShowsPoint(p, 184 + 70 * i, s.safePoints[i]) { PointsShown(r, i); }
    forall i | 0 <= i < |s.receipts|
      ensures ShowsReceipt(p, 188 + 70 * |s.safePoints| + 44 * i, s.receipts[i]) { ReceiptsShown(r, i); }
    forall i | 0 <= i < |s.history|
      ensures ShowsPast(p, 192 + 70 * |s.safePoints| + 44 * |s.receipts| + 20 * i, s.history[i]) { PastShown(r, i); }
  }

  lemma {:induction false} StateLists(r: Raw)
    requires Shaped(r)
    ensures var s := StateOf(r);
      && |s.safePoints| == |r.points| && |s.receipts| == |r.receipts| && |s.history| == |r.past|
      && (forall i :: 0 <= i < |r.points| ==> POINTS.Holds(r.points[i]) && s.safePoints[i] == PointOf(r.points[i]))
      && (forall i :: 0 <= i < |r.receipts| ==>
            RECEIPTS.Holds(r.receipts[i]) && s.receipts[i] == ReceiptOf(r.receipts[i]))
      && (forall i :: 0 <= i < |r.past| ==> PAST.Holds(r.past[i]) && s.history[i] == PastOf(r.past[i]))
  {
    hide PointOf, ReceiptOf, PastOf, Table.Holds;
  }

  // ---- and only its state ----

  lemma {:induction false} SameLifecycle(s: LifecycleState, t: LifecycleState, n: nat)
    requires IsLifecycle(s, n) && IsLifecycle(t, n)
    ensures s == t
  {
    hide LIFECYCLES;
  }

  lemma {:induction false} SamePoint(p: seq<byte>, o: nat, q: SafePoint, q': SafePoint)
    requires o + 70 <= |p| && ShowsPoint(p, o, q) && ShowsPoint(p, o, q')
    ensures q == q'
  {
    hide Word, Long, POINT_STATES;
  }

  lemma {:induction false} SameReceipt(p: seq<byte>, o: nat, q: Receipt, q': Receipt)
    requires o + 44 <= |p| && ShowsReceipt(p, o, q) && ShowsReceipt(p, o, q')
    ensures q == q'
  {
    hide Word, Long, RESOURCES;
  }

  lemma {:induction false} SamePast(p: seq<byte>, o: nat, q: PastRequest, q': PastRequest)
    requires o + 20 <= |p| && ShowsPast(p, o, q) && ShowsPast(p, o, q')
    ensures q == q'
  {
    hide Word, Long, LIFECYCLES;
  }

  lemma {:induction false} SameFields(p: seq<byte>, s: PersistentState, t: PersistentState)
    requires |p| >= 192 && ShowsIdentity(p, s) && ShowsBoundary(p, s) && ShowsIdentity(p, t) && ShowsBoundary(p, t)
    ensures s.(safePoints := [], receipts := [], history := []) == t.(safePoints := [], receipts := [], history := [])
  {
    hide Word, Long, LIFECYCLES;
  }

  lemma {:induction false} SameShown(p: seq<byte>, s: PersistentState, t: PersistentState)
    requires Shows(p, s) && Shows(p, t)
    ensures s == t
  {
    hide Word, Long, ShowsIdentity, ShowsBoundary, ShowsPoint, ShowsReceipt, ShowsPast;
    SameFields(p, s, t);
    var n, r := |s.safePoints|, |s.receipts|;
    forall i | 0 <= i < n ensures s.safePoints[i] == t.safePoints[i] {
      SamePoint(p, 184 + 70 * i, s.safePoints[i], t.safePoints[i]);
    }
    forall i | 0 <= i < r ensures s.receipts[i] == t.receipts[i] {
      SameReceipt(p, 188 + 70 * n + 44 * i, s.receipts[i], t.receipts[i]);
    }
    forall i | 0 <= i < |s.history| ensures s.history[i] == t.history[i] {
      SamePast(p, 192 + 70 * n + 44 * r + 20 * i, s.history[i], t.history[i]);
    }
    assert s.safePoints == t.safePoints && s.receipts == t.receipts && s.history == t.history;
  }

  // ---- every payload that shows a state parses ----

  lemma {:induction false} FixedSweep(ks: seq<Kind>, s: seq<byte>)
    requires KText !in ks && |s| >= TotalWidth(ks)
    ensures var (fs, c) := Sweep(ks, Cursor(s, true));
      c == Cursor(s[TotalWidth(ks)..], true) && HasKinds(fs, ks) && PutAll(fs) == s[..TotalWidth(ks)]
  {
    hide Sweep, TakeAll, TotalWidth, PutAll, HasKinds;
    FixedTake(ks, s);
    SweepIsTakeAll(ks, Cursor(s, true));
    PutAllOfTakeAll(ks, s);
    var w, fs := TotalWidth(ks), Sweep(ks, Cursor(s, true)).0;
    FixedSize(fs, ks);
    assert (PutAll(fs) + s[w..])[..w] == PutAll(fs);
  }

  /** The enumeration of record i is in range. */
  predicate EnumFits(s: seq<byte>, t: Table, w: nat, e: nat, i: nat)
    requires e + 4 <= w
  {
    w * i + w <= |s| && Word(s, w * i + e) <= t.enumMax
  }

  lemma {:induction false} RowsParse(t: Table, w: nat, e: nat, count: nat, s: seq<byte>)
    requires t.Valid() && TotalWidth(t.kinds) == w && e + 4 <= w && Offset(t.kinds, t.enumAt) == e
    requires w * count <= |s| && forall i :: 0 <= i < count ==> EnumFits(s, t, w, e, i)
    ensures ParseRows(t, count, Cursor(s, true)).Parsed?
    ensures ParseRows(t, count, Cursor(s, true)).at == Cursor(s[w * count..], true)
    decreases count
  {
    hide Sweep, TotalWidth, PutAll, Offset, Word, HasKinds;
    if count == 0 {
      assert s[0..] == s;
    } else {
      OneMore(w, count - 1);
      FirstEnum(t, w, e, s);
      var rest := s[w..];
      forall i | 0 <= i < count - 1 ensures EnumFits(rest, t, w, e, i) {
        assert EnumFits(s, t, w, e, i + 1);
        OneMore(w, i);
        hide ParseRows;
        WordInSlice(s, w, |s|, w * i + e);
        assert s[w..|s|] == rest;
      }
      RowsParse(t, w, e, count - 1, rest);
      assert rest[w * (count - 1)..] == s[w * count..];
    }
  }

  lemma {:induction false} FirstEnum(t: Table, w: nat, e: nat, s: seq<byte>)
    requires t.Valid() && TotalWidth(t.kinds) == w && e + 4 <= w && Offset(t.kinds, t.enumAt) == e
    requires EnumFits(s, t, w, e, 0)
    ensures var (row, c) := Sweep(t.kinds, Cursor(s, true));
      c == Cursor(s[w..], true) && HasKinds(row, t.kinds) && row[t.enumAt].F32? && row[t.enumAt].w <= t.enumMax
  {
    hide Sweep, TotalWidth, PutAll, Offset, Word;
    assert w * 0 == 0;
    FixedSweep(t.kinds, s);
    var row := Sweep(t.kinds, Cursor(s, true)).0;
    WordField(row, t.kinds, t.enumAt);
    WordInSlice(s, 0, w, e);
    assert s[0..w] == s[..w];
  }

  lemma {:induction false} TableParses(t: Table, w: nat, e: nat, s: seq<byte>)
    requires t.Valid() && TotalWidth(t.kinds) == w && e + 4 <= w && Offset(t.kinds, t.enumAt) == e
    requires |s| >= 4 && 4 + w * Word(s, 0) <= |s|
    requires forall i :: 0 <= i < Word(s, 0) ==> EnumFits(s[4..], t, w, e, i)
    ensures Reads(t, s, s[4 + w * Word(s, 0)..])
  {
    hide ParseRows, TotalWidth, Offset, Word, EnumFits, UnLE;
    var n := Word(s, 0);
    WordIsUnLE(s, 0);
    assert s[0..4] == s[..4];
    RowsParse(t, w, e, n, s[4..]);
    assert s[4..][w * n..] == s[4 + w * n..];
  }

  /** Reading a list from the bytes b succeeds and leaves the rest. */
  predicate Reads(t: Table, b: seq<byte>, rest: seq<byte>) {
    t.Valid() && ParseTable(t, Cursor(b, true)).Parsed? && ParseTable(t, Cursor(b, true)).at == Cursor(rest, true)
  }

  lemma {:induction false} PointsParse(p: seq<byte>, s: PersistentState)
    requires Shows(p, s)
    ensures Reads(POINTS, p[180..], p[184 + 70 * |s.safePoints|..])
  {
    TablesValid();
    PointWidth();
    PointOffsets();
    hide Reads, Word, Long, ShowsIdentity, ShowsBoundary, ShowsReceipt, ShowsPast, Offset, TotalWidth, POINT_STATES;
    var n, q := |s.safePoints|, p[180..];
    WordInSlice(p, 180, |p|, 0);
    assert p[180..|p|] == q && q[4..] == p[184..];
    forall i | 0 <= i < n ensures EnumFits(q[4..], POINTS, 70, 58, i) {
      PointStateRange(p, 184 + 70 * i, s.safePoints[i]);
      WordInSlice(p, 184, |p|, 70 * i + 58);
      assert p[184..|p|] == q[4..];
    }
    TableParses(POINTS, 70, 58, q);
    assert q[4 + 70 * n..] == p[184 + 70 * n..];
  }

  lemma {:induction false} PointStateRange(p: seq<byte>, o: nat, q: SafePoint)
    requires o + 70 <= |p| && ShowsPoint(p, o, q)
    ensures Word(p, o + 58) <= 8
  {
    hide Word, Long;
  }

  lemma {:induction false} ReceiptsParse(p: seq<byte>, s: PersistentState)
    requires Shows(p, s)
    ensures var o := 184 + 70 * |s.safePoints|; Reads(RECEIPTS, p[o..], p[o + 4 + 44 * |s.receipts|..])
  {
    TablesValid();
    ReceiptWidth();
    ReceiptOffsets();
    hide Reads, Word, Long, ShowsIdentity, ShowsBoundary, ShowsPoint, ShowsPast, Offset, TotalWidth, RESOURCES;
    var o, n := 184 + 70 * |s.safePoints|, |s.receipts|;
    var q := p[o..];
    WordInSlice(p, o, |p|, 0);
    assert p[o..|p|] == q && q[4..] == p[o + 4..];
    forall i | 0 <= i < n ensures EnumFits(q[4..], RECEIPTS, 44, 0, i) {
      ResourceRange(p, o + 4 + 44 * i, s.receipts[i]);
      WordInSlice(p, o + 4, |p|, 44 * i);
      assert p[o + 4..|p|] == q[4..];
    }
    TableParses(RECEIPTS, 44, 0, q);
    assert q[4 + 44 * n..] == p[o + 4 + 44 * n..];
  }

  lemma {:induction false} ResourceRange(p: seq<byte>, o: nat, q: Receipt)
    requires o + 44 <= |p| && ShowsReceipt(p, o, q)
    ensures Word(p, o) <= 11
  {
    hide Word, Long;
  }

  lemma {:induction false} HistoryParses(p: seq<byte>, s: PersistentState)
    requires Shows(p, s)
    ensures Reads(PAST, p[188 + 70 * |s.safePoints| + 44 * |s.receipts|..], [])
  {
    TablesValid();
    PastWidth();
    PastOffsets();
    hide Reads, Word, Long, ShowsIdentity, ShowsBoundary, ShowsPoint, ShowsReceipt, Offset, TotalWidth, LIFECYCLES;
    var o, n := 188 + 70 * |s.safePoints| + 44 * |s.receipts|, |s.history|;
    var q := p[o..];
    WordInSlice(p, o, |p|, 0);
    assert p[o..|p|] == q && q[4..] == p[o + 4..];
    forall i | 0 <= i < n ensures EnumFits(q[4..], PAST, 20, 16, i) {
      FinalRange(p, o + 4 + 20 * i, s.history[i]);
      WordInSlice(p, o + 4, |p|, 20 * i + 16);
      assert p[o + 4..|p|] == q[4..];
    }
    TableParses(PAST, 20, 16, q);
    assert q[4 + 20 * n..] == [];
  }

  lemma {:induction false} FinalRange(p: seq<byte>, o: nat, q: PastRequest)
    requires o + 20 <= |p| && ShowsPast(p, o, q)
    ensures Word(p, o + 16) <= 25
  {
    hide Word, Long;
  }

  lemma {:induction false} FieldsParse(p: seq<byte>, s: PersistentState)
    requires Shows(p, s)
    ensures var (head, c1) := Sweep(HEAD_KINDS, Cursor(p, true));
      var (mark, c2) := Sweep(MARK_KINDS, c1);
      c2 == Cursor(p[180..], true) && HasKinds(mark, MARK_KINDS) && mark[0].F32? && mark[0].w <= 25
  {
    hide Sweep, TotalWidth, PutAll, Word, Shows, Long, HasKinds, HEAD_KINDS, MARK_KINDS;
    HeadWidth();
    MarkWidth();
    NoText();
    LifecycleRange(p, s);
    FixedSweep(HEAD_KINDS, p);
    var q := p[92..];
    FixedSweep(MARK_KINDS, q);
    assert q[88..] == p[180..];
    MarkNumber(p, Sweep(MARK_KINDS, Cursor(q, true)).0);
  }

  lemma {:induction false} MarkNumber(p: seq<byte>, mark: Row)
    requires |p| >= 180 && HasKinds(mark, MARK_KINDS) && PutAll(mark) == p[92..][..88]
    ensures |mark| > 0 && mark[0].F32? && mark[0].w == Word(p, 92)
  {
    hide PutAll, Word, Long, HasKinds, MARK_KINDS;
    MarkStart(mark);
    assert p[92..][..88] == p[92..180];
    WordInSlice(p, 92, 180, 0);
  }

  lemma {:induction false} LifecycleRange(p: seq<byte>, s: PersistentState)
    requires Shows(p, s)
    ensures |p| >= 192 && Word(p, 92) <= 25
  {
    hide Word, Long, ShowsIdentity, ShowsPoint, ShowsReceipt, ShowsPast;
  }

  lemma {:induction false} PayloadParses(p: seq<byte>, s: PersistentState)
    requires Shows(p, s)
    ensures ParsePayload(p).Parsed?
  {
    hide Shows, Sweep, ParseTable, HasKinds, HEAD_KINDS, MARK_KINDS, POINTS, RECEIPTS, PAST;
    FieldsParse(p, s);
    PointsParse(p, s);
    ReceiptsParse(p, s);
    HistoryParses(p, s);
  }

  // ---- images ----

  const MAGIC_BYTES: seq<byte> := [0x50, 0x46, 0x53, 0x42]
  const VERSION_BYTES: seq<byte> := [1, 0, 0, 0]

  /** What lies between header and trailer. */
  function BodyOf(b: seq<byte>): seq<byte> {
    if |b| >= 16 then b[12..|b| - 4] else []
  }

  predicate GoodHeader(b: seq<byte>) {
    |b| >= 16 && b[..4] == MAGIC_BYTES && b[4..8] == VERSION_BYTES && |b| == 16 + Word(b, 8)
  }

  lemma {:induction false} HeaderBytes(b: seq<byte>)
    requires |b| >= 16
    ensures b[..4] == MAGIC <==> b[..4] == MAGIC_BYTES
    ensures WordFrom(b, 4) == VERSION <==> b[4..8] == VERSION_BYTES
    ensures WordFrom(b, 8) == Word(b, 8)
  {
    assert MAGIC == MAGIC_BYTES && Word(VERSION_BYTES, 0) == VERSION;
    FourAre(b[4..8], VERSION_BYTES);
    WordInSlice(b, 4, 8, 0);
    hide UnLE, Word;
    WordIsUnLE(b, 4);
    WordIsUnLE(b, 8);
  }

  /** The errors that the frame of an image gives, by its bytes alone. */
  lemma {:induction false} ImageErrors(b: seq<byte>)
    ensures Decoded(b) == ImageFail(BadMagic) <==> |b| >= 16 && b[..4] != MAGIC_BYTES
    ensures Decoded(b) == ImageFail(ChecksumMismatch) <==> GoodHeader(b) && !Intact(b)
    ensures |b| < 16 ==> Decoded(b) == ImageFail(Truncated)
    ensures |b| >= 16 && b[..4] == MAGIC_BYTES && b[4..8] != VERSION_BYTES ==> Decoded(b) == ImageFail(BadVersion)
    ensures |b| >= 16 && b[..4] == MAGIC_BYTES && b[4..8] == VERSION_BYTES && |b| != 16 + Word(b, 8) ==>
      Decoded(b) == ImageFail(Truncated)
  {
    hide WordFrom, Sealed, ParsePayload, Verdict, StateOf, Word, Intact, MAGIC, MAGIC_BYTES, VERSION_BYTES, Shaped;
    if |b| >= 16 {
      HeaderBytes(b);
      IntactIsSealed(b);
      PayloadErrors(BodyOf(b));
      StateErrors(b);
    }
  }

  lemma {:induction false} PayloadErrors(p: seq<byte>)
    ensures ParsePayload(p).Rejected? ==>
      ParsePayload(p).error == InvalidEnum || ParsePayload(p).error == Truncated ||
      ParsePayload(p).error == TrailingGarbage
  {
    hide Sweep, ParseTable, HasKinds, HEAD_KINDS, MARK_KINDS, POINTS, RECEIPTS, PAST;
    TablesValid();
    forall t: Table, c: Cursor | t.Valid() && ParseTable(t, c).Rejected?
      ensures ParseTable(t, c).error == InvalidEnum || ParseTable(t, c).error == Truncated
    {
      TableErrors(t, c);
    }
  }

  lemma {:induction false} TableErrors(t: Table, c: Cursor)
    requires t.Valid() && ParseTable(t, c).Rejected?
    ensures ParseTable(t, c).error == InvalidEnum || ParseTable(t, c).error == Truncated
  {
    CountField(c);
    RowErrors(t, Sweep1(K32, c).0.w, Sweep1(K32, c).1);
    hide ParseRows;
  }

  lemma {:induction false} RowErrors(t: Table, count: nat, c: Cursor)
    requires t.Valid()
    ensures ParseRows(t, count, c).Rejected? ==> ParseRows(t, count, c).error == InvalidEnum
    decreases count
  {
    hide Sweep;
    if count > 0 && c.ok { RowErrors(t, count - 1, Sweep(t.kinds, c).1); }
  }

  lemma {:induction false} StateErrors(b: seq<byte>)
    requires |b| >= 16
    ensures ParsePayload(BodyOf(b)).Parsed? ==>
      Shaped(ParsePayload(BodyOf(b)).value) &&
      Verdict(StateOf(ParsePayload(BodyOf(b)).value)) != Some(BadMagic) &&
      Verdict(StateOf(ParsePayload(BodyOf(b)).value)) != Some(ChecksumMismatch)
  {
    hide ParsePayload, StateOf, Shaped;
    if ParsePayload(BodyOf(b)).Parsed? {
      BytesOfParsePayload(BodyOf(b));
      VerdictErrors(StateOf(ParsePayload(BodyOf(b)).value));
    }
  }

  lemma {:induction false} VerdictErrors(s: PersistentState)
    ensures Verdict(s) != Some(BadMagic) && Verdict(s) != Some(ChecksumMismatch)
  {
    ComplaintKinds(s.safePoints, {}, s.receipts);
    hide PointsVerdict, ReceiptsVerdict, OnMainPath, ReleaseReached, ResumeReached;
  }

  /** Exactly which images are accepted, and as what: a good header, an intact trailer, a payload that shows the state,
      and a well-formed state. */
  lemma {:induction false} ImageOutcome(b: seq<byte>, s: PersistentState)
    ensures Decoded(b) == ImageOk(s) <==> GoodHeader(b) && Intact(b) && Shows(BodyOf(b), s) && WellFormed(s)
  {
    hide Shows, WellFormed, Verdict, StateOf, ParsePayload, Sealed, WordFrom, Intact, Word, Shaped, PayloadBytes;
    hide MAGIC, MAGIC_BYTES, VERSION_BYTES;
    if |b| >= 16 {
      HeaderBytes(b);
      IntactIsSealed(b);
      var p := BodyOf(b);
      VerdictMeans(s);
      if Shows(p, s) { PayloadParses(p, s); }
      if ParsePayload(p).Parsed? {
        BytesOfParsePayload(p);
        var r := ParsePayload(p).value;
        RawShows(r);
        if Shows(p, s) { SameShown(p, s, StateOf(r)); }
      }
    }
  }

  /** The image of every state whose record counts fit: header, payload and trailer, the flags as zero or one. */
  lemma {:induction false} EncodedShows(s: PersistentState)
    requires Countable(s)
    ensures var b := Encoded(s);
      && |b| == 16 + PayloadSize(s) && b[..4] == MAGIC_BYTES && b[4..8] == VERSION_BYTES
      && Word(b, 8) == PayloadSize(s) % 0x1_0000_0000 && Intact(b)
      && Shows(BodyOf(b), s.(formatVersion := 1))
      && b[124] <= 1 && b[133] <= 1 && b[158] <= 1 && b[167] <= 1
  {
    hide Shows, StateOf, RawOf, Sealed, WordFrom, Intact, Word, PayloadBytes, ImageBytes, Shaped;
    hide MAGIC, MAGIC_BYTES, VERSION_BYTES;
    var r := RawOf(s);
    var b, p := Encoded(s), PayloadBytes(r);
    StateOfRawOf(s);
    RawCounts(s);
    PayloadLength(r);
    ImageShape(p);
    HeaderBytes(b);
    IntactIsSealed(b);
    RawShows(r);
    FlagBytes(s);
    assert BodyOf(b) == p;
    assert b[124] == p[112] && b[133] == p[121] && b[158] == p[146] && b[167] == p[155];
  }

  lemma {:induction false} FlagBytes(s: PersistentState)
    requires Countable(s)
    ensures var p := PayloadBytes(RawOf(s)); |p| >= 192 && p[112] <= 1 && p[121] <= 1 && p[146] <= 1 && p[155] <= 1
  {
    RawShaped(s);
    FlagFields(s);
    hide PayloadBytes, RawOf, PutAll, Word, Long, Shaped;
    HeadSlice(RawOf(s));
    MarkKinds(RawOf(s));
    MarkAt(PayloadBytes(RawOf(s)), 92, RawOf(s).mark);
  }

  lemma {:induction false} MarkKinds(r: Raw)
    requires Shaped(r)
    ensures HasKinds(r.mark, MARK_KINDS)
  {
  }

  lemma {:induction false} FlagFields(s: PersistentState)
    ensures var m := RawOf(s).mark;
      && |m| == 15 && m[3].F8? && m[3].b <= 1 && m[5].F8? && m[5].b <= 1 && m[9].F8? && m[9].b <= 1
      && m[11].F8? && m[11].b <= 1
  {
    hide HeadFields, PointFields, ReceiptFields, PastFields, LifecycleState.Code;
  }
}
