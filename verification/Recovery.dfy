/** Crash recovery: which runtimes survive the trip through their own image, and how the recovered one behaves
    (src/runtime.cpp snapshot, restore, persist_bytes, restore_bytes; src/persistence/store.cpp). */
module Recovery {
  import opened Words
  import opened Lifecycle
  import opened Adapters
  import opened Domain
  import opened Store
  import opened Protocol
  import opened Runs
  import opened Offsets
  import ImageLayout

  /** Some restore-free run from a fresh runtime ends here. */
  ghost predicate Reachable(w: World) {
    exists ws, ops :: IsRun(ws, ops) && Fresh(ws[0]) && RestoreFree(ops) && ws[|ops|] == w
  }

  /** Some run ends here, whatever it has recovered from on the way. */
  ghost predicate Attainable(w: World) {
    exists ws, ops :: IsRun(ws, ops) && Fresh(ws[0]) && ws[|ops|] == w
  }

  lemma {:induction false} ReachableIsAttainable(w: World)
    requires Reachable(w)
    ensures Attainable(w)
  {
    hide Step, Fresh, RestoreFree;
    var ws, ops :| IsRun(ws, ops) && Fresh(ws[0]) && RestoreFree(ops) && ws[|ops|] == w;
    assert IsRun(ws, ops) && Fresh(ws[0]) && ws[|ops|] == w;
  }

  lemma {:induction false} AttainableIsSound(w: World)
    requires Attainable(w)
    ensures Sound(w.rt)
  {
    hide Step, Sound, Fresh;
    var ws, ops :| IsRun(ws, ops) && Fresh(ws[0]) && ws[|ops|] == w;
    EveryRunIsSound(ws, ops, |ops|);
  }

  lemma {:induction false} ReachableFacts(w: World)
    requires Reachable(w)
    ensures Sound(w.rt) && Staged(w.rt) && Recorded(w.rt)
  {
    hide Step, Sound, Staged, Recorded;
    var ws, ops :| IsRun(ws, ops) && Fresh(ws[0]) && RestoreFree(ops) && ws[|ops|] == w;
    EveryRunIsSound(ws, ops, |ops|);
    RestoreFreeRunIsStaged(ws, ops, |ops|);
  }

  // ---- what the image of a runtime shows ----

  /** The image a runtime would write. */
  function OwnImage(rt: Runtime): seq<byte> {
    Encoded(Snapshot(rt))
  }

  predicate ShowsIdentity(b: seq<byte>, rt: Runtime)
    requires |b| >= 208
  {
    && Long(b, 16) == rt.epoch && Long(b, 24) == rt.policy && Long(b, 32) == rt.scope.workloadId
    && Long(b, 40) == rt.scope.workloadGen && Long(b, 48) == rt.scope.executionId
    && Long(b, 56) == rt.scope.executionGen && Long(b, 64) == rt.scope.attemptId && Long(b, 72) == rt.scope.attemptGen
    && Long(b, 80) == rt.scope.workerId && Long(b, 88) == rt.scope.workerBoot && Long(b, 96) == rt.fencedBoot
  }

  predicate ShowsBoundary(b: seq<byte>, rt: Runtime)
    requires |b| >= 208
  {
    && Word(b, 12) == 1 && ImageLayout.IsLifecycle(rt.lifecycle, Word(b, 104))
    && (b[124] != 0) == rt.boundary.quiesced && Long(b, 125) == rt.boundary.quiescenceGen
    && (b[133] != 0) == rt.boundary.stateDurable && Long(b, 134) == rt.boundary.captureGen
    && Long(b, 142) == rt.boundary.checkpointRef && Long(b, 150) == rt.boundary.checkpointGen
    && (b[158] != 0) == rt.boundary.resourcesReleased && Long(b, 159) == rt.boundary.releaseGen
    && (b[167] != 0) == rt.lifecycle.PreemptedDurable() && Long(b, 168) == rt.resumeGen
    && Long(b, 176) == rt.progress.durable && Long(b, 184) == rt.progress.durableGeneration
  }

  /** The open request, or zeros. */
  predicate ShowsRequest(b: seq<byte>, rt: Runtime)
    requires |b| >= 208
  {
    match rt.active
    case None => Long(b, 108) == 0 && Long(b, 116) == 0
    case Some(r) => Long(b, 108) == r.id && Long(b, 116) == r.generation
  }

  /** The three lists: the safe points in order, no receipts, the cancelled requests. */
  predicate ShowsRecords(b: seq<byte>, rt: Runtime) {
    var n, h := |rt.safePoints|, |rt.history|;
    && |b| == 208 + 70 * n + 20 * h && Word(b, 192) == n && Word(b, 196 + 70 * n) == 0 && Word(b, 200 + 70 * n) == h
    && (forall i :: 0 <= i < n ==> ImageLayout.ShowsPoint(ImageLayout.BodyOf(b), 184 + 70 * i, rt.safePoints[i]))
    && (forall i :: 0 <= i < h ==> ImageLayout.ShowsPast(ImageLayout.BodyOf(b), 192 + 70 * n + 20 * i, rt.history[i]))
  }

  lemma {:induction false} IdentityPersists(rt: Runtime)
    requires Countable(Snapshot(rt))
    ensures |OwnImage(rt)| >= 208 && ShowsIdentity(OwnImage(rt), rt)
  {
    hide Countable, Encoded, Word, Long, ImageLayout.ShowsBoundary;
    hide ImageLayout.ShowsPoint, ImageLayout.ShowsReceipt, ImageLayout.ShowsPast, LifecycleState.PreemptedDurable;
    ImageLayout.EncodedShows(Snapshot(rt));
    var b := OwnImage(rt);
    LongInSlice(b, 12, |b| - 4, 4); LongInSlice(b, 12, |b| - 4, 12); LongInSlice(b, 12, |b| - 4, 20);
    LongInSlice(b, 12, |b| - 4, 28); LongInSlice(b, 12, |b| - 4, 36); LongInSlice(b, 12, |b| - 4, 44);
    LongInSlice(b, 12, |b| - 4, 52); LongInSlice(b, 12, |b| - 4, 60); LongInSlice(b, 12, |b| - 4, 68);
    LongInSlice(b, 12, |b| - 4, 76); LongInSlice(b, 12, |b| - 4, 84);
  }

  lemma {:induction false} BoundaryPersists(rt: Runtime)
    requires Countable(Snapshot(rt))
    ensures |OwnImage(rt)| >= 208 && ShowsBoundary(OwnImage(rt), rt) && ShowsRequest(OwnImage(rt), rt)
  {
    hide Countable, Encoded, Word, Long, ImageLayout.IsLifecycle;
    hide ImageLayout.ShowsPoint, ImageLayout.ShowsReceipt, ImageLayout.ShowsPast, LifecycleState.PreemptedDurable;
    ImageLayout.EncodedShows(Snapshot(rt));
    var b := OwnImage(rt);
    WordInSlice(b, 12, |b| - 4, 0); WordInSlice(b, 12, |b| - 4, 92); LongInSlice(b, 12, |b| - 4, 96);
    LongInSlice(b, 12, |b| - 4, 104); LongInSlice(b, 12, |b| - 4, 113); LongInSlice(b, 12, |b| - 4, 122);
    LongInSlice(b, 12, |b| - 4, 130); LongInSlice(b, 12, |b| - 4, 138); LongInSlice(b, 12, |b| - 4, 147);
    LongInSlice(b, 12, |b| - 4, 156); LongInSlice(b, 12, |b| - 4, 164); LongInSlice(b, 12, |b| - 4, 172);
  }

  lemma {:induction false} RecordsPersist(rt: Runtime)
    requires Countable(Snapshot(rt))
    ensures ShowsRecords(OwnImage(rt), rt)
  {
    hide Countable, Encoded, Word, Long, ImageLayout.ShowsBoundary, ImageLayout.ShowsIdentity;
    hide ImageLayout.ShowsPoint, ImageLayout.ShowsReceipt, ImageLayout.ShowsPast, LifecycleState.PreemptedDurable;
    ImageLayout.EncodedShows(Snapshot(rt));
    var b, n := OwnImage(rt), |rt.safePoints|;
    WordInSlice(b, 12, |b| - 4, 180);
    WordInSlice(b, 12, |b| - 4, 184 + 70 * n);
    WordInSlice(b, 12, |b| - 4, 188 + 70 * n);
  }

  /** The image that a runtime saves, byte by byte: every persisted member at its place. */
  lemma {:induction false} OwnImageShows(rt: Runtime)
    requires |rt.safePoints| < 0x1_0000_0000 && |rt.history| < 0x1_0000_0000
    ensures |OwnImage(rt)| >= 208 && ShowsRecords(OwnImage(rt), rt)
    ensures ShowsIdentity(OwnImage(rt), rt) && ShowsBoundary(OwnImage(rt), rt) && ShowsRequest(OwnImage(rt), rt)
  {
    hide OwnImage, ShowsIdentity, ShowsBoundary, ShowsRequest, ShowsRecords;
    IdentityPersists(rt);
    BoundaryPersists(rt);
    RecordsPersist(rt);
  }

  // ---- which runtimes can be recovered ----

  predicate Releasable(rt: Runtime) {
    rt.lifecycle == ReleasePending || rt.lifecycle == Releasing
  }

  /** What a caller can check before relying on the image. */
  predicate Recoverable(rt: Runtime) {
    && (Releasable(rt) ==> rt.boundary.resourcesReleased)
    && (rt.boundary.stateDurable ==> rt.boundary.checkpointRef != 0 && rt.boundary.checkpointGen != 0)
    && (forall p :: p in rt.safePoints ==> p.id != 0)
    && PayloadSize(Snapshot(rt)) < 0x1_0000_0000
  }

  lemma {:induction false} PointsRecoverable(rt: Runtime)
    requires Sound(rt) && Recorded(rt)
    ensures PointsWellFormed(rt.safePoints) <==> forall p :: p in rt.safePoints ==> p.id != 0
  {
    var ps := rt.safePoints;
    if forall p :: p in ps ==> p.id != 0 {
      forall i | 0 <= i < |ps| ensures ps[i].id != 0 && ps[i].state != SpUnset {
        assert ps[i] in ps;
      }
    }
  }

  lemma StagedRelease(rt: Runtime)
    requires Staged(rt) && ReleaseReached(rt.lifecycle)
    ensures rt.boundary.quiesced && rt.boundary.stateDurable
    ensures !Releasable(rt) ==> rt.boundary.resourcesReleased
  {
  }

  lemma ReleasableReached(rt: Runtime)
    ensures Releasable(rt) ==> ReleaseReached(rt.lifecycle)
    ensures ResumeReached(rt.lifecycle) ==> rt.lifecycle.PreemptedDurable()
  {
  }

  /** The image of a reachable runtime is well formed exactly when it is recoverable. */
  lemma {:induction false} SnapshotWellFormed(rt: Runtime)
    requires Sound(rt) && Staged(rt) && Recorded(rt)
    ensures Recoverable(rt) <==> WellFormed(Snapshot(rt)) && PayloadSize(Snapshot(rt)) < 0x1_0000_0000
  {
    PointsRecoverable(rt);
    ReleasableReached(rt);
    if ReleaseReached(rt.lifecycle) { StagedRelease(rt); }
    hide PointsWellFormed, ReleaseReached, ResumeReached, Staged, Recorded, PayloadSize, Releasable;
    hide LifecycleState.PreemptedDurable, Sorted;
  }

  /** Exact recoverability of every reachable runtime: its own image decodes, to its own snapshot, if and only if
      it is not releasing resources still held, a durable state has a valid checkpoint, no safe point has the
      invalid identifier and the payload length fits its field. */
  lemma {:induction false} ExactlyRecoverable(w: World)
    requires Reachable(w)
    ensures SelfDecodes(w.rt) <==> Recoverable(w.rt)
    ensures Recoverable(w.rt) ==> Decoded(OwnImage(w.rt)) == ImageOk(Snapshot(w.rt))
  {
    ReachableFacts(w);
    SnapshotWellFormed(w.rt);
    var s := Snapshot(w.rt);
    SnapshotVersion(w.rt);
    StoreRoundTrip(s);
    DecodedOfEncoded(s);
    hide Reachable, Recoverable, Snapshot, Encoded, Decoded, WellFormed, Verdict, Sound, Staged, Recorded;
  }

  /** The runtime's own image is accepted. */
  predicate SelfDecodes(rt: Runtime) {
    Decoded(OwnImage(rt)).ImageOk?
  }

  lemma {:induction false} AcceptedIsSnapshot(rt: Runtime)
    requires SelfDecodes(rt)
    ensures Decoded(OwnImage(rt)) == ImageOk(Snapshot(rt))
  {
    SnapshotVersion(rt);
    DecodedOfEncoded(Snapshot(rt));
    hide Decoded, Encoded, Snapshot, Verdict;
  }

  lemma SnapshotVersion(rt: Runtime)
    ensures Snapshot(rt).formatVersion == Image.VERSION
  {
  }

  // ---- what comes back ----

  lemma {:induction false} InsertLast(ps: seq<SafePoint>, p: SafePoint)
    requires forall i :: 0 <= i < |ps| ==> ps[i].id < p.id
    ensures Insert(ps, p) == ps + [p]
    decreases |ps|
  {
    if ps != [] { InsertLast(ps[1..], p); }
  }

  lemma {:induction false} InsertAllOfSorted(ps: seq<SafePoint>)
    requires Sorted(ps)
    ensures InsertAll([], ps) == ps
    decreases |ps|
  {
    if ps != [] {
      var n := |ps| - 1;
      InsertAllOfSorted(ps[..n]);
      InsertLast(ps[..n], ps[n]);
      assert ps == ps[..n] + [ps[n]];
    }
  }

  /** Restoring a snapshot and taking it again changes nothing. */
  lemma {:induction false} SnapshotOfRestore(rt: Runtime, w: World)
    requires Sound(rt) && w.rt.epoch == rt.epoch && w.rt.policy == rt.policy
    requires rt.active.None? ==> w.rt.active.None?
    ensures Snapshot(Restore(w, Snapshot(rt)).rt) == Snapshot(rt)
    ensures Restore(w, Snapshot(rt)).rt.active.Some? == rt.active.Some?
  {
    InsertAllOfSorted(rt.safePoints);
    hide InsertAll, Sorted, LifecycleState.PreemptedDurable;
  }

  /** The world of a fresh runtime after restoring another one's image. */
  function RecoveredFrom(rt: Runtime, env: Environment): World {
    RestoreBytes(World(FreshRuntime(rt.epoch, rt.policy), env), OwnImage(rt)).0
  }

  /** A fresh runtime with the same epoch and policy recovers the snapshot exactly, from any runtime that ever runs and
      whose image is accepted, one that was itself recovered included. */
  lemma {:induction false} RecoveredSnapshot(w: World, env: Environment)
    requires Attainable(w) && SelfDecodes(w.rt)
    ensures Snapshot(RecoveredFrom(w.rt, env).rt) == Snapshot(w.rt)
    ensures RecoveredFrom(w.rt, env) == Restore(World(FreshRuntime(w.rt.epoch, w.rt.policy), env), Snapshot(w.rt))
  {
    AcceptedIsSnapshot(w.rt);
    AttainableIsSound(w);
    hide Attainable, Snapshot, Decoded, Restore, OwnImage, Sound;
    SnapshotOfRestore(w.rt, World(FreshRuntime(w.rt.epoch, w.rt.policy), env));
  }

  /** Recovery moves the current position back by exactly the rollback assessed just before, whether into a fresh
      runtime or in place, in every run. */
  lemma {:induction false} RollbackIsAssessed(w: World, at: World)
    requires Attainable(w) && SelfDecodes(w.rt)
    ensures RestoreBytes(at, OwnImage(w.rt)).0.rt.progress.current == w.rt.progress.current - Assess(w.rt).maxRollback
    ensures RestoreBytes(at, OwnImage(w.rt)).0.rt.progress.durable == w.rt.progress.durable
  {
    AcceptedIsSnapshot(w.rt);
    AttainableIsSound(w);
    hide Attainable, Decoded, OwnImage, Sorted, InsertAll;
  }

  /** Recovery restores the generation of durable progress but not the counter behind it, so the next durable
      publication takes its generation from the runtime that recovers. It falls behind the stored one exactly when that
      runtime's next generation does; for a fresh runtime, whose next one is 1, when the stored one exceeds 1. */
  lemma {:induction false} RecoveredGenerationRegresses(w: World, at: World, position: u64)
    requires Attainable(w) && SelfDecodes(w.rt) && position >= w.rt.progress.durable
    ensures var v := RestoreBytes(at, OwnImage(w.rt)).0;
      var stored, published := w.rt.progress.durableGeneration, Publish(v, position, Durable);
      && v.rt.progress.durableGeneration == stored && published.1 == Published(true)
      && published.0.rt.progress.durableGeneration == Next(at.rt.progress.generation)
      && (published.0.rt.progress.durableGeneration < stored <==> Next(at.rt.progress.generation) < stored)
      && (Fresh(at) ==> published.0.rt.progress.durableGeneration == 1)
  {
    AcceptedIsSnapshot(w.rt);
    hide Attainable, Decoded, OwnImage, InsertAll;
  }

  /** Recovery hands authority to the recovered attempt again, even behind a fence. */
  lemma {:induction false} RecoveryRegrants(w: World, bytes: seq<byte>)
    requires Decoded(bytes).ImageOk?
    ensures RestoreBytes(w, bytes).0.Authoritative()
    ensures var t := Decoded(bytes).state.scope;
      RestoreBytes(w, bytes).0.env.authority ==
        Authority(true, t.executionId, t.attemptId, t.executionGen, t.attemptGen, w.rt.epoch, t.workerBoot)
  {
    hide Decoded, InsertAll;
  }

  /** What recovery leaves alone, and the request generation it takes over. */
  lemma {:induction false} RecoveryKeeps(w: World, bytes: seq<byte>)
    requires Decoded(bytes).ImageOk?
    ensures var s, rt, rt' := Decoded(bytes).state, w.rt, RestoreBytes(w, bytes).0.rt;
      && rt'.currentPoint == rt.currentPoint && rt'.resumed == rt.resumed && rt'.epoch == rt.epoch
      && rt'.policy == rt.policy && rt'.progress.generation == rt.progress.generation
      && rt'.authRequestGen == (if s.requestId != 0 then s.requestGen else rt.authRequestGen)
      && (s.requestId == 0 ==> rt'.active == rt.active)
  {
    hide Decoded, InsertAll;
  }

  /** There are accepted images in Deferred, the one state from which quiescing can throw. */
  lemma {:induction false} DeferredImageExists()
    ensures exists bytes :: Decoded(bytes).ImageOk? && Decoded(bytes).state.lifecycle == Deferred
  {
    hide Decoded, Encoded, PayloadSize;
    var s := Snapshot(FreshRuntime(1, 1).(lifecycle := Deferred));
    EmptyRecordsFit(s);
    StoreRoundTrip(s);
    assert Decoded(Encoded(s)).ImageOk? && Decoded(Encoded(s)).state.lifecycle == Deferred;
  }

  lemma EmptyRecordsFit(s: PersistentState)
    requires s.safePoints == [] && s.receipts == [] && s.history == []
    ensures PayloadSize(s) == 192
  {
  }
}
