/** Reachable runs in which the code does what its comments do not say: where each condition proved elsewhere fails. */
module Witnesses {
  import opened Words
  import opened Lifecycle
  import opened Adapters
  import opened Domain
  import opened Store
  import opened Protocol
  import opened Runs
  import opened Recovery
  import opened Bisimulation
  import opened Drivers
  import opened EndToEnd

  // ---- a safe point kept across executions ----

  lemma {:induction false} DrivenBoundaryIsValid(worker: u64, boot: u64, position: u64)
    ensures Driven(worker, boot, position).Some? && Driven(worker, boot, position).value.rt.AtValidBoundary()
  {
    DrivenFacts(worker, boot, position);
    hide Driven, SelfDecodes, Reachable;
    ReachableFacts(Driven(worker, boot, position).value);
  }

  lemma {:induction false} NextIsAccepted(w: World, boot: u64)
    requires w.rt.epoch == 100
    ensures Accepts(Start(w, ScopeOf(boot)), OpRequest(RequestOf(boot)))
  {
  }

  /** Recovery is visible: after the coordinator's own preemption, starting the execution again, requesting its
      preemption and beginning to quiesce gives the original and the recovered runtime different replies. */
  lemma {:induction false} CoordinatorDiverges(worker: u64, boot: u64, position: u64, authority: Authority)
    returns (as_: seq<World>, bs: seq<World>, ops: seq<Op>)
    ensures Driven(worker, boot, position).Some?
    ensures var end := Driven(worker, boot, position).value;
      && IsRun(as_, ops) && as_[0] == end && Reachable(end)
      && IsRun(bs, ops) && bs[0] == RecoveredFrom(end.rt, end.env.(authority := authority))
      && NoPublication(ops) && !SameReplies(as_, bs, ops, |ops|)
  {
    hide Driven, SelfDecodes, Reachable, Attainable, RecoveredFrom, IsRun, NoPublication, Accepts, Step, Alike;
    hide SamePoint, Split, BeginQuiesce, RequestPreemption, Start;
    DrivenFacts(worker, boot, position);
    DrivenBoundaryIsValid(worker, boot, position);
    var a := Driven(worker, boot, position).value;
    ReachableIsAttainable(a);
    RecoveredIsAlike(a, authority);
    var b := RecoveredFrom(a.rt, a.env.(authority := authority));
    NextIsAccepted(a, boot);
    StalePointDiverges(a, b, ScopeOf(boot), RequestOf(boot));
    NextReply(a, ScopeOf(boot), RequestOf(boot));
    NextReply(b, ScopeOf(boot), RequestOf(boot));
    as_, bs, ops := ThreeSteps(a, b, OpStart(ScopeOf(boot)), OpRequest(RequestOf(boot)), OpBeginQuiesce);
    assert Step(as_[2], ops[2]).1 != Step(bs[2], ops[2]).1;
  }

  lemma {:induction false} NextReply(w: World, scope: Scope, r: Request)
    ensures Step(Step(Step(w, OpStart(scope)).0, OpRequest(r)).0, OpBeginQuiesce) ==
      BeginQuiesce(RequestPreemption(Start(w, scope), r).0)
  {
    hide Start, RequestPreemption, BeginQuiesce, RestoreBytes;
  }

  lemma {:induction false} ThreeSteps(a: World, b: World, x: Op, y: Op, z: Op)
    returns (as_: seq<World>, bs: seq<World>, ops: seq<Op>)
    requires !x.OpPublish? && !y.OpPublish? && !z.OpPublish?
    ensures ops == [x, y, z] && NoPublication(ops)
    ensures |as_| == |bs| == 4 && IsRun(as_, ops) && IsRun(bs, ops) && as_[0] == a && bs[0] == b
    ensures as_[2] == Step(Step(a, x).0, y).0 && bs[2] == Step(Step(b, x).0, y).0
  {
    hide Step;
    ops := [x, y, z];
    as_ := [a, Step(a, x).0, Step(Step(a, x).0, y).0, Step(Step(Step(a, x).0, y).0, z).0];
    bs := [b, Step(b, x).0, Step(Step(b, x).0, y).0, Step(Step(Step(b, x).0, y).0, z).0];
  }

  /** A new contract, a newer checkpoint generation and a quiet worker. */
  function Restocked(w: World): World {
    var cp := COORDINATOR_ENVIRONMENT.checkpoints;
    w.(env := w.env.(broker := COORDINATOR_ENVIRONMENT.broker, checkpoints := cp.(currentGen := Next(cp.currentGen)),
                     quiet := ALL_QUIET))
  }

  lemma {:induction false} RestockedIsReachable(w: World)
    requires Reachable(w)
    ensures Reachable(Restocked(w))
  {
    hide Reachable, COORDINATOR_ENVIRONMENT, ALL_QUIET, RestoreBytes;
    var e := Restocked(w).env;
    StepIsReachable(w, EnvBroker(e.broker));
    var w1 := w.(env := w.env.(broker := e.broker));
    StepIsReachable(w1, EnvCheckpoints(e.checkpoints));
    var w2 := w1.(env := w1.env.(checkpoints := e.checkpoints));
    StepIsReachable(w2, EnvQuiet(e.quiet));
  }

  lemma {:induction false} RestockedIsHealthy(w: World, boot: u64)
    requires w.rt.boundary.checkpointGen == COORDINATOR_ENVIRONMENT.checkpoints.currentGen
    ensures var s := Start(Restocked(w), ScopeOf(boot));
      Quietens(s, QuiescenceReport(1, boot, true)) && Captures(s) && Frees(s)
  {
    EverythingQuiet(Start(Restocked(w), ScopeOf(boot)).env);
    hide Environment.AllQuiet, ALL_QUIET;
  }

  /** The stale safe point in a whole run: after the coordinator's preemption a second execution is started and
      preempted without reaching any safe point, still at the first one's. */
  lemma {:induction false} SecondExecutionAtOldPoint(worker: u64, boot: u64, position: u64)
    ensures Driven(worker, boot, position).Some?
    ensures var first := Driven(worker, boot, position).value;
      var begun := BeginWithoutReach(Restocked(first), ScopeOf(boot), RequestOf(boot));
      var second := DriveRelease(DriveCapture(begun, QuiescenceReport(1, boot, true)));
      && Reachable(second) && second.rt.lifecycle == Preempted
      && second.rt.currentPoint == first.rt.currentPoint
  {
    DrivenFacts(worker, boot, position);
    DrivenBoundaryIsValid(worker, boot, position);
    hide Driven, SelfDecodes;
    var first, q := Driven(worker, boot, position).value, QuiescenceReport(1, boot, true);
    var w := Restocked(first);
    NextIsAccepted(w, boot);
    RestockedIsHealthy(first, boot);
    RestockedIsReachable(first);
    hide Reachable, COORDINATOR_ENVIRONMENT, DriveCapture, DriveRelease, Captures, Quietens, Frees, Accepts;
    StalePreemption(w, ScopeOf(boot), RequestOf(boot), q);
    StaleBoundary(w, ScopeOf(boot), RequestOf(boot));
    WithoutReachIsReachable(w, ScopeOf(boot), RequestOf(boot));
    hide BeginWithoutReach, Start;
    var begun := BeginWithoutReach(w, ScopeOf(boot), RequestOf(boot));
    CaptureIsReachable(begun, q);
    CaptureRecords(begun, q);
    ReleaseIsReachable(DriveCapture(begun, q));
    ReleaseRecords(DriveCapture(begun, q));
  }

  lemma {:induction false} WithoutReachIsReachable(w: World, scope: Scope, r: Request)
    requires Reachable(w)
    ensures Reachable(BeginWithoutReach(w, scope, r))
  {
    hide Reachable, Start, RequestPreemption, BeginQuiesce;
    StepIsReachable(w, OpStart(scope));
    StepIsReachable(Start(w, scope), OpRequest(r));
    StepIsReachable(RequestPreemption(Start(w, scope), r).0, OpBeginQuiesce);
  }

  /** Completing the coordinator's committed preemption aborts it, and the resume driver then changes nothing. */
  lemma {:induction false} CompletedPreemptionIsLost(worker: u64, boot: u64, position: u64)
    ensures Driven(worker, boot, position).Some?
    ensures var lost := Complete(Driven(worker, boot, position).value);
      Reachable(lost) && lost.rt.lifecycle == Aborted && DriveResume(lost) == lost
  {
    DrivenFacts(worker, boot, position);
    hide Driven, SelfDecodes, Reachable;
    StepIsReachable(Driven(worker, boot, position).value, OpComplete);
    hide RestoreBytes, Walk;
  }

  // ---- a preemption without a checkpoint ----

  /** A checkpoint is on record. */
  predicate Checkpointed(rt: Runtime) {
    rt.boundary.checkpointRef != 0 && rt.boundary.checkpointGen != 0
  }

  /** The worlds after the capture stage and after the commit of a preemption at a point that needs no capture. */
  function UncapturedHeld(w: World, r: Request, id: u64, position: u64, q: QuiescenceReport): World {
    DriveCapture(BeginUncaptured(w, r, id, position), q)
  }

  function UncapturedEnd(w: World, r: Request, id: u64, position: u64, q: QuiescenceReport): World {
    DriveRelease(UncapturedHeld(w, r, id, position, q))
  }

  lemma {:induction false} UncapturedStages(w: World, r: Request, id: u64, position: u64, q: QuiescenceReport)
    requires Accepts(w, OpRequest(r)) && Find(w.rt.safePoints, id).Some?
    ensures var held := UncapturedHeld(w, r, id, position, q);
      && held.rt.lifecycle == (if Quietens(w, q) then ReleasePending else Quiescing)
      && held.rt.boundary.resourcesReleased == w.rt.boundary.resourcesReleased
      && (Quietens(w, q) ==> held.rt.boundary.stateDurable)
      && held.rt.boundary.checkpointRef == w.rt.boundary.checkpointRef
      && held.rt.boundary.checkpointGen == w.rt.boundary.checkpointGen
    ensures var end := UncapturedEnd(w, r, id, position, q);
      && (end.rt.lifecycle == Preempted <==> Quietens(w, q) && Frees(w))
      && (end.rt.lifecycle == Preempted ==> end.rt.boundary.stateDurable)
      && end.rt.boundary.checkpointRef == w.rt.boundary.checkpointRef
      && end.rt.boundary.checkpointGen == w.rt.boundary.checkpointGen
      && end.env.checkpoints == w.env.checkpoints && end.env.dependency == w.env.dependency
  {
    UncapturedBoundary(w, r, id, position);
    var w1 := BeginUncaptured(w, r, id, position);
    SameConditions(w, w1, q);
    NoCaptureStage(w1, q);
    hide BeginUncaptured, DriveCapture, DriveRelease, ReleaseAnswer, Find, Accepts, Quietens, Broker.NothingReserved;
    var held := DriveCapture(w1, q);
    if held.rt.lifecycle == ReleasePending { ReleaseStage(held); } else { ReleaseRefused(held); }
  }

  lemma {:induction false} UncapturedIsReachable(w: World, r: Request, id: u64, position: u64, q: QuiescenceReport)
    requires Reachable(w)
    ensures Reachable(UncapturedHeld(w, r, id, position, q)) && Reachable(UncapturedEnd(w, r, id, position, q))
  {
    hide Reachable, Reach, RequestPreemption, BeginQuiesce, DriveCapture, DriveRelease;
    StepIsReachable(w, OpReach(id, position, false));
    var w1 := Reach(w, id, position, false).0;
    StepIsReachable(w1, OpRequest(r));
    StepIsReachable(RequestPreemption(w1, r).0, OpBeginQuiesce);
    CaptureIsReachable(BeginUncaptured(w, r, id, position), q);
    ReleaseIsReachable(UncapturedHeld(w, r, id, position, q));
  }

  lemma {:induction false} UncapturedRecords(w: World, r: Request, id: u64, position: u64, q: QuiescenceReport)
    requires Sorted(w.rt.safePoints)
    ensures KeepsRecords(w, UncapturedHeld(w, r, id, position, q))
    ensures KeepsRecords(w, UncapturedEnd(w, r, id, position, q))
  {
    hide Reach, RequestPreemption, BeginQuiesce, DriveCapture, DriveRelease;
    var w1 := Reach(w, id, position, false).0;
    ReachRecords(w, id, position, false);
    SameRecords(w1, OpRequest(r));
    SameRecords(RequestPreemption(w1, r).0, OpBeginQuiesce);
    CaptureRecords(BeginUncaptured(w, r, id, position), q);
    ReleaseRecords(UncapturedHeld(w, r, id, position, q));
  }

  /** A preemption at a point that needs no capture names whatever checkpoint was on record before. So its image
      decodes if and only if there was one and the start could have been stored; and while resources are being released,
      only if they were released once already, by an earlier execution. */
  lemma {:induction false} UncapturedIsRecoverable(w: World, r: Request, id: u64, position: u64, q: QuiescenceReport)
    requires Reachable(w) && Accepts(w, OpRequest(r)) && Find(w.rt.safePoints, id).Some? && Quietens(w, q)
    ensures var held := UncapturedHeld(w, r, id, position, q);
      && Reachable(held) && held.rt.lifecycle == ReleasePending
      && (SelfDecodes(held.rt) <==> w.rt.boundary.resourcesReleased && Checkpointed(w.rt) && Storable(w.rt))
    ensures var end := UncapturedEnd(w, r, id, position, q);
      && Reachable(end) && (end.rt.lifecycle == Preempted <==> Frees(w))
      && (end.rt.lifecycle == Preempted ==> (SelfDecodes(end.rt) <==> Checkpointed(w.rt) && Storable(w.rt)))
  {
    ReachableFacts(w);
    UncapturedStages(w, r, id, position, q);
    UncapturedIsReachable(w, r, id, position, q);
    UncapturedRecords(w, r, id, position, q);
    hide Reachable, UncapturedHeld, UncapturedEnd, Find, Accepts, Quietens, Frees, SelfDecodes, KeepsRecords;
    hide Staged, Recorded, Sorted, PayloadSize, Snapshot;
    var held, end := UncapturedHeld(w, r, id, position, q), UncapturedEnd(w, r, id, position, q);
    KeptIsStorable(w, held);
    KeptIsStorable(w, end);
    ExactlyRecoverable(held);
    ExactlyRecoverable(end);
  }

  /** With no checkpoint on record the explanation reports one missing, and yet the resume goes through. */
  lemma {:induction false} MissingCheckpointResumes(w: World, r: Request, id: u64, position: u64, q: QuiescenceReport)
    requires Reachable(w) && Accepts(w, OpRequest(r)) && Find(w.rt.safePoints, id).Some? && Quietens(w, q) && Frees(w)
    requires w.rt.boundary.checkpointRef == 0 && !w.env.DependencyBlocks()
    ensures var end := UncapturedEnd(w, r, id, position, q);
      && Reachable(end) && end.rt.lifecycle == Preempted && !SelfDecodes(end.rt)
      && ResumeBlockers(end) == [CheckpointMissing] && DriveResume(end).rt.lifecycle == Resumed
  {
    UncapturedStages(w, r, id, position, q);
    UncapturedIsRecoverable(w, r, id, position, q);
    hide UncapturedHeld, UncapturedEnd, Find, Accepts, Quietens, Frees, SelfDecodes, Reachable, DriveResume;
    hide ResumeBlockers, Storable;
    var end := UncapturedEnd(w, r, id, position, q);
    ReachableFacts(end);
    BlockersListed(end);
    ResumeEnds(end);
  }

  lemma {:induction false} SetUpHasNoCheckpoint(worker: u64, boot: u64)
    ensures var w := SetUp(worker, boot);
      w.rt.boundary.checkpointRef == 0 && !w.rt.boundary.resourcesReleased && !w.env.DependencyBlocks()
  {
  }

  /** From the coordinator's set-up, for every worker, boot and position: a preemption without capture leaves two
      reachable runtimes whose own images are rejected, one releasing and one preempted; the second reports a missing
      checkpoint and resumes. */
  lemma {:induction false} UncapturedCoordinator(worker: u64, boot: u64, position: u64)
    ensures var w, r, q := SetUp(worker, boot), RequestOf(boot), QuiescenceReport(1, boot, true);
      var held, end := UncapturedHeld(w, r, SAFE_POINT, position, q), UncapturedEnd(w, r, SAFE_POINT, position, q);
      && Reachable(held) && held.rt.lifecycle == ReleasePending && !SelfDecodes(held.rt)
      && Reachable(end) && end.rt.lifecycle == Preempted && !SelfDecodes(end.rt)
      && ResumeBlockers(end) == [CheckpointMissing] && DriveResume(end).rt.lifecycle == Resumed
  {
    var w, r, q := SetUp(worker, boot), RequestOf(boot), QuiescenceReport(1, boot, true);
    SetUpIsReachable(worker, boot);
    SetUpIsHealthy(worker, boot);
    SetUpHasNoCheckpoint(worker, boot);
    hide SetUp, Reachable, Accepts, Find, Quietens, Captures, Frees, SelfDecodes, UncapturedHeld, UncapturedEnd;
    hide ResumeBlockers, DriveResume, Environment.DependencyBlocks, Storable;
    UncapturedIsRecoverable(w, r, SAFE_POINT, position, q);
    MissingCheckpointResumes(w, r, SAFE_POINT, position, q);
  }

  // ---- an illegal edge after a recovery ----

  lemma {:induction false} StepIsAttainable(w: World, op: Op)
    requires Attainable(w)
    ensures Attainable(Step(w, op).0)
  {
    hide Step, Fresh;
    var ws, ops :| IsRun(ws, ops) && Fresh(ws[0]) && ws[|ops|] == w;
    var ws', ops' := ws + [Step(w, op).0], ops + [op];
    assert IsRun(ws', ops') && Fresh(ws'[0]) && ws'[|ops'|] == Step(w, op).0;
  }

  /** A run that asks for an illegal edge: after the coordinator's preemption, restore an image in Deferred. */
  lemma {:induction false} RecoveredRunThrows(worker: u64, boot: u64, position: u64) returns (bytes: seq<byte>)
    ensures Driven(worker, boot, position).Some? && Recovers(OpRestoreBytes(bytes))
    ensures var w := Step(Driven(worker, boot, position).value, OpRestoreBytes(bytes)).0;
      Attainable(w) && Step(w, OpBeginQuiesce).1 == Threw(IllegalTransition)
  {
    DrivenFacts(worker, boot, position);
    DrivenBoundaryIsValid(worker, boot, position);
    hide Driven, SelfDecodes, Reachable, Attainable, Step, Decoded;
    DeferredImageExists();
    bytes :| Decoded(bytes).ImageOk? && Decoded(bytes).state.lifecycle == Deferred;
    var w := Driven(worker, boot, position).value;
    ReachableIsAttainable(w);
    StepIsAttainable(w, OpRestoreBytes(bytes));
    DeferredImageThrows(w, bytes);
  }

  // ---- a checkpoint nobody asked for ----

  /** A successful report of some checkpoint under the store's current generation. */
  function Claimed(w: World, ref: u64): CaptureResult {
    CaptureResult(true, true, 0, 0, ref, w.env.checkpoints.currentGen)
  }

  /** While capturing, any report of a current generation passes, whatever reference it carries. */
  lemma {:induction false} AnyReferencePasses(w: World, ref: u64)
    requires w.rt.lifecycle == CapturingState && w.env.checkpoints.valid && ref != 0
    ensures var w' := ReportCaptured(w, Claimed(w, ref)).0;
      && w'.rt.lifecycle == StateDurable && w'.rt.boundary.stateDurable && w'.rt.boundary.checkpointRef == ref
      && w'.rt.boundary.quiesced == w.rt.boundary.quiesced && w'.rt.scope == w.rt.scope && w'.env == w.env
  {
    ReleasePaths();
    hide Walk, IsAllowed;
  }

  /** The world that has just asked for a capture. */
  function CaptureAsked(w: World, r: Request, id: u64, position: u64, q: QuiescenceReport): World {
    RequestCapture(ReportQuiesced(DriveToBoundary(w, r, id, position), q).0).0
  }

  lemma {:induction false} AskedStage(w: World, q: QuiescenceReport)
    requires w.rt.lifecycle == Quiescing && w.rt.CaptureRequiredHere() && Quietens(w, q)
    ensures var w' := RequestCapture(ReportQuiesced(w, q).0).0;
      && w'.rt.lifecycle == CapturingState && w'.rt.boundary.quiesced && w'.rt.scope == w.rt.scope
      && w'.env.broker == w.env.broker && w'.env.checkpoints.valid == w.env.checkpoints.valid
      && w'.env.checkpoints.lastCapture.Some?
      && w'.env.checkpoints.lastCapture.value.checkpointRef == WrapAdd(w.env.checkpoints.captureCount, 1)
  {
    PreemptionPaths();
    ReleasePaths();
    hide Walk, IsAllowed, Environment.AllQuiet;
  }

  lemma {:induction false} AskedIsReachable(w: World, r: Request, id: u64, position: u64, q: QuiescenceReport)
    requires Reachable(w)
    ensures Reachable(CaptureAsked(w, r, id, position, q))
  {
    hide Reachable, DriveToBoundary, ReportQuiesced, RequestCapture, RestoreBytes;
    ToBoundaryIsReachable(w, r, id, position);
    var w1 := DriveToBoundary(w, r, id, position);
    StepIsReachable(w1, OpReportQuiesced(q));
    StepIsReachable(ReportQuiesced(w1, q).0, OpRequestCapture);
  }

  lemma {:induction false} AskedWorld(w: World, r: Request, id: u64, position: u64, q: QuiescenceReport)
    requires Healthy(w, r, id, q)
    ensures var asked := CaptureAsked(w, r, id, position, q);
      && asked.rt.lifecycle == CapturingState && asked.rt.boundary.quiesced && Frees(asked)
      && asked.env.checkpoints.valid && asked.env.checkpoints.lastCapture.Some?
      && asked.env.checkpoints.lastCapture.value.checkpointRef == WrapAdd(w.env.checkpoints.captureCount, 1)
  {
    BoundaryReached(w, r, id, position);
    var w1 := DriveToBoundary(w, r, id, position);
    SameConditions(w, w1, q);
    hide DriveToBoundary, Accepts, Find, Quietens, ReportQuiesced, RequestCapture, Broker.NothingReserved;
    AskedStage(w1, q);
  }

  /** A reachable preemption commits to any reference a report carries: from a reachable healthy world, for every
      reference but the invalid one, whichever the store has given. */
  lemma {:induction false} ClaimedCheckpointIsCommitted(
    w: World, r: Request, id: u64, position: u64, q: QuiescenceReport, ref: u64)
    requires Reachable(w) && Healthy(w, r, id, q) && ref != 0
    ensures var asked := CaptureAsked(w, r, id, position, q);
      var end := DriveRelease(ReportCaptured(asked, Claimed(asked, ref)).0);
      && asked.env.checkpoints.lastCapture.Some?
      && asked.env.checkpoints.lastCapture.value.checkpointRef == WrapAdd(w.env.checkpoints.captureCount, 1)
      && Reachable(end) && end.rt.lifecycle == Preempted && end.rt.boundary.checkpointRef == ref
  {
    hide Reachable, Healthy, CaptureAsked, Claimed, DriveRelease, ReportCaptured, Broker.NothingReserved, RestoreBytes;
    hide ReleaseAnswer;
    var asked := CaptureAsked(w, r, id, position, q);
    AskedIsReachable(w, r, id, position, q);
    AskedWorld(w, r, id, position, q);
    AnyReferencePasses(asked, ref);
    StepIsReachable(asked, OpReportCaptured(Claimed(asked, ref)));
    var durable := ReportCaptured(asked, Claimed(asked, ref)).0;
    ReleaseStage(durable);
    ReleaseIsReachable(durable);
  }

  // ---- a boot that never reported quiescence ----

  /** A worker that registers after the capture is the one the commit fences: from a reachable healthy world, whatever
      boot it registers under, although the quiescence report came from another. */
  lemma {:induction false} LateWorkerIsFenced(
    w: World, r: Request, id: u64, position: u64, q: QuiescenceReport, worker: u64, boot: u64)
    requires Reachable(w) && Healthy(w, r, id, q)
    ensures var end := DriveRelease(Reincarnate(DriveCapture(DriveToBoundary(w, r, id, position), q), worker, boot));
      && Reachable(end) && end.rt.lifecycle == Preempted && end.rt.fencedBoot == boot
      && (end.rt.fencedBoot == q.workerBoot <==> boot == w.rt.scope.workerBoot)
  {
    hide Reachable, Healthy, DriveToBoundary, DriveCapture, DriveRelease, Broker.NothingReserved, RestoreBytes;
    hide ReleaseAnswer;
    DurableWorld(w, r, id, position, q);
    ToBoundaryIsReachable(w, r, id, position);
    CaptureIsReachable(DriveToBoundary(w, r, id, position), q);
    var durable := DriveCapture(DriveToBoundary(w, r, id, position), q);
    StepIsReachable(durable, OpReincarnate(worker, boot));
    ReleaseStage(Reincarnate(durable, worker, boot));
    ReleaseIsReachable(Reincarnate(durable, worker, boot));
  }

  lemma {:induction false} DurableWorld(w: World, r: Request, id: u64, position: u64, q: QuiescenceReport)
    requires Healthy(w, r, id, q)
    ensures q.workerBoot == w.rt.scope.workerBoot
    ensures var durable := DriveCapture(DriveToBoundary(w, r, id, position), q);
      && durable.rt.lifecycle == StateDurable && durable.rt.boundary.quiesced && durable.rt.boundary.stateDurable
      && Frees(durable)
  {
    BoundaryReached(w, r, id, position);
    var w1 := DriveToBoundary(w, r, id, position);
    SameConditions(w, w1, q);
    hide DriveToBoundary, Accepts, Find, Captures, DriveCapture, Broker.NothingReserved;
    CaptureStage(w1, q);
  }

  // ---- a progress generation that falls ----

  /** Two durable publications from the coordinator's set-up. */
  function PublishedTwice(worker: u64, boot: u64): World {
    Publish(Publish(SetUp(worker, boot), 0, Durable).0, 0, Durable).0
  }

  /** A reachable runtime whose stored progress generation the recovered one undercuts with its next publication. */
  lemma {:induction false} GenerationFalls(worker: u64, boot: u64, at: World, position: u64)
    requires Fresh(at)
    ensures var w := PublishedTwice(worker, boot);
      var v := RestoreBytes(at, OwnImage(w.rt)).0;
      && Reachable(w) && SelfDecodes(w.rt) && w.rt.progress.durableGeneration == 2
      && Publish(v, position, Durable).1 == Published(true)
      && Publish(v, position, Durable).0.rt.progress.durableGeneration == 1
  {
    var w := PublishedTwice(worker, boot);
    PublishedWorld(worker, boot);
    hide PublishedTwice, Reachable, SelfDecodes, OwnImage, RestoreBytes, Publish;
    ReachableIsAttainable(w);
    RecoveredGenerationRegresses(w, at, position);
  }

  lemma {:induction false} PublishedWorld(worker: u64, boot: u64)
    ensures var w := PublishedTwice(worker, boot);
      Reachable(w) && SelfDecodes(w.rt) && w.rt.progress.durableGeneration == 2 && w.rt.progress.durable == 0
  {
    var s := SetUp(worker, boot);
    SetUpIsReachable(worker, boot);
    SetUpIsStorable(worker, boot);
    SetUpAuthority(worker, boot);
    hide SetUp, Reachable, SelfDecodes;
    var w1 := Publish(s, 0, Durable).0;
    StepIsReachable(s, OpPublish(0, Durable));
    StepIsReachable(w1, OpPublish(0, Durable));
    ExactlyRecoverable(PublishedTwice(worker, boot));
  }

  lemma {:induction false} SetUpAuthority(worker: u64, boot: u64)
    ensures var w := SetUp(worker, boot);
      && w.Authoritative() && w.env.authority.boot == w.rt.scope.workerBoot && w.rt.progress == Progress(0, 0, 0, 0)
      && w.rt.lifecycle == Invalid && !w.rt.boundary.stateDurable
  {
    hide COORDINATOR_ENVIRONMENT;
  }
}
