/** Drive a preemption, crash, recover from the image, resume: the drivers, the runs and the codec together. */
module EndToEnd {
  import opened Words
  import opened Lifecycle
  import opened Adapters
  import opened Domain
  import opened Store
  import opened Protocol
  import opened Runs
  import opened Recovery
  import opened Drivers

  // ---- reachable worlds ----

  lemma {:induction false} FreshIsReachable(w: World)
    requires Fresh(w)
    ensures Reachable(w)
  {
    hide Step, Fresh;
    var ws, ops: seq<Op> := [w], [];
    assert IsRun(ws, ops) && ws[|ops|] == w;
  }

  lemma {:induction false} StepIsReachable(w: World, op: Op)
    requires Reachable(w) && !Recovers(op)
    ensures Reachable(Step(w, op).0)
  {
    hide Step, Fresh, Recovers;
    var ws, ops :| IsRun(ws, ops) && Fresh(ws[0]) && RestoreFree(ops) && ws[|ops|] == w;
    var ws', ops' := ws + [Step(w, op).0], ops + [op];
    assert IsRun(ws', ops') && Fresh(ws'[0]) && RestoreFree(ops') && ws'[|ops'|] == Step(w, op).0;
  }

  /** What the preemption driver reaches, a run reaches. */
  lemma {:induction false} DrivenIsReachable(w: World, r: Request, id: u64, position: u64, q: QuiescenceReport)
    requires Reachable(w) && Find(w.rt.safePoints, id).Some?
    ensures Reachable(DrivePreemption(w, r, id, position, q).value)
  {
    hide Reachable, Find, DriveToBoundary, DriveCapture, DriveRelease;
    ToBoundaryIsReachable(w, r, id, position);
    var w1 := DriveToBoundary(w, r, id, position);
    CaptureIsReachable(w1, q);
    ReleaseIsReachable(DriveCapture(w1, q));
  }

  lemma {:induction false} ToBoundaryIsReachable(w: World, r: Request, id: u64, position: u64)
    requires Reachable(w)
    ensures Reachable(DriveToBoundary(w, r, id, position))
  {
    hide Reachable, RequestPreemption, BeginQuiesce, Reach;
    StepIsReachable(w, OpRequest(r));
    var w1 := RequestPreemption(w, r).0;
    StepIsReachable(w1, OpBeginQuiesce);
    var w2 := BeginQuiesce(w1).0;
    StepIsReachable(w2, OpReach(id, position, true));
    StepIsReachable(Reach(w2, id, position, true).0, OpBeginQuiesce);
  }

  lemma {:induction false} CaptureIsReachable(w: World, q: QuiescenceReport)
    requires Reachable(w)
    ensures Reachable(DriveCapture(w, q))
  {
    hide Reachable, ReportQuiesced, RequestCapture, ReportCaptured;
    StepIsReachable(w, OpReportQuiesced(q));
    StepIsReachable(ReportQuiesced(w, q).0, OpRequestCapture);
    var w1 := RequestCapture(ReportQuiesced(w, q).0).0;
    var last := w1.env.checkpoints.lastCapture;
    if last.Some? { StepIsReachable(w1, OpReportCaptured(last.value)); }
  }

  lemma {:induction false} ReleaseIsReachable(w: World)
    requires Reachable(w)
    ensures Reachable(DriveRelease(w))
  {
    hide Reachable, RequestRelease, ReportReleased, Commit;
    StepIsReachable(w, OpRequestRelease);
    StepIsReachable(RequestRelease(w).0, OpReportReleased);
    StepIsReachable(ReportReleased(RequestRelease(w).0).0, OpCommit);
  }

  // ---- a driven preemption survives a crash ----

  /** The same safe-point identifiers in the same order, the same history and the same epoch. */
  predicate KeepsRecords(w: World, w': World) {
    && SameIds(w.rt.safePoints, w'.rt.safePoints) && w'.rt.history == w.rt.history && w'.rt.epoch == w.rt.epoch
  }

  predicate SameIds(ps: seq<SafePoint>, qs: seq<SafePoint>) {
    |ps| == |qs| && forall i :: 0 <= i < |ps| ==> ps[i].id == qs[i].id
  }

  lemma {:induction false} DrivenRecords(w: World, r: Request, id: u64, position: u64, q: QuiescenceReport)
    requires Sorted(w.rt.safePoints) && Find(w.rt.safePoints, id).Some?
    ensures KeepsRecords(w, DrivePreemption(w, r, id, position, q).value)
  {
    hide DriveToBoundary, DriveCapture, DriveRelease, Find;
    BoundaryRecords(w, r, id, position);
    CaptureRecords(DriveToBoundary(w, r, id, position), q);
    ReleaseRecords(DriveCapture(DriveToBoundary(w, r, id, position), q));
  }

  /** Inserting a known point replaces it in place. */
  lemma {:induction false} InsertReplaces(ps: seq<SafePoint>, p: SafePoint)
    requires Sorted(ps) && Find(ps, p.id).Some?
    ensures SameIds(ps, Insert(ps, p))
    decreases |ps|
  {
    if ps[0].id != p.id {
      var found := Find(ps[1..], p.id).value;
      assert found in ps[1..];
      InsertReplaces(ps[1..], p);
    }
  }

  lemma {:induction false} ReachRecords(w: World, id: u64, position: u64, capture: bool)
    requires Sorted(w.rt.safePoints)
    ensures KeepsRecords(w, Reach(w, id, position, capture).0)
  {
    var found := Find(w.rt.safePoints, id);
    if found.Some? {
      InsertReplaces(w.rt.safePoints, found.value.(state := SpValid, position := position, captureRequired := capture));
    }
    hide Insert, Find, IsAllowed, Sorted;
  }

  lemma {:induction false} SameRecords(w: World, op: Op)
    requires !op.OpRestoreBytes? && !op.OpDeclare? && !op.OpReach? && !op.OpCancel?
    ensures Step(w, op).0.rt.safePoints == w.rt.safePoints && Step(w, op).0.rt.history == w.rt.history
    ensures Step(w, op).0.rt.epoch == w.rt.epoch && Step(w, op).0.rt.currentPoint == w.rt.currentPoint
  {
    StepFrame(w, op);
    StepRequests(w, op);
    hide Step, Accepts;
  }

  lemma {:induction false} BoundaryRecords(w: World, r: Request, id: u64, position: u64)
    requires Sorted(w.rt.safePoints)
    ensures KeepsRecords(w, DriveToBoundary(w, r, id, position))
  {
    hide RequestPreemption, BeginQuiesce, Reach;
    var w0 := RequestPreemption(w, r).0;
    var w1 := BeginQuiesce(w0).0;
    SameRecords(w, OpRequest(r));
    SameRecords(w0, OpBeginQuiesce);
    ReachRecords(w1, id, position, true);
    SameRecords(Reach(w1, id, position, true).0, OpBeginQuiesce);
  }

  lemma {:induction false} CaptureRecords(w: World, q: QuiescenceReport)
    ensures DriveCapture(w, q).rt.safePoints == w.rt.safePoints && DriveCapture(w, q).rt.history == w.rt.history
    ensures DriveCapture(w, q).rt.epoch == w.rt.epoch && DriveCapture(w, q).rt.currentPoint == w.rt.currentPoint
  {
    hide ReportQuiesced, RequestCapture, ReportCaptured;
    var w1 := ReportQuiesced(w, q).0;
    var w2 := RequestCapture(w1).0;
    SameRecords(w, OpReportQuiesced(q));
    SameRecords(w1, OpRequestCapture);
    if w2.env.checkpoints.lastCapture.Some? { SameRecords(w2, OpReportCaptured(w2.env.checkpoints.lastCapture.value)); }
  }

  lemma {:induction false} ReleaseRecords(w: World)
    ensures DriveRelease(w).rt.safePoints == w.rt.safePoints && DriveRelease(w).rt.history == w.rt.history
    ensures DriveRelease(w).rt.epoch == w.rt.epoch && DriveRelease(w).rt.currentPoint == w.rt.currentPoint
  {
    hide RequestRelease, ReportReleased, Commit;
    var w1 := RequestRelease(w).0;
    var w2 := ReportReleased(w1).0;
    SameRecords(w, OpRequestRelease);
    SameRecords(w1, OpReportReleased);
    SameRecords(w2, OpCommit);
  }

  /** Everything the driver needs to converge. */
  predicate Healthy(w: World, r: Request, id: u64, q: QuiescenceReport) {
    Accepts(w, OpRequest(r)) && Find(w.rt.safePoints, id).Some? && Quietens(w, q) && Captures(w) && Frees(w)
  }

  /** The boundary the driver commits names a usable checkpoint of the generation that was current. */
  lemma {:induction false} DrivenBoundary(w: World, r: Request, id: u64, position: u64, q: QuiescenceReport)
    requires Healthy(w, r, id, q)
    ensures DrivePreemption(w, r, id, position, q).Some?
    ensures var end := DrivePreemption(w, r, id, position, q).value;
      && end.rt.lifecycle == Preempted
      && end.rt.boundary.checkpointRef != 0 && end.rt.boundary.checkpointGen == w.env.checkpoints.currentGen != 0
  {
    PreemptionConverges(w, r, id, position, q);
    BoundaryReached(w, r, id, position);
    var w1 := DriveToBoundary(w, r, id, position);
    SameConditions(w, w1, q);
    CaptureStage(w1, q);
    ReleaseStage(DriveCapture(w1, q));
    hide DriveToBoundary, DriveCapture, DriveRelease, Find, Accepts, Quietens, Captures, Frees;
  }

  /** What a caller can check before driving: the image of what is there would fit, and every identifier is valid. */
  predicate Storable(rt: Runtime) {
    PayloadSize(Snapshot(rt)) < 0x1_0000_0000 && forall p :: p in rt.safePoints ==> p.id != 0
  }

  lemma {:induction false} KeptIsStorable(w: World, w': World)
    requires KeepsRecords(w, w')
    ensures Storable(w'.rt) <==> Storable(w.rt)
  {
    var ps, qs := w.rt.safePoints, w'.rt.safePoints;
    assert (forall p :: p in ps ==> p.id != 0) <==> forall i :: 0 <= i < |ps| ==> ps[i].id != 0;
    assert (forall p :: p in qs ==> p.id != 0) <==> forall i :: 0 <= i < |qs| ==> qs[i].id != 0;
  }

  /** A healthy preemption can be recovered exactly when its start could have been stored: from a reachable world the
      driver ends in a reachable world in Preempted, whose image decodes, to its snapshot, if and only if the safe
      points the driver found have valid identifiers and the payload of that moment fits. */
  lemma {:induction false} DrivenIsRecoverable(w: World, r: Request, id: u64, position: u64, q: QuiescenceReport)
    requires Reachable(w) && Healthy(w, r, id, q)
    ensures DrivePreemption(w, r, id, position, q).Some?
    ensures var end := DrivePreemption(w, r, id, position, q).value;
      && Reachable(end) && end.rt.lifecycle == Preempted
      && (SelfDecodes(end.rt) <==> Storable(w.rt))
      && (SelfDecodes(end.rt) ==> Decoded(OwnImage(end.rt)) == ImageOk(Snapshot(end.rt)))
  {
    ReachableFacts(w);
    hide Reachable, Decoded, OwnImage, Snapshot, PayloadSize, DrivePreemption, Find, Accepts, Quietens, Captures, Frees;
    hide Staged, Recorded, KeepsRecords, SelfDecodes;
    DrivenBoundary(w, r, id, position, q);
    DrivenIsReachable(w, r, id, position, q);
    DrivenRecords(w, r, id, position, q);
    var end := DrivePreemption(w, r, id, position, q).value;
    KeptIsStorable(w, end);
    ExactlyRecoverable(end);
    if SelfDecodes(end.rt) { AcceptedIsSnapshot(end.rt); }
  }

  /** A fresh runtime over any environment recovers rt's image, and then a worker registers. */
  function Restarted(rt: Runtime, env: Environment, worker: u64, boot: u64): World {
    Reincarnate(RecoveredFrom(rt, env), worker, boot)
  }

  lemma {:induction false} RestartedWorld(w: World, env: Environment, worker: u64, boot: u64)
    requires Attainable(w) && SelfDecodes(w.rt)
    ensures var v := Restarted(w.rt, env, worker, boot);
      && v.rt.lifecycle == w.rt.lifecycle && v.rt.boundary == w.rt.boundary && v.rt.scope.workerBoot == boot
      && v.env.checkpoints == env.checkpoints && v.env.dependency == env.dependency
  {
    RecoveredSnapshot(w, env);
    hide Attainable, SelfDecodes, RecoveredFrom, InsertAll;
  }

  /** A crash between preemption and resume. Whatever environment the image of a healthy preemption is recovered into,
      and whichever worker registers then, the resume ends in Resumed, with authority bound to that worker's boot, if
      and only if that environment validates the checkpoint of the preemption and no dependency blocks. */
  lemma {:induction false} CrashThenResume(
    w: World, r: Request, id: u64, position: u64, q: QuiescenceReport, env: Environment, worker: u64, boot: u64)
    requires Reachable(w) && Healthy(w, r, id, q) && Storable(w.rt)
    ensures DrivePreemption(w, r, id, position, q).Some?
    ensures var b := DrivePreemption(w, r, id, position, q).value.rt.boundary;
      var end := DriveResume(Restarted(DrivePreemption(w, r, id, position, q).value.rt, env, worker, boot));
      && (end.rt.lifecycle == Resumed <==>
            env.checkpoints.Validates(b.checkpointRef, b.checkpointGen) && !env.DependencyBlocks())
      && (end.rt.lifecycle == Resumed ==> end.Authoritative() && end.env.authority.boot == boot)
  {
    DrivenIsRecoverable(w, r, id, position, q);
    DrivenBoundary(w, r, id, position, q);
    hide Reachable, SelfDecodes, Restarted, Snapshot, PayloadSize, DrivePreemption, DriveResume, Healthy, Decoded;
    hide Storable, Attainable, Checkpoints.Validates;
    var end := DrivePreemption(w, r, id, position, q).value;
    ReachableIsAttainable(end);
    RestartedWorld(end, env, worker, boot);
    ResumeEnds(Restarted(end.rt, env, worker, boot));
  }

  // ---- the coordinator's own set-up ----

  const ALL_QUIET: map<QuiescenceCategory, bool> := map c | c in CATEGORIES :: true

  const COORDINATOR_ENVIRONMENT: Environment := FRESH_ENVIRONMENT.(
    quiet := ALL_QUIET, broker := FRESH_ENVIRONMENT.broker.Contracted(20, 1, [Lease(DeviceMemory, 100)]),
    dependency := Current)

  const SAFE_POINT: u64 := 80

  function ScopeOf(boot: u64): Scope {
    Scope(10, 1, 20, 1, 30, 1, 40, boot)
  }

  function DeclaredBy(worker: u64, boot: u64): SafePoint {
    SafePoint(SAFE_POINT, 1, 20, 30, worker, boot, 0, false, true, SpDeclared, 0)
  }

  function RequestOf(boot: u64): Request {
    Request(1000, 1, 20, 1, 30, 1, 100, boot)
  }

  /** Register the worker, start the execution, declare its safe point. */
  function SetUp(worker: u64, boot: u64): World {
    var w := World(FreshRuntime(100, 1), COORDINATOR_ENVIRONMENT);
    Declare(Start(Reincarnate(w, worker, boot), ScopeOf(boot)), DeclaredBy(worker, boot)).0
  }

  lemma {:induction false} SetUpIsReachable(worker: u64, boot: u64)
    ensures Reachable(SetUp(worker, boot))
  {
    var w := World(FreshRuntime(100, 1), COORDINATOR_ENVIRONMENT);
    assert Fresh(w);
    hide Reachable, Fresh, FreshRuntime, Reincarnate, Start, Declare, COORDINATOR_ENVIRONMENT;
    FreshIsReachable(w);
    StepIsReachable(w, OpReincarnate(worker, boot));
    var w1 := Reincarnate(w, worker, boot);
    StepIsReachable(w1, OpStart(ScopeOf(boot)));
    StepIsReachable(Start(w1, ScopeOf(boot)), OpDeclare(DeclaredBy(worker, boot)));
  }

  lemma {:induction false} SetUpRecords(worker: u64, boot: u64)
    ensures SetUp(worker, boot).rt.safePoints == [DeclaredBy(worker, boot)] && SetUp(worker, boot).rt.history == []
    ensures SetUp(worker, boot).env.(authority := COORDINATOR_ENVIRONMENT.authority) == COORDINATOR_ENVIRONMENT
    ensures Accepts(SetUp(worker, boot), OpRequest(RequestOf(boot)))
  {
    hide COORDINATOR_ENVIRONMENT;
  }

  lemma EverythingQuiet(env: Environment)
    requires env.quiet == ALL_QUIET
    ensures env.AllQuiet()
  {
    CategoriesComplete();
  }

  lemma {:induction false} SetUpIsHealthy(worker: u64, boot: u64)
    ensures Healthy(SetUp(worker, boot), RequestOf(boot), SAFE_POINT, QuiescenceReport(1, boot, true))
  {
    var w := SetUp(worker, boot);
    SetUpRecords(worker, boot);
    EverythingQuiet(w.env);
    assert w.rt.scope == ScopeOf(boot) && w.rt.boundary.checkpointGen == 0;
    hide SetUp, Environment.AllQuiet, Accepts, ALL_QUIET;
    assert Find(w.rt.safePoints, SAFE_POINT).Some?;
  }

  /** The world the coordinator's driver reaches from its set-up. */
  function Driven(worker: u64, boot: u64, position: u64): Option<World> {
    DrivePreemption(SetUp(worker, boot), RequestOf(boot), SAFE_POINT, position, QuiescenceReport(1, boot, true))
  }

  lemma {:induction false} SetUpIsStorable(worker: u64, boot: u64)
    ensures Storable(SetUp(worker, boot).rt)
  {
    SetUpRecords(worker, boot);
    hide SetUp;
  }

  lemma {:induction false} DrivenFacts(worker: u64, boot: u64, position: u64)
    ensures Driven(worker, boot, position).Some?
    ensures var end := Driven(worker, boot, position).value;
      && Reachable(end) && end.rt.lifecycle == Preempted && SelfDecodes(end.rt) && end.rt.epoch == 100
      && end.rt.boundary.checkpointGen == COORDINATOR_ENVIRONMENT.checkpoints.currentGen
      && end.rt.boundary.checkpointRef != 0
  {
    var w, r, q := SetUp(worker, boot), RequestOf(boot), QuiescenceReport(1, boot, true);
    SetUpIsReachable(worker, boot);
    SetUpRecords(worker, boot);
    SetUpIsHealthy(worker, boot);
    SetUpIsStorable(worker, boot);
    assert w.rt.epoch == 100 && w.env.checkpoints == COORDINATOR_ENVIRONMENT.checkpoints;
    ReachableFacts(w);
    hide SetUp, Reachable, SelfDecodes, DrivePreemption, COORDINATOR_ENVIRONMENT, Storable, Staged, Recorded;
    hide Accepts, Find, Quietens, Captures, Frees;
    DrivenBoundary(w, r, SAFE_POINT, position, q);
    DrivenIsRecoverable(w, r, SAFE_POINT, position, q);
    DrivenRecords(w, r, SAFE_POINT, position, q);
  }

  /** The coordinator survives its own restart. From its set-up the driver preempts, for every worker, boot and
      position, and the image it saves decodes. A restarted coordinator builds its adapters anew, loads that image and
      registers whichever worker connects, under whichever boot: its resume ends in Resumed, with authority bound to
      the new boot. */
  lemma {:induction false} CoordinatorSurvivesRestart(
    worker: u64, boot: u64, position: u64, worker': u64, boot': u64)
    ensures Driven(worker, boot, position).Some?
    ensures var end := Driven(worker, boot, position).value;
      && end.rt.lifecycle == Preempted && Decoded(OwnImage(end.rt)) == ImageOk(Snapshot(end.rt))
    ensures var end := DriveResume(
        Restarted(Driven(worker, boot, position).value.rt, COORDINATOR_ENVIRONMENT, worker', boot'));
      end.rt.lifecycle == Resumed && end.Authoritative() && end.env.authority.boot == boot'
  {
    hide SetUp, Reachable, SelfDecodes, Decoded, OwnImage, Snapshot, DrivePreemption, DriveResume, Restarted, Healthy;
    hide Storable, COORDINATOR_ENVIRONMENT, Checkpoints.Validates, Environment.DependencyBlocks;
    DrivenFacts(worker, boot, position);
    SetUpIsReachable(worker, boot);
    SetUpIsHealthy(worker, boot);
    SetUpIsStorable(worker, boot);
    var end := Driven(worker, boot, position).value;
    AcceptedIsSnapshot(end.rt);
    CoordinatorValidates(end.rt.boundary.checkpointRef);
    CrashThenResume(SetUp(worker, boot), RequestOf(boot), SAFE_POINT, position, QuiescenceReport(1, boot, true),
                    COORDINATOR_ENVIRONMENT, worker', boot');
  }

  lemma {:induction false} CoordinatorValidates(ref: u64)
    requires ref != 0
    ensures var cp := COORDINATOR_ENVIRONMENT.checkpoints; cp.Validates(ref, cp.currentGen)
    ensures !COORDINATOR_ENVIRONMENT.DependencyBlocks()
  {
  }
}
