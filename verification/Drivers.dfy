/** The coordinator's drivers (src/coordinator/coordinator.cpp) over the protocol: when a preemption converges, and
    when the reported resume blockers tell the truth. */
module Drivers {
  import opened Words
  import opened Lifecycle
  import opened Adapters
  import opened Domain
  import opened Protocol
  import opened Runs

  // ---- driving a preemption ----

  /** Request, begin, reach the safe point with capture, begin again. */
  function DriveToBoundary(w: World, r: Request, id: u64, position: u64): World {
    var w1 := BeginQuiesce(RequestPreemption(w, r).0).0;
    BeginQuiesce(Reach(w1, id, position, true).0).0
  }

  /** Report the worker's quiescence, capture, and hand the last capture back. */
  function DriveCapture(w: World, q: QuiescenceReport): World {
    var w1 := RequestCapture(ReportQuiesced(w, q).0).0;
    match w1.env.checkpoints.lastCapture
    case None => w1
    case Some(c) => ReportCaptured(w1, c).0
  }

  function DriveRelease(w: World): World {
    Commit(ReportReleased(RequestRelease(w).0).0).0
  }

  /** What the commit at the end answers. */
  function ReleaseAnswer(w: World): Reply {
    Commit(ReportReleased(RequestRelease(w).0).0).1
  }

  /** None where reaching an unknown safe point throws. */
  function DrivePreemption(w: World, r: Request, id: u64, position: u64, q: QuiescenceReport): Option<World> {
    if Find(w.rt.safePoints, id).None? then None
    else Some(DriveRelease(DriveCapture(DriveToBoundary(w, r, id, position), q)))
  }

  /** What the driver is answered in the end. */
  function PreemptionAnswer(w: World, r: Request, id: u64, position: u64, q: QuiescenceReport): Option<Reply> {
    if Find(w.rt.safePoints, id).None? then None
    else Some(ReleaseAnswer(DriveCapture(DriveToBoundary(w, r, id, position), q)))
  }

  // ---- what the environment must provide ----

  predicate Quietens(w: World, q: QuiescenceReport) {
    q.workerBoot == w.rt.scope.workerBoot && q.fullyQuiesced && w.env.AllQuiet()
  }

  /** A capture asked for now will be verified: it succeeds under a usable reference, and the generation it is asked
      for is the store's current one. */
  predicate Captures(w: World) {
    var cp := w.env.checkpoints;
    && cp.captureSucceeds && cp.valid && WrapAdd(cp.captureCount, 1) != 0
    && Next(w.rt.boundary.checkpointGen) == cp.currentGen
  }

  /** The contract belongs to this execution, or nothing is reserved under it. */
  predicate Frees(w: World) {
    w.rt.scope.executionId == w.env.broker.execution || w.env.broker.NothingReserved()
  }

  // ---- the stages ----

  predicate SameSurroundings(w: World, w': World) {
    && w'.rt.scope == w.rt.scope && w'.rt.boundary == w.rt.boundary
    && w'.env.checkpoints == w.env.checkpoints && w'.env.broker == w.env.broker && w'.env.quiet == w.env.quiet
    && w'.env.dependency == w.env.dependency
  }

  /** Whether or not a safe point had been reached before, the driver quiesces at one that asks for capture. */
  lemma {:induction false} BoundaryReached(w: World, r: Request, id: u64, position: u64)
    requires Accepts(w, OpRequest(r)) && Find(w.rt.safePoints, id).Some?
    ensures var w' := DriveToBoundary(w, r, id, position);
      w'.rt.lifecycle == Quiescing && w'.rt.CaptureRequiredHere() && SameSurroundings(w, w')
  {
    PreemptionPaths();
    hide Walk, IsAllowed, Find, Insert, HasAuthority;
  }

  /** State is durable after the capture stage exactly when the quiescence and the capture are good. */
  lemma {:induction false} CaptureStage(w: World, q: QuiescenceReport)
    requires w.rt.lifecycle == Quiescing && w.rt.CaptureRequiredHere()
    ensures var w' := DriveCapture(w, q);
      && w'.rt.scope == w.rt.scope && w'.env.broker == w.env.broker && w'.env.dependency == w.env.dependency
      && (w'.rt.lifecycle == StateDurable || w'.rt.lifecycle == Quiescing || w'.rt.lifecycle == Failed)
      && (w'.rt.lifecycle == StateDurable <==> Quietens(w, q) && Captures(w))
      && (w'.rt.lifecycle == StateDurable ==> w'.rt.boundary.quiesced && w'.rt.boundary.stateDurable)
      && (w'.rt.lifecycle == StateDurable ==>
            w'.rt.boundary.checkpointRef != 0 && w'.rt.boundary.checkpointGen == w.env.checkpoints.currentGen != 0)
      && (w'.rt.lifecycle == StateDurable ==> w'.CheckpointCurrent())
  {
    PreemptionPaths();
    ReleasePaths();
    hide Walk, IsAllowed, Environment.AllQuiet;
  }

  lemma {:induction false} ReleaseStage(w: World)
    requires w.rt.lifecycle == StateDurable || w.rt.lifecycle == ReleasePending
    requires w.rt.boundary.quiesced && w.rt.boundary.stateDurable
    ensures var w' := DriveRelease(w);
      && (w'.rt.lifecycle == Preempted <==> Frees(w))
      && (ReleaseAnswer(w) == Result(SafePreemptionCompleted, Preempted) <==> Frees(w))
      && w'.rt.boundary == w.rt.boundary.(resourcesReleased := w'.rt.boundary.resourcesReleased)
      && w'.env.checkpoints == w.env.checkpoints && w'.env.dependency == w.env.dependency
      && w'.rt.scope == w.rt.scope
      && (w'.rt.lifecycle == Preempted ==>
            w'.rt.boundary.resourcesReleased && w'.rt.fencedBoot == w.rt.scope.workerBoot)
  {
    ReleasePaths();
    ReleaseLoopEmpties(w.env.broker, w.rt.scope.executionId);
    hide Walk, IsAllowed, Broker.ReleaseEach, Broker.Leases, Broker.NothingReserved;
  }

  lemma {:induction false} ReleaseRefused(w: World)
    requires w.rt.lifecycle == Quiescing || w.rt.lifecycle == Failed
    ensures DriveRelease(w) == w && ReleaseAnswer(w) == Result(CannotPreemptSafely, w.rt.lifecycle)
  {
    hide Walk, IsAllowed, Broker.ReleaseEach, Broker.Leases, Broker.NothingReserved;
  }

  /** Convergence, exactly: from any world in which the request is admitted, the driver ends in Preempted if and only
      if the safe point is declared, the worker of the current boot is fully quiet, the capture can be verified and the
      contract can be freed; and it is then, and only then, that the driver is told so. */
  lemma {:induction false} PreemptionConverges(w: World, r: Request, id: u64, position: u64, q: QuiescenceReport)
    requires Accepts(w, OpRequest(r))
    ensures var end := DrivePreemption(w, r, id, position, q);
      end.Some? && end.value.rt.lifecycle == Preempted <==>
      Find(w.rt.safePoints, id).Some? && Quietens(w, q) && Captures(w) && Frees(w)
    ensures PreemptionAnswer(w, r, id, position, q) == Some(Result(SafePreemptionCompleted, Preempted)) <==>
      Find(w.rt.safePoints, id).Some? && Quietens(w, q) && Captures(w) && Frees(w)
  {
    hide DriveToBoundary, DriveCapture, DriveRelease, Find, Accepts, ReleaseAnswer;
    if Find(w.rt.safePoints, id).Some? {
      BoundaryReached(w, r, id, position);
      var w1 := DriveToBoundary(w, r, id, position);
      CaptureStage(w1, q);
      var w2 := DriveCapture(w1, q);
      if w2.rt.lifecycle == StateDurable { ReleaseStage(w2); } else { ReleaseRefused(w2); }
      hide Broker.NothingReserved, Environment.AllQuiet, WrapAdd, Next;
      SameConditions(w, w1, q);
    }
  }

  lemma {:induction false} SameConditions(w: World, w': World, q: QuiescenceReport)
    requires SameSurroundings(w, w')
    ensures Quietens(w, q) == Quietens(w', q) && Captures(w) == Captures(w') && Frees(w) == Frees(w')
  {
  }

  // ---- a new execution at an old safe point ----

  /** Start an execution and drive its preemption without reaching a safe point. */
  function BeginWithoutReach(w: World, scope: Scope, r: Request): World {
    BeginQuiesce(RequestPreemption(Start(w, scope), r).0).0
  }

  /** Starting an execution does not leave the safe point: from any world at a valid one, the next execution quiesces
      there at once. */
  lemma {:induction false} StaleBoundary(w: World, scope: Scope, r: Request)
    requires w.rt.AtValidBoundary() && Accepts(Start(w, scope), OpRequest(r))
    ensures var w' := BeginWithoutReach(w, scope, r);
      w'.rt.lifecycle == Quiescing && w'.rt.currentPoint == w.rt.currentPoint && SameSurroundings(Start(w, scope), w')
  {
    PreemptionPaths();
    hide Walk, IsAllowed, HasAuthority;
  }

  /** At a point that needs no capture the state counts as durable at once, under whatever checkpoint is on record. */
  lemma {:induction false} NoCaptureStage(w: World, q: QuiescenceReport)
    requires w.rt.lifecycle == Quiescing && !w.rt.CaptureRequiredHere()
    ensures var w' := DriveCapture(w, q);
      && w'.rt.scope == w.rt.scope && w'.env == w.env && w'.rt.currentPoint == w.rt.currentPoint
      && w'.rt.boundary.checkpointRef == w.rt.boundary.checkpointRef
      && w'.rt.boundary.checkpointGen == w.rt.boundary.checkpointGen
      && w'.rt.boundary.resourcesReleased == w.rt.boundary.resourcesReleased
      && w'.rt.lifecycle == (if Quietens(w, q) then ReleasePending else Quiescing)
      && (Quietens(w, q) ==> w'.rt.boundary.quiesced && w'.rt.boundary.stateDurable)
  {
    PreemptionPaths();
    ReleasePaths();
    hide Walk, IsAllowed, Environment.AllQuiet;
  }

  /** So an execution can be preempted without ever reaching a safe point of its own: exactly when the worker is quiet,
      the capture, if the old point demands one, can be verified, and the contract can be freed. */
  lemma {:induction false} StalePreemption(w: World, scope: Scope, r: Request, q: QuiescenceReport)
    requires w.rt.AtValidBoundary() && Accepts(Start(w, scope), OpRequest(r))
    ensures var s := Start(w, scope);
      DriveRelease(DriveCapture(BeginWithoutReach(w, scope, r), q)).rt.lifecycle == Preempted <==>
        Quietens(s, q) && (w.rt.CaptureRequiredHere() ==> Captures(s)) && Frees(s)
  {
    StaleBoundary(w, scope, r);
    var w1 := BeginWithoutReach(w, scope, r);
    SameConditions(Start(w, scope), w1, q);
    if w.rt.CaptureRequiredHere() { CaptureStage(w1, q); } else { NoCaptureStage(w1, q); }
    hide DriveCapture, DriveRelease, ReleaseAnswer, BeginWithoutReach, Start, Accepts, Captures, Quietens;
    hide Broker.NothingReserved;
    var w2 := DriveCapture(w1, q);
    if w2.rt.lifecycle == StateDurable || w2.rt.lifecycle == ReleasePending {
      ReleaseStage(w2);
    } else {
      ReleaseRefused(w2);
    }
  }

  // ---- a preemption without capture ----

  /** Reach a safe point that needs no capture, request, begin. */
  function BeginUncaptured(w: World, r: Request, id: u64, position: u64): World {
    BeginQuiesce(RequestPreemption(Reach(w, id, position, false).0, r).0).0
  }

  lemma {:induction false} UncapturedBoundary(w: World, r: Request, id: u64, position: u64)
    requires Accepts(w, OpRequest(r)) && Find(w.rt.safePoints, id).Some?
    ensures var w' := BeginUncaptured(w, r, id, position);
      w'.rt.lifecycle == Quiescing && !w'.rt.CaptureRequiredHere() && SameSurroundings(w, w')
  {
    PreemptionPaths();
    hide Walk, IsAllowed, Find, Insert;
  }

  // ---- driving a resume ----

  function DriveResume(w: World): World {
    ConfirmResumed(RestoreCheckpoint(Revalidate(RequestResume(w).0).0).0).0
  }

  /** What the confirmation at the end answers. */
  function ResumeAnswer(w: World): Reply {
    ConfirmResumed(RestoreCheckpoint(Revalidate(RequestResume(w).0).0).0).1
  }

  /** Where the resume driver ends, from Preempted, and what it is told. */
  lemma {:induction false} ResumeEnds(w: World)
    requires w.rt.lifecycle == Preempted
    ensures DriveResume(w).rt.lifecycle ==
      if !w.CheckpointCurrent() then Failed else if w.env.DependencyBlocks() then Revalidating else Resumed
    ensures ResumeAnswer(w) ==
      if DriveResume(w).rt.lifecycle == Resumed then Result(SafePreemptionCompleted, Resumed)
      else Result(CannotPreemptSafely, DriveResume(w).rt.lifecycle)
    ensures DriveResume(w).rt.lifecycle == Resumed ==>
      DriveResume(w).Authoritative() && DriveResume(w).env.authority.boot == w.rt.scope.workerBoot
  {
    ResumePaths();
    var w1 := RequestResume(w).0;
    assert w1.rt.lifecycle == ResumePending && w1.rt.boundary == w.rt.boundary && w1.env == w.env;
    RevalidateEnds(w1);
    var w2 := Revalidate(w1).0;
    RestoreEnds(w2);
    hide Walk, IsAllowed, RequestResume, Revalidate, RestoreCheckpoint, Checkpoints.Validates;
  }

  lemma {:induction false} RevalidateEnds(w: World)
    requires w.rt.lifecycle == ResumePending
    ensures Revalidate(w).0 == w.At(
      if !w.CheckpointCurrent() then Failed else if w.env.DependencyBlocks() then Revalidating else Restoring)
  {
    ResumePaths();
    hide Walk, IsAllowed, World.CheckpointCurrent, Environment.DependencyBlocks;
  }

  lemma {:induction false} RestoreEnds(w: World)
    ensures RestoreCheckpoint(w).0 ==
      if w.rt.lifecycle != Restoring then w else w.At(if w.CheckpointCurrent() then ResumeReady else Failed)
  {
    ResumePaths();
    hide Walk, IsAllowed, World.CheckpointCurrent;
  }

  /** The explanation is sound and complete. In Preempted, and with no change of the environment, the resume driver
      ends in Resumed if and only if the only reported entry is eligibility, or the absence of a checkpoint, which
      never blocks anything. */
  lemma {:induction false} BlockersTellTheTruth(w: World)
    requires Sound(w.rt) && w.rt.lifecycle == Preempted
    ensures DriveResume(w).rt.lifecycle == Resumed <==>
      ResumeBlockers(w) == [Eligible] || ResumeBlockers(w) == [CheckpointMissing]
    ensures w.rt.boundary.checkpointRef != 0 ==>
      (DriveResume(w).rt.lifecycle == Resumed <==> ResumeBlockers(w) == [Eligible])
    ensures CheckpointStale in ResumeBlockers(w) <==> DriveResume(w).rt.lifecycle == Failed
  {
    ResumeEnds(w);
    hide DriveResume, Sorted, Checkpoints.Validates;
    BlockersListed(w);
    hide ResumeBlockers;
  }

  lemma {:induction false} BlockersListed(w: World)
    requires Sound(w.rt) && w.rt.lifecycle == Preempted
    ensures ResumeBlockers(w) == [Eligible] <==>
      w.rt.boundary.checkpointRef != 0 && w.CheckpointCurrent() && !w.env.DependencyBlocks()
    ensures ResumeBlockers(w) == [CheckpointMissing] <==> w.rt.boundary.checkpointRef == 0 && !w.env.DependencyBlocks()
    ensures CheckpointStale in ResumeBlockers(w) <==> !w.CheckpointCurrent()
  {
    hide Sorted, Checkpoints.Validates;
    var missing := if w.rt.boundary.checkpointRef == 0 then [CheckpointMissing] else [];
    var stale := if !w.CheckpointCurrent() then [CheckpointStale] else [];
    var blocked :=
      if w.env.dependency == Stale then [DependencyStale]
      else if w.env.dependency == Missing then [DependencyMissing] else [];
    var out := missing + stale + blocked;
    assert [] + [] + missing + stale + blocked == out;
    assert ResumeBlockers(w) == if out == [] then [Eligible] else out;
    hide ResumeBlockers;
    assert missing != [] ==> stale == [] && out[0] == CheckpointMissing;
    assert missing == [] && stale != [] ==> out[0] == CheckpointStale;
    assert missing == [] && stale == [] ==> out == blocked;
    if stale == [] { assert out == missing + blocked; }
  }

  /** A converged preemption can be resumed at once exactly when no dependency blocks it. */
  lemma {:induction false} PreemptThenResume(w: World, r: Request, id: u64, position: u64, q: QuiescenceReport)
    requires Accepts(w, OpRequest(r)) && Find(w.rt.safePoints, id).Some? && Quietens(w, q) && Captures(w) && Frees(w)
    ensures var end := DriveResume(DrivePreemption(w, r, id, position, q).value);
      end.rt.lifecycle == Resumed <==> !w.env.DependencyBlocks()
  {
    PreemptionConverges(w, r, id, position, q);
    BoundaryReached(w, r, id, position);
    var w1 := DriveToBoundary(w, r, id, position);
    SameConditions(w, w1, q);
    CaptureStage(w1, q);
    ReleaseStage(DriveCapture(w1, q));
    ResumeEnds(DrivePreemption(w, r, id, position, q).value);
    hide DriveToBoundary, DriveCapture, DriveRelease, DriveResume, Find, Accepts, Quietens, Captures, Frees;
  }

  /** Assessment predicts quiescing: in Assessing it is immediate exactly when the assessment does not defer. */
  lemma {:induction false} AssessmentPredicts(w: World)
    requires w.rt.lifecycle == Assessing
    ensures BeginQuiesce(w).0.rt.lifecycle == Quiescing <==>
      Assess(w.rt).class_ == PreemptibleNow || Assess(w.rt).class_ == PreemptibleAfterStateCapture
    ensures BeginQuiesce(w).0.rt.lifecycle == WaitingForSafePoint <==>
      Assess(w.rt).class_ == PreemptibleAtSafePoint || Assess(w.rt).class_ == UnknownPreemptibility
  {
    PreemptionPaths();
    hide Walk, IsAllowed;
  }
}
