/** What every run of the protocol keeps: runs are any sequence of operations and environment changes, from a
    fresh runtime in any environment. */
module Runs {
  import opened Words
  import opened Lifecycle
  import opened Adapters
  import opened Domain
  import opened Store
  import opened Protocol

  // ---- runs ----

  ghost predicate IsRun(ws: seq<World>, ops: seq<Op>) {
    && |ws| == |ops| + 1
    && forall i :: 0 <= i < |ops| ==> ws[i + 1] == Step(ws[i], ops[i]).0
  }

  predicate Fresh(w: World) {
    w.rt == FreshRuntime(w.rt.epoch, w.rt.policy)
  }

  /** The operation restores an image that decodes; a rejected one changes nothing. */
  predicate Recovers(op: Op) {
    op.OpRestoreBytes? && Decoded(op.bytes).ImageOk?
  }

  predicate RestoreFree(ops: seq<Op>) {
    forall i :: 0 <= i < |ops| ==> !Recovers(ops[i])
  }

  /** The request is admitted as the new active one. */
  predicate Accepts(w: World, op: Op) {
    && op.OpRequest? && op.request.id != 0 && op.request.generation != 0
    && HasAuthority(w.rt, op.request) && w.rt.active.None?
  }

  // ---- one step, as the lifecycle sees it ----

  lemma PreemptionEdges()
    ensures IsAllowed(Requested, ValidatingAuthority) && IsAllowed(ValidatingAuthority, Assessing)
    ensures IsAllowed(SafePointReached, Quiescing) && IsAllowed(Assessing, Quiescing) && !IsAllowed(Deferred, Quiescing)
    ensures IsAllowed(Assessing, WaitingForSafePoint) && IsAllowed(Deferred, WaitingForSafePoint)
    ensures IsAllowed(WaitingForSafePoint, SafePointReached) && IsAllowed(Quiescing, Quiesced)
  {
  }

  lemma ReleaseEdges()
    ensures IsAllowed(Quiesced, ReleasePending) && IsAllowed(Quiesced, CaptureRequired)
    ensures IsAllowed(CaptureRequired, CapturingState) && IsAllowed(CapturingState, Failed)
    ensures IsAllowed(CapturingState, StateDurable) && IsAllowed(StateDurable, ReleasePending)
    ensures IsAllowed(ReleasePending, Releasing) && IsAllowed(Releasing, ResourcesReleased)
    ensures IsAllowed(ResourcesReleased, Preempted)
  {
  }

  lemma ResumeEdges()
    ensures IsAllowed(Preempted, ResumePending) && IsAllowed(ResumePending, Revalidating)
    ensures IsAllowed(Revalidating, Restoring) && IsAllowed(Revalidating, Failed)
    ensures IsAllowed(Restoring, Failed) && IsAllowed(Restoring, ResumeReady)
    ensures IsAllowed(ResumeReady, Resuming) && IsAllowed(Resuming, Resumed)
  {
  }

  /** Every path the operations ask the machine to take, and the one that is refused. */
  lemma PreemptionPaths()
    ensures Walk(Requested, [ValidatingAuthority, Assessing]) == (Assessing, true)
    ensures Walk(SafePointReached, [Quiescing]) == (Quiescing, true)
    ensures Walk(Assessing, [Quiescing]) == (Quiescing, true)
    ensures Walk(Deferred, [Quiescing]) == (Deferred, false)
    ensures Walk(Assessing, [WaitingForSafePoint]) == (WaitingForSafePoint, true)
    ensures Walk(Deferred, [WaitingForSafePoint]) == (WaitingForSafePoint, true)
    ensures Walk(Quiescing, [Quiesced]) == (Quiesced, true)
    ensures IsAllowed(WaitingForSafePoint, SafePointReached)
  {
    hide *;
    PreemptionEdges();
    WalkTwo(Requested, ValidatingAuthority, Assessing);
    WalkOne(SafePointReached, Quiescing);
    WalkOne(Assessing, Quiescing);
    WalkOne(Deferred, Quiescing);
    WalkOne(Assessing, WaitingForSafePoint);
    WalkOne(Deferred, WaitingForSafePoint);
    WalkOne(Quiescing, Quiesced);
  }

  lemma ReleasePaths()
    ensures Walk(Quiesced, [ReleasePending]) == (ReleasePending, true)
    ensures Walk(Quiesced, [CaptureRequired, CapturingState]) == (CapturingState, true)
    ensures Walk(CapturingState, [Failed]) == (Failed, true)
    ensures Walk(CapturingState, [StateDurable]) == (StateDurable, true)
    ensures Walk(StateDurable, [ReleasePending, Releasing]) == (Releasing, true)
    ensures Walk(ReleasePending, [Releasing]) == (Releasing, true)
    ensures Walk(Releasing, [ResourcesReleased]) == (ResourcesReleased, true)
    ensures Walk(ResourcesReleased, [Preempted]) == (Preempted, true)
  {
    hide *;
    ReleaseEdges();
    WalkOne(Quiesced, ReleasePending);
    WalkTwo(Quiesced, CaptureRequired, CapturingState);
    WalkOne(CapturingState, Failed);
    WalkOne(CapturingState, StateDurable);
    WalkTwo(StateDurable, ReleasePending, Releasing);
    WalkOne(ReleasePending, Releasing);
    WalkOne(Releasing, ResourcesReleased);
    WalkOne(ResourcesReleased, Preempted);
  }

  lemma ResumePaths()
    ensures Walk(Preempted, [ResumePending]) == (ResumePending, true)
    ensures Walk(ResumePending, [Revalidating]) == (Revalidating, true)
    ensures Walk(ResumePending, [Revalidating] + [Failed]) == (Failed, true)
    ensures Walk(ResumePending, [Revalidating] + [Restoring]) == (Restoring, true)
    ensures Walk(Revalidating, []) == (Revalidating, true)
    ensures Walk(Revalidating, [] + [Failed]) == (Failed, true)
    ensures Walk(Revalidating, [] + [Restoring]) == (Restoring, true)
    ensures Walk(Restoring, [Failed]) == (Failed, true)
    ensures Walk(Restoring, [ResumeReady]) == (ResumeReady, true)
    ensures Walk(ResumeReady, [Resuming, Resumed]) == (Resumed, true)
    ensures Walk(Resuming, [Resumed]) == (Resumed, true)
  {
    ResumeEdges();
    assert Walk(Revalidating, []) == (Revalidating, true);
    hide *;
    WalkOne(Preempted, ResumePending);
    WalkOne(ResumePending, Revalidating);
    WalkTwo(ResumePending, Revalidating, Failed);
    WalkTwo(ResumePending, Revalidating, Restoring);
    WalkOne(Revalidating, Failed);
    WalkOne(Revalidating, Restoring);
    WalkOne(Restoring, Failed);
    WalkOne(Restoring, ResumeReady);
    WalkTwo(ResumeReady, Resuming, Resumed);
    WalkOne(Resuming, Resumed);
    assert [Revalidating] + [Failed] == [Revalidating, Failed];
    assert [Revalidating] + [Restoring] == [Revalidating, Restoring];
    assert [] + [Failed] == [Failed];
    assert [] + [Restoring] == [Restoring];
  }

  /** Revalidation without its paths. */
  lemma {:induction false} RevalidateForm(w: World)
    ensures var s := w.rt.lifecycle;
      Revalidate(w) ==
        if s != ResumePending && s != Revalidating then (w, Result(CannotPreemptSafely, s))
        else if !w.CheckpointCurrent() then (w.At(Failed), Result(PreemptionFailed, s))
        else if w.env.DependencyBlocks() then (w.At(Revalidating), Result(CannotPreemptSafely, Revalidating))
        else (w.At(Restoring), Result(SafePreemptionCompleted, Restoring))
  {
    ResumePaths();
    hide Walk, IsAllowed, World.CheckpointCurrent, Environment.DependencyBlocks;
  }

  /** The capture request without its paths. */
  lemma {:induction false} CaptureForm(w: World)
    ensures var b, cp := w.rt.boundary, w.env.checkpoints;
      RequestCapture(w) ==
        if w.rt.lifecycle != Quiesced then (w, Result(CannotPreemptSafely, w.rt.lifecycle))
        else if w.rt.CaptureRequiredHere()
        then (World(w.rt.(lifecycle := CapturingState), w.env.(checkpoints := cp.Captured(Next(b.checkpointGen)))),
              Result(StateCaptureRequired, CapturingState))
        else (w.(rt := w.rt.(lifecycle := ReleasePending, boundary := b.(stateDurable := true))),
              Result(StateCaptureRequired, ReleasePending))
  {
    ReleasePaths();
    hide Walk, IsAllowed, Runtime.CaptureRequiredHere, Checkpoints.Captured;
  }

  /** The evidence an operation needs to move the lifecycle, and where it moves it: the protocol as a graph of
      guarded edges. None where the operation leaves the state alone. */
  function Edge(w: World, op: Op): Option<LifecycleState> {
    var s, b, cp := w.rt.lifecycle, w.rt.boundary, w.env.checkpoints;
    match op
    case OpStart(_) => Some(Invalid)
    case OpRequest(_) => if Accepts(w, op) then Some(Assessing) else None
    case OpReach(id, _, _) =>
      if s == WaitingForSafePoint && Find(w.rt.safePoints, id).Some? then Some(SafePointReached) else None
    case OpBeginQuiesce =>
      if s == SafePointReached || (s == Assessing && w.rt.AtValidBoundary()) then Some(Quiescing)
      else if (s == Assessing || s == Deferred) && !w.rt.AtValidBoundary() then Some(WaitingForSafePoint)
      else None
    case OpReportQuiesced(q) =>
      if s == Quiescing && q.workerBoot == w.rt.scope.workerBoot && q.fullyQuiesced && w.env.AllQuiet()
      then Some(Quiesced) else None
    case OpRequestCapture =>
      if s == Quiesced then Some(if w.rt.CaptureRequiredHere() then CapturingState else ReleasePending) else None
    case OpReportCaptured(c) =>
      if s == CapturingState
      then
        var good := c.success && c.completed && cp.Validates(c.checkpointRef, c.checkpointGen);
        Some(if good then StateDurable else Failed)
      else None
    case OpRequestRelease =>
      if (s == StateDurable || s == ReleasePending) && b.stateDurable then Some(Releasing) else None
    case OpReportReleased =>
      if s == Releasing && w.env.broker.NothingReserved() then Some(ResourcesReleased) else None
    case OpCommit =>
      if s == ResourcesReleased && b.quiesced && b.stateDurable && b.resourcesReleased then Some(Preempted) else None
    case OpRequestResume => if s == Preempted then Some(ResumePending) else None
    case OpRevalidate =>
      if s != ResumePending && s != Revalidating then None
      else if !w.CheckpointCurrent() then Some(Failed)
      else if !w.env.DependencyBlocks() then Some(Restoring)
      else Some(Revalidating)
    case OpRestoreCheckpoint =>
      if s == Restoring then Some(if w.CheckpointCurrent() then ResumeReady else Failed) else None
    case OpConfirmResumed => if s == ResumeReady || s == Resuming then Some(Resumed) else None
    case OpCancel => if s.Terminal() then None else Some(Cancelled)
    case OpComplete =>
      if s.Terminal() || ResumeStage(s) then None else Some(Aborted)
    case OpRestoreBytes(bytes) => if Recovers(op) then Some(Decoded(bytes).state.lifecycle) else None
    case _ => None
  }

  ghost predicate FollowsEdge(w: World, op: Op) {
    && Step(w, op).0.rt.lifecycle == (match Edge(w, op) case Some(t) => t case None => w.rt.lifecycle)
    && (Step(w, op).1 == Threw(IllegalTransition) <==>
          op.OpBeginQuiesce? && w.rt.lifecycle == Deferred && w.rt.AtValidBoundary())
  }

  predicate PreemptionOp(op: Op) {
    op.OpRequest? || op.OpReach? || op.OpBeginQuiesce? || op.OpReportQuiesced?
  }

  predicate ReleaseOp(op: Op) {
    op.OpRequestCapture? || op.OpReportCaptured? || op.OpRequestRelease? || op.OpReportReleased? || op.OpCommit?
  }

  predicate ResumeOp(op: Op) {
    op.OpRequestResume? || op.OpRevalidate? || op.OpRestoreCheckpoint? || op.OpConfirmResumed?
  }

  lemma {:induction false} PreemptionFollowsEdge(w: World, op: Op)
    requires PreemptionOp(op)
    ensures FollowsEdge(w, op)
  {
    PreemptionPaths();
    hide Walk, IsAllowed, Find, Insert, HasAuthority, Environment.AllQuiet, RestoreBytes;
  }

  lemma {:induction false} ReleaseFollowsEdge(w: World, op: Op)
    requires ReleaseOp(op)
    ensures FollowsEdge(w, op)
  {
    ReleasePaths();
    hide Walk, IsAllowed, Broker.ReleaseEach, Broker.Leases, Broker.NothingReserved;
  }

  lemma {:induction false} ResumeFollowsEdge(w: World, op: Op)
    requires ResumeOp(op)
    ensures FollowsEdge(w, op)
  {
    ResumePaths();
    hide Walk, IsAllowed, RestoreBytes;
  }

  /** Every operation moves the lifecycle along its guarded edge and never elsewhere. It throws at an illegal edge
      in exactly one situation: quiescing from Deferred at a valid boundary. */
  lemma {:induction false} StepFollowsEdge(w: World, op: Op)
    ensures Step(w, op).0.rt.lifecycle == match Edge(w, op) case Some(t) => t case None => w.rt.lifecycle
    ensures Step(w, op).1 == Threw(IllegalTransition) <==>
      op.OpBeginQuiesce? && w.rt.lifecycle == Deferred && w.rt.AtValidBoundary()
  {
    if PreemptionOp(op) {
      PreemptionFollowsEdge(w, op);
      hide Step, Edge;
    } else if ReleaseOp(op) {
      ReleaseFollowsEdge(w, op);
      hide Step, Edge;
    } else if ResumeOp(op) {
      ResumeFollowsEdge(w, op);
      hide Step, Edge;
    } else {
      hide Decoded, Find, Insert, InsertAll, HasAuthority;
    }
  }

  /** Only a new execution, a new request or a recovery lowers the lifecycle number; every other change raises it. */
  lemma {:induction false} LifecycleRises(w: World, op: Op)
    requires !op.OpStart? && !Accepts(w, op) && !Recovers(op)
    requires Step(w, op).0.rt.lifecycle != w.rt.lifecycle
    ensures w.rt.lifecycle.Code() < Step(w, op).0.rt.lifecycle.Code()
  {
    StepFollowsEdge(w, op);
    hide Step, Find, Accepts, Recovers;
  }

  // ---- one step, as the other fields see it ----

  /** A rejected image leaves the world as it was. */
  lemma {:induction false} RejectedIsIdle(w: World, op: Op)
    requires op.OpRestoreBytes? && !Recovers(op)
    ensures Step(w, op) == (w, Recovered(false)) && Edge(w, op).None?
  {
    hide Decoded;
  }

  predicate RaisesFlags(w: World, op: Op, b': Boundary) {
    var b, e := w.rt.boundary, Edge(w, op);
    && b'.quiesced == (b.quiesced || e == Some(Quiesced))
    && b'.stateDurable == (b.stateDurable || e == Some(StateDurable) || e == Some(ReleasePending))
    && b'.resourcesReleased == (b.resourcesReleased || e == Some(ResourcesReleased))
  }

  lemma {:induction false} PreemptionFlags(w: World, op: Op)
    requires PreemptionOp(op)
    ensures RaisesFlags(w, op, Step(w, op).0.rt.boundary)
  {
    hide Walk, IsAllowed, Find, Insert, HasAuthority, Environment.AllQuiet, RestoreBytes;
  }

  lemma {:induction false} ReleaseFlags(w: World, op: Op)
    requires ReleaseOp(op)
    ensures RaisesFlags(w, op, Step(w, op).0.rt.boundary)
  {
    hide Walk, IsAllowed, Broker.ReleaseEach, Broker.Leases, Broker.NothingReserved, RestoreBytes;
  }

  lemma {:induction false} OtherFlags(w: World, op: Op)
    requires !PreemptionOp(op) && !ReleaseOp(op) && !op.OpRestoreBytes?
    ensures RaisesFlags(w, op, Step(w, op).0.rt.boundary)
  {
    hide Walk, Insert, Find, RestoreBytes, World.CheckpointCurrent, Authority.Covers;
  }

  /** Which evidence flags a step raises. No step of a restore-free run lowers one. */
  lemma {:induction false} StepFlags(w: World, op: Op)
    requires !Recovers(op)
    ensures RaisesFlags(w, op, Step(w, op).0.rt.boundary)
  {
    if PreemptionOp(op) {
      PreemptionFlags(w, op);
      hide Step, RaisesFlags, Recovers;
    } else if ReleaseOp(op) {
      ReleaseFlags(w, op);
      hide Step, RaisesFlags, Recovers;
    } else if op.OpRestoreBytes? {
      RejectedIsIdle(w, op);
      hide Step, Edge, Recovers;
    } else {
      OtherFlags(w, op);
      hide Step, RaisesFlags, Recovers;
    }
  }

  predicate Asked(w: World, op: Op, rt': Runtime) {
    && (rt'.active == if op.OpStart? then None else if Accepts(w, op) then Some(op.request) else w.rt.active)
    && (!op.OpCancel? ==> rt'.history == w.rt.history)
  }

  lemma {:induction false} WorkingRequests(w: World, op: Op)
    requires PreemptionOp(op) || ReleaseOp(op)
    ensures Asked(w, op, Step(w, op).0.rt)
  {
    hide Walk, IsAllowed, Find, Insert, HasAuthority, Environment.AllQuiet, RestoreBytes;
    hide Broker.ReleaseEach, Broker.Leases, Broker.NothingReserved;
  }

  lemma {:induction false} OtherRequests(w: World, op: Op)
    requires !PreemptionOp(op) && !ReleaseOp(op) && !op.OpRestoreBytes?
    ensures Asked(w, op, Step(w, op).0.rt)
  {
    hide Walk, Insert, Find, RestoreBytes, World.CheckpointCurrent, Authority.Covers, HasAuthority;
  }

  /** Which operations touch the request and the history. */
  lemma {:induction false} StepRequests(w: World, op: Op)
    requires !Recovers(op)
    ensures Asked(w, op, Step(w, op).0.rt)
  {
    if op.OpRestoreBytes? {
      RejectedIsIdle(w, op);
      hide Step, Recovers;
    } else if PreemptionOp(op) || ReleaseOp(op) {
      WorkingRequests(w, op);
      hide Step, Asked, Recovers;
    } else {
      OtherRequests(w, op);
      hide Step, Asked, Recovers;
    }
  }

  predicate Framed(rt: Runtime, op: Op, rt': Runtime) {
    && (!op.OpDeclare? && !op.OpReach? ==> rt'.safePoints == rt.safePoints)
    && (!op.OpReach? ==> rt'.currentPoint == rt.currentPoint)
    && (!op.OpReach? && !op.OpPublish? ==> rt'.progress == rt.progress)
    && (!op.OpStart? && !op.OpReincarnate? ==> rt'.scope == rt.scope)
    && rt'.epoch == rt.epoch && rt'.policy == rt.policy
  }

  lemma {:induction false} WorkingFrame(w: World, op: Op)
    requires PreemptionOp(op) || ReleaseOp(op)
    ensures Framed(w.rt, op, Step(w, op).0.rt)
  {
    hide Walk, IsAllowed, Find, Insert, HasAuthority, Environment.AllQuiet, RestoreBytes;
    hide Broker.ReleaseEach, Broker.Leases, Broker.NothingReserved, LifecycleState.Terminal;
  }

  lemma {:induction false} OtherFrame(w: World, op: Op)
    requires !PreemptionOp(op) && !ReleaseOp(op) && !op.OpRestoreBytes?
    ensures Framed(w.rt, op, Step(w, op).0.rt)
  {
    hide Walk, Insert, Find, RestoreBytes, World.CheckpointCurrent, Authority.Covers;
  }

  /** Which operations touch the safe points, the progress and the identity. */
  lemma {:induction false} StepFrame(w: World, op: Op)
    requires !Recovers(op)
    ensures Framed(w.rt, op, Step(w, op).0.rt)
  {
    if op.OpRestoreBytes? {
      RejectedIsIdle(w, op);
      hide Step, Recovers;
    } else if PreemptionOp(op) || ReleaseOp(op) {
      WorkingFrame(w, op);
      hide Step, Framed, Recovers;
    } else {
      OtherFrame(w, op);
      hide Step, Framed, Recovers;
    }
  }

  /** A known safe point is reached. */
  predicate Reaches(w: World, op: Op) {
    op.OpReach? && Find(w.rt.safePoints, op.id).Some?
  }

  /** The safe point last reached carries what the reaching call said. */
  predicate Carries(p: Option<SafePoint>, op: Op) {
    && op.OpReach? && p.Some? && p.value.state == SpValid && p.value.id == op.id
    && p.value.position == op.position && p.value.captureRequired == op.capture
  }

  /** Reaching a known safe point is the only step, recoveries included, that changes where the runtime is. */
  lemma {:induction false} StepPoint(w: World, op: Op)
    ensures if Reaches(w, op) then Carries(Step(w, op).0.rt.currentPoint, op)
      else Step(w, op).0.rt.currentPoint == w.rt.currentPoint
  {
    if op.OpReach? {
      hide Find, Insert, IsAllowed, RestoreBytes;
    } else if Recovers(op) {
      RecoveryKeepsBoundary(w, op.bytes);
      hide Step, Decoded;
    } else {
      StepFrame(w, op);
      hide Step, Decoded;
    }
  }

  // ---- what every run keeps ----

  /** Holds in every run, recoveries included. */
  predicate Sound(rt: Runtime) {
    && (rt.lifecycle.PreemptedDurable() ==>
          rt.boundary.quiesced && rt.boundary.stateDurable && rt.boundary.resourcesReleased)
    && rt.progress.durable <= rt.progress.current
    && (rt.currentPoint.Some? ==> rt.AtValidBoundary())
    && (rt.active.Some? ==> rt.active.value.id != 0)
    && Sorted(rt.safePoints)
  }

  lemma {:induction false} InsertSorted(ps: seq<SafePoint>, p: SafePoint)
    requires Sorted(ps)
    ensures Sorted(Insert(ps, p))
    decreases |ps|
  {
    if ps != [] && p.id > ps[0].id {
      var r := Insert(ps[1..], p);
      InsertSorted(ps[1..], p);
      forall i | 0 <= i < |r| ensures ps[0].id < r[i].id {
        assert r[i] in r;
      }
    }
  }

  /** The safe points are a map by identifier: an insertion is found under its own, and no other changes. */
  lemma {:induction false} FindInserted(ps: seq<SafePoint>, p: SafePoint, id: u64)
    requires Sorted(ps)
    ensures Find(Insert(ps, p), id) == if id == p.id then Some(p) else Find(ps, id)
    decreases |ps|
  {
    if ps != [] {
      if p.id > ps[0].id {
        FindInserted(ps[1..], p, id);
      } else if p.id < ps[0].id {
        assert ([p] + ps)[1..] == ps;
        if id == p.id { assert Find(Insert(ps, p), id) == Some(p); }
      } else {
        assert ([p] + ps[1..])[1..] == ps[1..];
      }
    }
  }

  lemma {:induction false} InsertAllSorted(ps: seq<SafePoint>, more: seq<SafePoint>)
    requires Sorted(ps)
    ensures Sorted(InsertAll(ps, more))
    decreases |more|
  {
    hide Sorted;
    if more != [] {
      InsertAllSorted(ps, more[..|more| - 1]);
      InsertSorted(InsertAll(ps, more[..|more| - 1]), more[|more| - 1]);
    }
  }

  lemma EmptySorted()
    ensures Sorted([])
  {
  }

  lemma PreemptedMeansReleased(s: LifecycleState)
    requires s.PreemptedDurable()
    ensures ReleaseReached(s)
  {
  }

  lemma {:induction false} RecoveryIsSound(w: World, s: PersistentState)
    requires Sound(w.rt) && WellFormed(s)
    ensures Sound(Restore(w, s).rt)
  {
    hide Sorted, PointsWellFormed, ReceiptsWellFormed, ResumeReached, ReleaseReached, LifecycleState.PreemptedDurable;
    if s.lifecycle.PreemptedDurable() { PreemptedMeansReleased(s.lifecycle); }
    EmptySorted();
    InsertAllSorted([], s.safePoints);
    hide InsertAll;
  }

  lemma {:induction false} StepIsSound(w: World, op: Op)
    requires Sound(w.rt)
    ensures Sound(Step(w, op).0.rt)
  {
    match op
    case OpRestoreBytes(bytes) =>
      if Decoded(bytes).ImageOk? {
        AcceptedWellFormed(bytes);
        hide Decoded, WellFormed;
        RecoveryIsSound(w, Decoded(bytes).state);
      }
    case OpDeclare(p) =>
      InsertSorted(w.rt.safePoints, p.(state := SpDeclared));
      hide Sorted, Insert;
    case OpReach(id, position, capture) =>
      ReachIsSound(w, id, position, capture);
    case OpPublish(_, _) =>
      hide Sorted, Authority.Covers;
    case _ =>
      FlagsStaySound(w, op);
      StepFrame(w, op);
      StepRequests(w, op);
      hide Step, Sorted;
  }

  lemma {:induction false} ReachIsSound(w: World, id: u64, position: u64, capture: bool)
    requires Sound(w.rt)
    ensures Sound(Reach(w, id, position, capture).0.rt)
  {
    var found := Find(w.rt.safePoints, id);
    if found.Some? {
      InsertSorted(w.rt.safePoints, found.value.(state := SpValid, position := position, captureRequired := capture));
    }
    hide Sorted, Insert, Find, IsAllowed;
  }

  lemma {:induction false} FlagsStaySound(w: World, op: Op)
    requires Sound(w.rt) && !Recovers(op)
    ensures Step(w, op).0.rt.lifecycle.PreemptedDurable() ==>
      var b := Step(w, op).0.rt.boundary; b.quiesced && b.stateDurable && b.resourcesReleased
  {
    StepFollowsEdge(w, op);
    StepFlags(w, op);
    hide Step, Sorted, Find, Accepts, Recovers;
  }

  /** In every run, recoveries from arbitrary accepted images included: a preempted-durable state has quiesced,
      durable state and released resources; durable progress never exceeds the current position; a current safe
      point is valid; an active request has a valid identifier; and the safe points are in the order of theirs. */
  lemma {:induction false} EveryRunIsSound(ws: seq<World>, ops: seq<Op>, k: nat)
    requires IsRun(ws, ops) && Fresh(ws[0]) && k < |ws|
    ensures Sound(ws[k].rt)
    decreases k
  {
    hide Step, Sound;
    if k == 0 {
      FreshIsSound(ws[0]);
    } else {
      EveryRunIsSound(ws, ops, k - 1);
      StepIsSound(ws[k - 1], ops[k - 1]);
    }
  }

  lemma FreshIsSound(w: World)
    requires Fresh(w)
    ensures Sound(w.rt)
  {
  }

  // ---- restore-free runs ----

  /** States no operation of a restore-free run ever rests in. */
  predicate Unvisited(s: LifecycleState) {
    || s == Requested || s == ValidatingAuthority || s == Deferred || s == CaptureRequired || s == Resuming
    || s == Superseded
  }

  /** The evidence flags each stage of the main path carries. */
  predicate Staged(rt: Runtime) {
    var s, b := rt.lifecycle, rt.boundary;
    && !Unvisited(s)
    && (1 <= s.Code() <= 21 ==> rt.active.Some?)
    && (6 <= s.Code() <= 21 ==> rt.AtValidBoundary())
    && (8 <= s.Code() <= 21 ==> b.quiesced)
    && (11 <= s.Code() <= 21 ==> b.stateDurable)
    && (14 <= s.Code() <= 21 ==> b.resourcesReleased)
  }

  /** The records a restore-free run can have written. */
  predicate Recorded(rt: Runtime) {
    && (rt.active.Some? ==> rt.active.value.generation != 0)
    && (forall p :: p in rt.safePoints ==> p.state == SpDeclared || p.state == SpValid)
    && (forall h :: h in rt.history ==> h.finalState == Cancelled)
  }

  /** Each stage is entered from the stage before it, or by the step that brings its evidence. */
  lemma {:induction false} EdgeStages(w: World, op: Op)
    requires !Recovers(op) && Edge(w, op).Some?
    ensures var n, t, n' := w.rt.lifecycle.Code(), Edge(w, op).value, Edge(w, op).value.Code();
      && (8 <= n' <= 21 ==> 8 <= n <= 20 || t == Quiesced)
      && (11 <= n' <= 21 ==> 11 <= n <= 20 || t == StateDurable || t == ReleasePending)
      && (14 <= n' <= 21 ==> 14 <= n <= 20 || t == ResourcesReleased)
  {
    hide Find, Environment.AllQuiet, Broker.NothingReserved, World.CheckpointCurrent, Authority.Covers;
    hide Environment.DependencyBlocks, Runtime.CaptureRequiredHere, Checkpoints.Validates, HasAuthority, Recovers;
  }

  lemma {:induction false} EdgeOrigins(w: World, op: Op)
    requires !Recovers(op) && Edge(w, op).Some?
    ensures var n, t, n' := w.rt.lifecycle.Code(), Edge(w, op).value, Edge(w, op).value.Code();
      && !Unvisited(t)
      && (1 <= n' <= 21 ==> Accepts(w, op) || (1 <= n <= 20 && !op.OpStart?))
      && (6 <= n' <= 21 ==> 6 <= n <= 20 || w.rt.AtValidBoundary() || op.OpReach?)
  {
    hide Find, Environment.AllQuiet, Broker.NothingReserved, World.CheckpointCurrent, Authority.Covers;
    hide Environment.DependencyBlocks, Runtime.CaptureRequiredHere, Checkpoints.Validates, HasAuthority, Recovers;
  }

  lemma {:induction false} StepIsStaged(w: World, op: Op)
    requires Staged(w.rt) && !Recovers(op)
    ensures Staged(Step(w, op).0.rt)
  {
    StepFollowsEdge(w, op);
    StepFlags(w, op);
    StepRequests(w, op);
    StepBoundary(w, op);
    if Edge(w, op).Some? {
      EdgeStages(w, op);
      EdgeOrigins(w, op);
    }
    AcceptsFrame(w, op);
    hide Step, Edge, Accepts, LifecycleState.Code, Unvisited, Runtime.AtValidBoundary;
  }

  lemma {:induction false} AcceptsFrame(w: World, op: Op)
    ensures Accepts(w, op) ==> op.OpRequest?
    ensures op.OpStart? ==> Edge(w, op) == Some(Invalid)
    ensures Invalid.Code() == 0
  {
    hide HasAuthority;
  }

  /** A valid boundary is never lost, and reaching a known safe point makes one. */
  lemma {:induction false} StepBoundary(w: World, op: Op)
    requires !Recovers(op)
    ensures w.rt.AtValidBoundary() ==> Step(w, op).0.rt.AtValidBoundary()
    ensures op.OpReach? && Edge(w, op).Some? ==> Step(w, op).0.rt.AtValidBoundary()
  {
    if !op.OpReach? {
      StepFrame(w, op);
      hide Step, Edge;
    } else {
      hide Find, Insert, IsAllowed;
    }
  }

  lemma {:induction false} StepIsRecorded(w: World, op: Op)
    requires Recorded(w.rt) && !Recovers(op)
    ensures Recorded(Step(w, op).0.rt)
  {
    StepRequests(w, op);
    StepFrame(w, op);
    if !op.OpReach? && !op.OpDeclare? && !op.OpCancel? {
      hide Step;
    } else {
      hide IsAllowed, Find, Insert;
    }
  }

  /** Every restore-free run is staged and recorded: in particular Deferred, where quiescing would be illegal, is
      never entered. */
  lemma {:induction false} RestoreFreeRunIsStaged(ws: seq<World>, ops: seq<Op>, k: nat)
    requires IsRun(ws, ops) && Fresh(ws[0]) && RestoreFree(ops) && k < |ws|
    ensures Staged(ws[k].rt) && Recorded(ws[k].rt)
    decreases k
  {
    hide Step, Sound, Staged, Recorded;
    if k == 0 {
      FreshIsStaged(ws[0]);
    } else {
      RestoreFreeRunIsStaged(ws, ops, k - 1);
      StepIsStaged(ws[k - 1], ops[k - 1]);
      StepIsRecorded(ws[k - 1], ops[k - 1]);
    }
  }

  lemma FreshIsStaged(w: World)
    requires Fresh(w)
    ensures Staged(w.rt) && Recorded(w.rt)
  {
  }

  /** No operation of a restore-free run ever asks for an illegal edge. */
  lemma {:induction false} NoIllegalEdge(ws: seq<World>, ops: seq<Op>, k: nat)
    requires IsRun(ws, ops) && Fresh(ws[0]) && RestoreFree(ops) && k < |ops|
    ensures Step(ws[k], ops[k]).1 != Threw(IllegalTransition)
  {
    RestoreFreeRunIsStaged(ws, ops, k);
    StepFollowsEdge(ws[k], ops[k]);
    hide Step;
  }

  /** After a recovery one can: at a valid boundary, any accepted image in Deferred makes quiescing throw. */
  lemma {:induction false} DeferredImageThrows(w: World, bytes: seq<byte>)
    requires w.rt.AtValidBoundary() && Decoded(bytes).ImageOk? && Decoded(bytes).state.lifecycle == Deferred
    ensures Step(Step(w, OpRestoreBytes(bytes)).0, OpBeginQuiesce).1 == Threw(IllegalTransition)
  {
    var w1 := Step(w, OpRestoreBytes(bytes)).0;
    RecoveryKeepsBoundary(w, bytes);
    StepFollowsEdge(w1, OpBeginQuiesce);
    hide Step, Decoded;
  }

  lemma {:induction false} RecoveryKeepsBoundary(w: World, bytes: seq<byte>)
    requires Decoded(bytes).ImageOk?
    ensures Step(w, OpRestoreBytes(bytes)).0 == Restore(w, Decoded(bytes).state)
    ensures Step(w, OpRestoreBytes(bytes)).0.rt.currentPoint == w.rt.currentPoint
    ensures Step(w, OpRestoreBytes(bytes)).0.rt.lifecycle == Decoded(bytes).state.lifecycle
  {
    hide Decoded, InsertAll;
  }

  /** Durable progress never moves back in a restore-free run. */
  lemma {:induction false} DurableNeverFalls(ws: seq<World>, ops: seq<Op>, i: nat, j: nat)
    requires IsRun(ws, ops) && RestoreFree(ops) && i <= j < |ws|
    ensures ws[i].rt.progress.durable <= ws[j].rt.progress.durable
    decreases j
  {
    hide Step;
    if i < j {
      DurableNeverFalls(ws, ops, i, j - 1);
      StepDurable(ws[j - 1], ops[j - 1]);
    }
  }

  lemma {:induction false} StepDurable(w: World, op: Op)
    requires !Recovers(op)
    ensures w.rt.progress.durable <= Step(w, op).0.rt.progress.durable
  {
    if !op.OpReach? && !op.OpPublish? {
      StepFrame(w, op);
      hide Step;
    } else {
      hide Find, Insert, IsAllowed, RestoreBytes;
    }
  }

  lemma {:induction false} StepGenerations(w: World, op: Op)
    requires !Recovers(op) && w.rt.progress.durableGeneration <= w.rt.progress.generation
    ensures var p, p' := w.rt.progress, Step(w, op).0.rt.progress;
      p.durableGeneration <= p'.durableGeneration <= p'.generation
  {
    if !op.OpReach? && !op.OpPublish? {
      StepFrame(w, op);
      hide Step, Recovers;
    } else {
      hide Find, Insert, IsAllowed, RestoreBytes, Recovers;
    }
  }

  lemma {:induction false} GenerationsOrdered(ws: seq<World>, ops: seq<Op>, k: nat)
    requires IsRun(ws, ops) && Fresh(ws[0]) && RestoreFree(ops) && k < |ws|
    ensures ws[k].rt.progress.durableGeneration <= ws[k].rt.progress.generation
    decreases k
  {
    hide Step, Recovers;
    if k > 0 {
      GenerationsOrdered(ws, ops, k - 1);
      StepGenerations(ws[k - 1], ops[k - 1]);
    }
  }

  /** In a restore-free run the generation of durable progress never moves back and never runs ahead. */
  lemma {:induction false} GenerationNeverFalls(ws: seq<World>, ops: seq<Op>, i: nat, j: nat)
    requires IsRun(ws, ops) && Fresh(ws[0]) && RestoreFree(ops) && i <= j < |ws|
    ensures ws[i].rt.progress.durableGeneration <= ws[j].rt.progress.durableGeneration <= ws[j].rt.progress.generation
    decreases j
  {
    hide Step, Recovers;
    GenerationsOrdered(ws, ops, j);
    if i < j {
      GenerationNeverFalls(ws, ops, i, j - 1);
      StepGenerations(ws[j - 1], ops[j - 1]);
    }
  }
}
