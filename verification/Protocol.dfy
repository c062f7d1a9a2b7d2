/** The preemption and resume protocol (src/runtime.cpp), one function per operation: the world before to the
    world after and the reply. The class in Runtime.dfy is proved against these. */
module Protocol {
  import opened Words
  import opened Lifecycle
  import opened Adapters
  import opened Domain
  import opened Store

  // ---- state ----

  datatype Request = Request(
    id: u64, generation: u64, executionId: u64, executionGen: u64, attemptId: u64, attemptGen: u64, epoch: u64,
    workerBoot: u64)

  datatype Progress = Progress(current: u64, durable: u64, generation: u64, durableGeneration: u64)

  datatype ProgressKind =
    | NoProgress | Attempted | Speculative | Acknowledged | CommittedLogical | Durable | Recomputable | Discarded | Lost

  datatype Runtime = Runtime(
    epoch: u64, policy: u64, scope: Scope, fencedBoot: u64, lifecycle: LifecycleState, active: Option<Request>,
    authRequestGen: u64, safePoints: seq<SafePoint>, currentPoint: Option<SafePoint>, progress: Progress,
    boundary: Boundary, resumeGen: u64, resumed: bool, history: seq<PastRequest>)
  {
    /** A safe point has been reached and is valid. */
    predicate AtValidBoundary() {
      currentPoint.Some? && currentPoint.value.state == SpValid
    }

    predicate CaptureRequiredHere() {
      currentPoint.Some? && currentPoint.value.captureRequired
    }
  }

  /** A runtime together with the environment it talks to. */
  datatype World = World(rt: Runtime, env: Environment) {
    function At(s: LifecycleState): World {
      this.(rt := rt.(lifecycle := s))
    }
    function With(b: Boundary): World {
      this.(rt := rt.(boundary := b))
    }
    predicate Authoritative() {
      env.authority.Covers(rt.scope.executionId, rt.scope.attemptId)
    }
    /** The recorded checkpoint, if any, is still the current one. */
    predicate CheckpointCurrent() {
      rt.boundary.checkpointRef == 0 || env.checkpoints.Validates(rt.boundary.checkpointRef, rt.boundary.checkpointGen)
    }
  }

  function FreshRuntime(epoch: u64, policy: u64): Runtime {
    Runtime(epoch, policy, Scope(0, 0, 0, 0, 0, 0, 0, 0), 0, Invalid, None, 0, [], None, Progress(0, 0, 0, 0),
      Boundary(false, 0, false, 0, 0, 0, false, 0), 0, false, [])
  }

  // ---- replies ----

  datatype PreemptionOutcome =
    | SafePreemptionCompleted | DeferToSafePoint | StateCaptureRequired | CannotPreemptSafely | PreemptionFailed

  datatype AdmissionCode = Accepted | IdempotentDuplicate | ConflictingDuplicate | RejectedStale | RejectedInvalid

  datatype Fault = UnknownSafePoint | IllegalTransition

  datatype Reply =
    | Done
    | Threw(fault: Fault)
    | DeclaredPoint(pointId: u64)
    | Published(published: bool)
    | Admitted(code: AdmissionCode, requestId: u64, requestGen: u64)
    | Result(outcome: PreemptionOutcome, lifecycle: LifecycleState)
    | ResumeReply(allowed: bool, resumeGen: u64)
    | Recovered(accepted: bool)

  // ---- safe points, kept in the order of their identifiers ----

  predicate Sorted(ps: seq<SafePoint>) {
    forall i, j :: 0 <= i < j < |ps| ==> ps[i].id < ps[j].id
  }

  function Insert(ps: seq<SafePoint>, p: SafePoint): (r: seq<SafePoint>)
    ensures forall q :: q in r ==> q == p || q in ps
    ensures p in r
    decreases |ps|
  {
    if ps == [] then [p]
    else if p.id < ps[0].id then [p] + ps
    else if p.id == ps[0].id then [p] + ps[1..]
    else [ps[0]] + Insert(ps[1..], p)
  }

  function Find(ps: seq<SafePoint>, id: u64): (r: Option<SafePoint>)
    ensures r.Some? ==> r.value in ps && r.value.id == id
    ensures r.None? ==> forall p :: p in ps ==> p.id != id
  {
    if ps == [] then None else if ps[0].id == id then Some(ps[0]) else Find(ps[1..], id)
  }

  function InsertAll(ps: seq<SafePoint>, more: seq<SafePoint>): seq<SafePoint>
    decreases |more|
  {
    if more == [] then ps else Insert(InsertAll(ps, more[..|more| - 1]), more[|more| - 1])
  }

  // ---- execution, safe points, progress ----

  function Start(w: World, scope: Scope): World {
    World(
      w.rt.(scope := scope, lifecycle := Invalid, active := None),
      w.env.(authority := Authority(true, scope.executionId, scope.attemptId, scope.executionGen, scope.attemptGen,
                                    w.rt.epoch, scope.workerBoot)))
  }

  function Declare(w: World, p: SafePoint): (World, Reply) {
    (w.(rt := w.rt.(safePoints := Insert(w.rt.safePoints, p.(state := SpDeclared)))), DeclaredPoint(p.id))
  }

  function Max(a: u64, b: u64): u64 {
    if a < b then b else a
  }

  function Reach(w: World, id: u64, position: u64, capture: bool): (World, Reply) {
    match Find(w.rt.safePoints, id)
    case None => (w, Threw(UnknownSafePoint))
    case Some(found) =>
      var p := found.(state := SpValid, position := position, captureRequired := capture);
      var w1 := w.(rt := w.rt.(safePoints := Insert(w.rt.safePoints, p), currentPoint := Some(p),
                               progress := w.rt.progress.(current := Max(w.rt.progress.current, position))));
      if w.rt.lifecycle == WaitingForSafePoint then
        if IsAllowed(WaitingForSafePoint, SafePointReached) then (w1.At(SafePointReached), Done)
        else (w1, Threw(IllegalTransition))
      else (w1, Done)
  }

  function Publish(w: World, position: u64, kind: ProgressKind): (World, Reply) {
    var p := w.rt.progress;
    if !w.Authoritative() || w.env.authority.boot != w.rt.scope.workerBoot then (w, Published(false))
    else if position < p.durable then (w, Published(false))
    else
      var p1 := p.(current := Max(p.current, position), generation := Next(p.generation));
      var p2 := if kind == Durable then p1.(durable := position, durableGeneration := p1.generation) else p1;
      (w.(rt := w.rt.(progress := p2)), Published(true))
  }

  // ---- admission ----

  predicate HasAuthority(rt: Runtime, r: Request) {
    && r.epoch == rt.epoch
    && r.executionId == rt.scope.executionId && r.attemptId == rt.scope.attemptId
    && r.executionGen == rt.scope.executionGen
    && r.attemptGen == rt.scope.attemptGen
    && (r.workerBoot == 0 || r.workerBoot == rt.scope.workerBoot)
  }

  function RequestPreemption(w: World, r: Request): (World, Reply) {
    if r.id == 0 || r.generation == 0 then (w, Admitted(RejectedInvalid, 0, 0))
    else if !HasAuthority(w.rt, r) then (w, Admitted(RejectedStale, 0, 0))
    else if w.rt.active.Some? then
      if w.rt.active.value.id == r.id && w.rt.active.value.generation == r.generation
      then (w, Admitted(IdempotentDuplicate, r.id, r.generation))
      else (w, Admitted(ConflictingDuplicate, 0, 0))
    else
      var (at, ok) := Walk(Requested, [ValidatingAuthority, Assessing]);
      (w.(rt := w.rt.(active := Some(r), authRequestGen := r.generation, lifecycle := at)),
       if ok then Admitted(Accepted, r.id, r.generation) else Threw(IllegalTransition))
  }

  // ---- quiesce, capture, release, commit ----

  /** Take the path; the reply is the outcome, or the exception of the first illegal edge. */
  function Moved(w: World, path: seq<LifecycleState>, outcome: PreemptionOutcome): (World, Reply) {
    var (at, ok) := Walk(w.rt.lifecycle, path);
    (w.At(at), if ok then Result(outcome, at) else Threw(IllegalTransition))
  }

  function Refused(w: World, outcome: PreemptionOutcome): (World, Reply) {
    (w, Result(outcome, w.rt.lifecycle))
  }

  function BeginQuiesce(w: World): (World, Reply) {
    match w.rt.lifecycle
    case SafePointReached => Moved(w, [Quiescing], SafePreemptionCompleted)
    case Assessing | Deferred =>
      if w.rt.AtValidBoundary() then Moved(w, [Quiescing], SafePreemptionCompleted)
      else Moved(w, [WaitingForSafePoint], DeferToSafePoint)
    case WaitingForSafePoint => Refused(w, DeferToSafePoint)
    case Quiescing => Refused(w, SafePreemptionCompleted)
    case _ => Refused(w, CannotPreemptSafely)
  }

  datatype QuiescenceReport = QuiescenceReport(generation: u64, workerBoot: u64, fullyQuiesced: bool)

  function ReportQuiesced(w: World, q: QuiescenceReport): (World, Reply) {
    if q.workerBoot != w.rt.scope.workerBoot then Refused(w, PreemptionFailed)
    else if w.rt.lifecycle != Quiescing then Refused(w, CannotPreemptSafely)
    else if !q.fullyQuiesced || !w.env.AllQuiet() then Refused(w, CannotPreemptSafely)
    else
      var (w1, r) := Moved(w, [Quiesced], SafePreemptionCompleted);
      (w1.With(w.rt.boundary.(quiesced := true, quiescenceGen := q.generation)), r)
  }

  function RequestCapture(w: World): (World, Reply) {
    if w.rt.lifecycle != Quiesced then Refused(w, CannotPreemptSafely)
    else if !w.rt.CaptureRequiredHere() then
      var (w1, r) := Moved(w, [ReleasePending], StateCaptureRequired);
      (w1.With(w.rt.boundary.(stateDurable := true)), r)
    else
      var (w1, r) := Moved(w, [CaptureRequired, CapturingState], StateCaptureRequired);
      (w1.(env := w.env.(checkpoints := w.env.checkpoints.Captured(Next(w.rt.boundary.checkpointGen)))), r)
  }

  function ReportCaptured(w: World, c: CaptureResult): (World, Reply) {
    if w.rt.lifecycle != CapturingState then Refused(w, CannotPreemptSafely)
    else if !c.success || !c.completed then Moved(w, [Failed], PreemptionFailed)
    else if !w.env.checkpoints.Validates(c.checkpointRef, c.checkpointGen) then Moved(w, [Failed], PreemptionFailed)
    else
      var (w1, r) := Moved(w, [StateDurable], SafePreemptionCompleted);
      (w1.With(w.rt.boundary.(stateDurable := true, captureGen := c.captureGen, checkpointRef := c.checkpointRef,
                              checkpointGen := c.checkpointGen)), r)
  }

  function RequestRelease(w: World): (World, Reply) {
    if w.rt.lifecycle != StateDurable && w.rt.lifecycle != ReleasePending then Refused(w, CannotPreemptSafely)
    else if !w.rt.boundary.stateDurable then Refused(w, PreemptionFailed)
    else
      var path := if w.rt.lifecycle == StateDurable then [ReleasePending, Releasing] else [Releasing];
      var (w1, r) := Moved(w, path, SafePreemptionCompleted);
      var b := w.env.broker;
      (w1.(env := w.env.(broker := b.ReleaseEach(w.rt.scope.executionId, b.Leases(), b.contractGen))), r)
  }

  function ReportReleased(w: World): (World, Reply) {
    if w.rt.lifecycle != Releasing then Refused(w, CannotPreemptSafely)
    else if !w.env.broker.NothingReserved() then Refused(w, PreemptionFailed)
    else
      var (w1, r) := Moved(w, [ResourcesReleased], SafePreemptionCompleted);
      (w1.With(w.rt.boundary.(resourcesReleased := true)), r)
  }

  function Commit(w: World): (World, Reply) {
    var b := w.rt.boundary;
    if w.rt.lifecycle != ResourcesReleased then Refused(w, CannotPreemptSafely)
    else if !b.quiesced || !b.stateDurable || !b.resourcesReleased then Refused(w, PreemptionFailed)
    else
      var (w1, r) := Moved(w, [Preempted], SafePreemptionCompleted);
      (World(w1.rt.(fencedBoot := w.rt.scope.workerBoot), w.env.(authority := w.env.authority.Fenced())), r)
  }

  // ---- resume ----

  function RequestResume(w: World): (World, Reply) {
    if w.rt.lifecycle != Preempted then (w, ResumeReply(false, w.rt.resumeGen))
    else
      var (at, ok) := Walk(Preempted, [ResumePending]);
      var g := Next(w.rt.resumeGen);
      (w.(rt := w.rt.(lifecycle := at, resumeGen := g)), if ok then ResumeReply(true, g) else Threw(IllegalTransition))
  }

  /** A stale checkpoint fails the resume and reports the state the call found. */
  function Revalidate(w: World): (World, Reply) {
    var s := w.rt.lifecycle;
    if s != ResumePending && s != Revalidating then Refused(w, CannotPreemptSafely)
    else
      var prefix := if s == ResumePending then [Revalidating] else [];
      if !w.CheckpointCurrent() then
        var (w1, r) := Moved(w, prefix + [Failed], PreemptionFailed);
        (w1, if r.Threw? then r else Result(PreemptionFailed, s))
      else if w.env.DependencyBlocks() then Moved(w, prefix, CannotPreemptSafely)
      else Moved(w, prefix + [Restoring], SafePreemptionCompleted)
  }

  function RestoreCheckpoint(w: World): (World, Reply) {
    if w.rt.lifecycle != Restoring then Refused(w, CannotPreemptSafely)
    else if !w.CheckpointCurrent() then
      var (w1, r) := Moved(w, [Failed], PreemptionFailed);
      (w1, if r.Threw? then r else Result(PreemptionFailed, Restoring))
    else Moved(w, [ResumeReady], SafePreemptionCompleted)
  }

  function ConfirmResumed(w: World): (World, Reply) {
    var s := w.rt.lifecycle;
    if s != ResumeReady && s != Resuming then Refused(w, CannotPreemptSafely)
    else
      var t := w.rt.scope;
      var granted := w.env.authority.Granted(t.executionId, t.attemptId, t.executionGen, t.workerBoot);
      var path := if s == ResumeReady then [Resuming, Resumed] else [Resumed];
      var (w1, r) := Moved(w, path, SafePreemptionCompleted);
      (World(w1.rt.(resumed := true), w.env.(authority := granted)), r)
  }

  // ---- cancellation, completion, re-incarnation ----

  function Cancel(w: World): World {
    if w.rt.lifecycle.Terminal() then w
    else
      var past := match w.rt.active
        case None => []
        case Some(r) => [SupersededRequest(r.id, r.generation, Cancelled)];
      w.(rt := w.rt.(lifecycle := Cancelled, history := w.rt.history + past))
  }

  /** Completion is refused from the resume stages on, but not in Preempted itself. */
  function Complete(w: World): World {
    var s := w.rt.lifecycle;
    if s == Resumed || s == Cancelled || s == ResumePending || s == Revalidating || s == Restoring ||
       s == ResumeReady || s == Resuming || s.Terminal() then w
    else w.At(Aborted)
  }

  function Reincarnate(w: World, worker: u64, boot: u64): World {
    w.(rt := w.rt.(scope := w.rt.scope.(workerId := worker, workerBoot := boot), fencedBoot := 0))
  }

  // ---- durable image ----

  function Snapshot(rt: Runtime): PersistentState {
    PersistentState(
      Image.VERSION, rt.epoch, rt.policy, rt.scope, rt.fencedBoot, rt.lifecycle,
      if rt.active.Some? then rt.active.value.id else 0,
      if rt.active.Some? then rt.active.value.generation else 0,
      rt.boundary, rt.lifecycle.PreemptedDurable(), rt.resumeGen, rt.progress.durable, rt.progress.durableGeneration,
      rt.safePoints, [], rt.history)
  }

  /** Recovery: the current position falls back to the durable one, an existing request survives an image without
      one, the current safe point is not touched, and authority is granted again. */
  function Restore(w: World, s: PersistentState): World {
    var t := s.scope;
    var rt := w.rt;
    World(
      rt.(scope := t, fencedBoot := s.fencedBoot, lifecycle := s.lifecycle, boundary := s.boundary,
          resumeGen := s.resumeGen,
          progress := Progress(s.durableProgress, s.durableProgress, rt.progress.generation, s.progressGen),
          active := if s.requestId != 0
            then Some(Request(s.requestId, s.requestGen, t.executionId, t.executionGen, t.attemptId, t.attemptGen,
                              rt.epoch, 0))
            else rt.active,
          authRequestGen := if s.requestId != 0 then s.requestGen else rt.authRequestGen,
          safePoints := InsertAll([], s.safePoints), history := s.history),
      w.env.(authority := Authority(true, t.executionId, t.attemptId, t.executionGen, t.attemptGen, rt.epoch,
                                    t.workerBoot)))
  }

  function RestoreBytes(w: World, bytes: seq<byte>): (World, Reply) {
    match Decoded(bytes)
    case ImageFail(_) => (w, Recovered(false))
    case ImageOk(s) => (Restore(w, s), Recovered(true))
  }

  // ---- queries ----

  datatype PreemptibilityClass =
    | PreemptibleNow | PreemptibleAtSafePoint | PreemptibleAfterStateCapture | UnknownPreemptibility

  datatype Assessment = Assessment(class_: PreemptibilityClass, lastDurable: u64, current: u64, maxRollback: u64)

  function Assess(rt: Runtime): Assessment {
    var p := rt.progress;
    var rollback := if p.current > p.durable then p.current - p.durable else 0;
    var class_ :=
      if rt.AtValidBoundary() then
        (if rt.currentPoint.value.captureRequired then PreemptibleAfterStateCapture else PreemptibleNow)
      else if rt.safePoints != [] then PreemptibleAtSafePoint
      else if rt.lifecycle == Quiesced || rt.lifecycle == StateDurable || rt.lifecycle == ReleasePending
      then PreemptibleNow
      else UnknownPreemptibility;
    Assessment(class_, p.durable, p.current, rollback)
  }

  datatype Blocker =
    | NotPreempted | NoDurableState | ResourcesHeld | CheckpointMissing | CheckpointStale | DependencyStale
    | DependencyMissing | Eligible

  function ResumeBlockers(w: World): seq<Blocker> {
    var b := w.rt.boundary;
    if !w.rt.lifecycle.PreemptedDurable() then [NotPreempted]
    else
      var out :=
        (if !b.stateDurable then [NoDurableState] else []) +
        (if !b.resourcesReleased then [ResourcesHeld] else []) +
        (if b.checkpointRef == 0 then [CheckpointMissing] else []) +
        (if !w.CheckpointCurrent() then [CheckpointStale] else []) +
        (if w.env.dependency == Stale then [DependencyStale]
         else if w.env.dependency == Missing then [DependencyMissing] else []);
      if out == [] then [Eligible] else out
  }

  // ---- steps of a run ----

  datatype Op =
    | OpStart(scope: Scope)
    | OpDeclare(point: SafePoint)
    | OpReach(id: u64, position: u64, capture: bool)
    | OpPublish(position: u64, kind: ProgressKind)
    | OpRequest(request: Request)
    | OpBeginQuiesce
    | OpReportQuiesced(report: QuiescenceReport)
    | OpRequestCapture
    | OpReportCaptured(result: CaptureResult)
    | OpRequestRelease
    | OpReportReleased
    | OpCommit
    | OpRequestResume
    | OpRevalidate
    | OpRestoreCheckpoint
    | OpConfirmResumed
    | OpCancel
    | OpComplete
    | OpReincarnate(workerId: u64, boot: u64)
    | OpRestoreBytes(bytes: seq<byte>)
    | EnvAuthority(authority: Authority)
    | EnvCheckpoints(checkpoints: Checkpoints)
    | EnvBroker(broker: Broker)
    | EnvDependency(dependency: DependencyStatus)
    | EnvQuiet(quiet: map<QuiescenceCategory, bool>)

  /** One operation, or one change of the environment: its setters may put any value in place. */
  function Step(w: World, op: Op): (World, Reply) {
    match op
    case OpStart(scope) => (Start(w, scope), Done)
    case OpDeclare(p) => Declare(w, p)
    case OpReach(id, position, capture) => Reach(w, id, position, capture)
    case OpPublish(position, kind) => Publish(w, position, kind)
    case OpRequest(r) => RequestPreemption(w, r)
    case OpBeginQuiesce => BeginQuiesce(w)
    case OpReportQuiesced(q) => ReportQuiesced(w, q)
    case OpRequestCapture => RequestCapture(w)
    case OpReportCaptured(c) => ReportCaptured(w, c)
    case OpRequestRelease => RequestRelease(w)
    case OpReportReleased => ReportReleased(w)
    case OpCommit => Commit(w)
    case OpRequestResume => RequestResume(w)
    case OpRevalidate => Revalidate(w)
    case OpRestoreCheckpoint => RestoreCheckpoint(w)
    case OpConfirmResumed => ConfirmResumed(w)
    case OpCancel => (Cancel(w), Done)
    case OpComplete => (Complete(w), Done)
    case OpReincarnate(worker, boot) => (Reincarnate(w, worker, boot), Done)
    case OpRestoreBytes(bytes) => RestoreBytes(w, bytes)
    case EnvAuthority(a) => (w.(env := w.env.(authority := a)), Done)
    case EnvCheckpoints(c) => (w.(env := w.env.(checkpoints := c)), Done)
    case EnvBroker(b) => (w.(env := w.env.(broker := b)), Done)
    case EnvDependency(d) => (w.(env := w.env.(dependency := d)), Done)
    case EnvQuiet(q) => (w.(env := w.env.(quiet := q)), Done)
  }
}
