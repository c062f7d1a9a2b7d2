/** What the runtime answers: every reply against what the call did, and the whole state from calls and replies
    alone. */
module Replies {
  import opened Words
  import opened Lifecycle
  import opened Adapters
  import opened Domain
  import opened Store
  import opened Protocol
  import opened Runs

  // ---- every reply against the move ----

  /** Quiescing is reported complete exactly when the runtime quiesces, deferred exactly when it waits. */
  lemma {:induction false} BeginReply(w: World)
    ensures var s, s', r := w.rt.lifecycle, BeginQuiesce(w).0.rt.lifecycle, BeginQuiesce(w).1;
      && (r == Result(SafePreemptionCompleted, Quiescing) <==> s' == Quiescing)
      && (r == Result(DeferToSafePoint, WaitingForSafePoint) <==> s' == WaitingForSafePoint)
      && (r == Threw(IllegalTransition) <==> s == s' == Deferred)
      && (s' != Quiescing && s' != WaitingForSafePoint && s != Deferred ==>
            s' == s && r == Result(CannotPreemptSafely, s))
  {
    PreemptionPaths();
    hide Walk, IsAllowed;
  }

  lemma {:induction false} QuiescedReply(w: World, q: QuiescenceReport)
    ensures var s, s', r := w.rt.lifecycle, ReportQuiesced(w, q).0.rt.lifecycle, ReportQuiesced(w, q).1;
      && (r == Result(SafePreemptionCompleted, Quiesced) <==> s == Quiescing && s' == Quiesced)
      && (r == Result(PreemptionFailed, s) <==> q.workerBoot != w.rt.scope.workerBoot)
      && (r == Result(CannotPreemptSafely, s) <==> q.workerBoot == w.rt.scope.workerBoot && s' == s)
  {
    PreemptionPaths();
    hide Walk, IsAllowed, Environment.AllQuiet;
  }

  lemma {:induction false} CaptureReply(w: World)
    ensures var s, s', r := w.rt.lifecycle, RequestCapture(w).0.rt.lifecycle, RequestCapture(w).1;
      && (r == Result(StateCaptureRequired, CapturingState) <==> s == Quiesced && s' == CapturingState)
      && (r == Result(StateCaptureRequired, ReleasePending) <==> s == Quiesced && s' == ReleasePending)
      && (r == Result(CannotPreemptSafely, s) <==> s != Quiesced)
      && (s != Quiesced ==> s' == s)
  {
    CaptureForm(w);
    hide RequestCapture;
  }

  lemma {:induction false} CapturedReply(w: World, c: CaptureResult)
    ensures var s, s', r := w.rt.lifecycle, ReportCaptured(w, c).0.rt.lifecycle, ReportCaptured(w, c).1;
      && (r == Result(SafePreemptionCompleted, StateDurable) <==> s == CapturingState && s' == StateDurable)
      && (r == Result(PreemptionFailed, Failed) <==> s == CapturingState && s' == Failed)
      && (r == Result(CannotPreemptSafely, s) <==> s != CapturingState)
      && (s != CapturingState ==> s' == s)
  {
    ReleasePaths();
    hide Walk, IsAllowed, Checkpoints.Validates;
  }

  lemma {:induction false} ReleaseReply(w: World)
    ensures var s, s', r := w.rt.lifecycle, RequestRelease(w).0.rt.lifecycle, RequestRelease(w).1;
      var ready := s == StateDurable || s == ReleasePending;
      && (r == Result(SafePreemptionCompleted, Releasing) <==> ready && s' == Releasing)
      && (r == Result(PreemptionFailed, s) <==> ready && s' == s)
      && (r == Result(CannotPreemptSafely, s) <==> !ready)
      && (!ready ==> s' == s)
  {
    ReleasePaths();
    hide Walk, IsAllowed, Broker.ReleaseEach, Broker.Leases;
  }

  lemma {:induction false} ReleasedReply(w: World)
    ensures var s, s', r := w.rt.lifecycle, ReportReleased(w).0.rt.lifecycle, ReportReleased(w).1;
      && (r == Result(SafePreemptionCompleted, ResourcesReleased) <==> s == Releasing && s' == ResourcesReleased)
      && (r == Result(PreemptionFailed, Releasing) <==> s == Releasing && s' == Releasing)
      && (r == Result(CannotPreemptSafely, s) <==> s != Releasing)
      && (s != Releasing ==> s' == s)
  {
    ReleasePaths();
    hide Walk, IsAllowed, Broker.NothingReserved;
  }

  /** A commit is answered with success exactly when it enters Preempted. */
  lemma {:induction false} CommitReply(w: World)
    ensures var s, s', r := w.rt.lifecycle, Commit(w).0.rt.lifecycle, Commit(w).1;
      && (r == Result(SafePreemptionCompleted, Preempted) <==> s == ResourcesReleased && s' == Preempted)
      && (r == Result(PreemptionFailed, ResourcesReleased) <==> s == ResourcesReleased && s' == ResourcesReleased)
      && (r == Result(CannotPreemptSafely, s) <==> s != ResourcesReleased)
      && (s != ResourcesReleased ==> s' == s)
  {
    ReleasePaths();
    hide Walk, IsAllowed;
  }

  /** A resume request is allowed exactly from Preempted, under a new resume generation, the one it answers. */
  lemma {:induction false} ResumeReplied(w: World)
    ensures var s, w', r := w.rt.lifecycle, RequestResume(w).0, RequestResume(w).1;
      && r.ResumeReply? && r.resumeGen == w'.rt.resumeGen
      && (r.allowed <==> s == Preempted && w'.rt.lifecycle == ResumePending)
      && (r.allowed ==> w'.rt.resumeGen == if w.rt.resumeGen == MAX64 then MAX64 else w.rt.resumeGen + 1)
      && (!r.allowed ==> w' == w && s != Preempted)
  {
    ResumePaths();
    hide Walk, IsAllowed;
  }

  /** A revalidation that fails the resume reports the state it found, every other one the state it leaves. */
  lemma {:induction false} RevalidateReply(w: World)
    ensures var s, s', r := w.rt.lifecycle, Revalidate(w).0.rt.lifecycle, Revalidate(w).1;
      var ready := s == ResumePending || s == Revalidating;
      && (r == Result(SafePreemptionCompleted, Restoring) <==> ready && s' == Restoring)
      && (r == Result(PreemptionFailed, s) <==> ready && s' == Failed)
      && (ready && s' == Revalidating ==> r == Result(CannotPreemptSafely, Revalidating))
      && (!ready ==> s' == s && r == Result(CannotPreemptSafely, s))
      && (ready ==> s' == Restoring || s' == Failed || s' == Revalidating)
  {
    RevalidateForm(w);
    hide Revalidate, World.CheckpointCurrent, Environment.DependencyBlocks;
  }

  lemma {:induction false} RestoreReply(w: World)
    ensures var s, s', r := w.rt.lifecycle, RestoreCheckpoint(w).0.rt.lifecycle, RestoreCheckpoint(w).1;
      && (r == Result(SafePreemptionCompleted, ResumeReady) <==> s == Restoring && s' == ResumeReady)
      && (r == Result(PreemptionFailed, Restoring) <==> s == Restoring && s' == Failed)
      && (r == Result(CannotPreemptSafely, s) <==> s != Restoring)
      && (s != Restoring ==> s' == s)
  {
    ResumePaths();
    hide Walk, IsAllowed, World.CheckpointCurrent;
  }

  lemma {:induction false} ConfirmReply(w: World)
    ensures var s, s', r := w.rt.lifecycle, ConfirmResumed(w).0.rt.lifecycle, ConfirmResumed(w).1;
      var ready := s == ResumeReady || s == Resuming;
      && (r == Result(SafePreemptionCompleted, Resumed) <==> ready && s' == Resumed)
      && (r == Result(CannotPreemptSafely, s) <==> !ready)
      && (!ready ==> s' == s)
  {
    ResumePaths();
    hide Walk, IsAllowed;
  }

  // ---- the state an observer can keep ----

  /** What one who sees a call and its reply knows about the runtime afterwards. */
  function Observe(rt: Runtime, op: Op, r: Reply): Runtime {
    match op
    case OpStart(scope) => rt.(scope := scope, lifecycle := Invalid, active := None)
    case OpReincarnate(worker, boot) =>
      rt.(scope := rt.scope.(workerId := worker, workerBoot := boot), fencedBoot := 0)
    case OpDeclare(p) => rt.(safePoints := Insert(rt.safePoints, p.(state := SpDeclared)))
    case OpReach(id, position, capture) => if r == Done then ObserveReach(rt, id, position, capture) else rt
    case OpPublish(position, kind) => if r == Published(true) then ObservePublication(rt, position, kind) else rt
    case OpRequest(q) =>
      if r == Admitted(Accepted, q.id, q.generation)
      then rt.(active := Some(q), authRequestGen := q.generation, lifecycle := Assessing)
      else rt
    case OpRequestResume =>
      if r.ResumeReply? && r.allowed then rt.(lifecycle := ResumePending, resumeGen := r.resumeGen) else rt
    case OpCancel =>
      if rt.lifecycle.Terminal() then rt
      else
        var past := if rt.active.Some?
          then [SupersededRequest(rt.active.value.id, rt.active.value.generation, Cancelled)] else [];
        rt.(lifecycle := Cancelled, history := rt.history + past)
    case OpComplete => if rt.lifecycle.Terminal() || ResumeStage(rt.lifecycle) then rt else rt.(lifecycle := Aborted)
    case _ => if r.Result? then ObserveResult(rt, op, r.outcome, r.lifecycle) else rt
  }

  function ObserveReach(rt: Runtime, id: u64, position: u64, capture: bool): Runtime {
    match Find(rt.safePoints, id)
    case None => rt
    case Some(found) =>
      var p := found.(state := SpValid, position := position, captureRequired := capture);
      var current := if position > rt.progress.current then position else rt.progress.current;
      rt.(safePoints := Insert(rt.safePoints, p), currentPoint := Some(p), progress := rt.progress.(current := current),
          lifecycle := if rt.lifecycle == WaitingForSafePoint then SafePointReached else rt.lifecycle)
  }

  function ObservePublication(rt: Runtime, position: u64, kind: ProgressKind): Runtime {
    var p := rt.progress;
    var current := if position > p.current then position else p.current;
    var generation := if p.generation == MAX64 then MAX64 else p.generation + 1;
    rt.(progress := if kind == Durable then Progress(current, position, generation, generation)
                    else Progress(current, p.durable, generation, p.durableGeneration))
  }

  /** The reported state is the state now, except that a failed revalidation or restore reports what it found. */
  function ObserveResult(rt: Runtime, op: Op, outcome: PreemptionOutcome, reported: LifecycleState): Runtime {
    var now :=
      if outcome == PreemptionFailed && (op.OpRevalidate? || op.OpRestoreCheckpoint?) then Failed else reported;
    var at := rt.(lifecycle := now);
    var b := rt.boundary;
    if op.OpRequestCapture? && now == ReleasePending && outcome == StateCaptureRequired
    then at.(boundary := b.(stateDurable := true))
    else if outcome != SafePreemptionCompleted then at
    else if op.OpReportQuiesced?
    then at.(boundary := b.(quiesced := true, quiescenceGen := op.report.generation))
    else if op.OpReportCaptured?
    then at.(boundary := Boundary(b.quiesced, b.quiescenceGen, true, op.result.captureGen, op.result.checkpointRef,
                                  op.result.checkpointGen, b.resourcesReleased, b.releaseGen))
    else if op.OpReportReleased? then at.(boundary := b.(resourcesReleased := true))
    else if op.OpCommit? then at.(fencedBoot := rt.scope.workerBoot)
    else if op.OpConfirmResumed? then at.(resumed := true)
    else at
  }

  lemma {:induction false} PreemptionObserved(w: World, op: Op)
    requires PreemptionOp(op)
    ensures Step(w, op).0.rt == Observe(w.rt, op, Step(w, op).1)
  {
    PreemptionPaths();
    hide Walk, IsAllowed, Find, Insert, HasAuthority, Environment.AllQuiet, RestoreBytes;
  }

  lemma {:induction false} CaptureObserved(w: World, op: Op)
    requires op.OpRequestCapture? || op.OpReportCaptured?
    ensures Step(w, op).0.rt == Observe(w.rt, op, Step(w, op).1)
  {
    ReleasePaths();
    hide Walk, IsAllowed, Checkpoints.Validates, RestoreBytes, Checkpoints.Captured, Runtime.CaptureRequiredHere;
  }

  lemma {:induction false} ReleaseObserved(w: World, op: Op)
    requires op.OpRequestRelease? || op.OpReportReleased? || op.OpCommit?
    ensures Step(w, op).0.rt == Observe(w.rt, op, Step(w, op).1)
  {
    ReleasePaths();
    hide Walk, IsAllowed, Broker.ReleaseEach, Broker.Leases, Broker.NothingReserved, RestoreBytes;
  }

  lemma {:induction false} ResumeObserved(w: World, op: Op)
    requires ResumeOp(op)
    ensures Step(w, op).0.rt == Observe(w.rt, op, Step(w, op).1)
  {
    ResumePaths();
    hide Walk, IsAllowed, RestoreBytes, World.CheckpointCurrent, Environment.DependencyBlocks;
  }

  /** A call and its reply determine the new state. */
  lemma {:induction false} StepObserved(w: World, op: Op)
    requires !Recovers(op)
    ensures Step(w, op).0.rt == Observe(w.rt, op, Step(w, op).1)
  {
    if op.OpRestoreBytes? {
      RejectedIsIdle(w, op);
      hide Step, Recovers;
    } else if PreemptionOp(op) {
      PreemptionObserved(w, op);
      hide Step, Observe, Recovers;
    } else if op.OpRequestCapture? || op.OpReportCaptured? {
      CaptureObserved(w, op);
      hide Step, Observe, Recovers;
    } else if ReleaseOp(op) {
      ReleaseObserved(w, op);
      hide Step, Observe, Recovers;
    } else if ResumeOp(op) {
      ResumeObserved(w, op);
      hide Step, Observe, Recovers;
    } else {
      hide Recovers, RestoreBytes, Insert, Find, Walk;
    }
  }

  /** The state an observer reconstructs from the first k calls and replies. */
  ghost function Watched(ws: seq<World>, ops: seq<Op>, k: nat): Runtime
    requires |ws| == |ops| + 1 && k <= |ops|
  {
    if k == 0 then FreshRuntime(ws[0].rt.epoch, ws[0].rt.policy)
    else Observe(Watched(ws, ops, k - 1), ops[k - 1], Step(ws[k - 1], ops[k - 1]).1)
  }

  /** Nothing is hidden: in every restore-free run the whole state of the runtime is what an observer of the calls and
      their replies reconstructs. */
  lemma {:induction false} StateIsObservable(ws: seq<World>, ops: seq<Op>, k: nat)
    requires IsRun(ws, ops) && Fresh(ws[0]) && RestoreFree(ops) && k < |ws|
    ensures ws[k].rt == Watched(ws, ops, k)
    decreases k
  {
    hide Step, Observe, Recovers;
    if k > 0 {
      StateIsObservable(ws, ops, k - 1);
      StepObserved(ws[k - 1], ops[k - 1]);
    }
  }

  // ---- safe points and images ----

  /** A declaration answers the identifier under which the point is found from then on, as declared. */
  lemma {:induction false} DeclareReply(w: World, p: SafePoint)
    requires Sorted(w.rt.safePoints)
    ensures var (w', r) := Declare(w, p);
      r == DeclaredPoint(p.id) && Find(w'.rt.safePoints, p.id) == Some(p.(state := SpDeclared))
  {
    FindInserted(w.rt.safePoints, p.(state := SpDeclared), p.id);
    hide Insert, Find;
  }

  /** Reaching throws exactly for an identifier that no declared point has; otherwise the point is found valid, with the
      position and the capture flag of the call. */
  lemma {:induction false} ReachReply(w: World, id: u64, position: u64, capture: bool)
    requires Sorted(w.rt.safePoints)
    ensures var (w', r), found := Reach(w, id, position, capture), Find(w.rt.safePoints, id);
      && (r == Threw(UnknownSafePoint) <==> found.None?) && (r == Done <==> found.Some?) && (found.None? ==> w' == w)
      && (found.Some? ==>
            var p := found.value.(state := SpValid, position := position, captureRequired := capture);
            Find(w'.rt.safePoints, id) == Some(p))
  {
    PreemptionEdges();
    var found := Find(w.rt.safePoints, id);
    if found.Some? {
      var p := found.value.(state := SpValid, position := position, captureRequired := capture);
      FindInserted(w.rt.safePoints, p, id);
    }
    hide Insert, Find, IsAllowed;
  }

  /** A recovery is confirmed exactly for an accepted image; a rejected one changes nothing. */
  lemma {:induction false} RecoveryReply(w: World, bytes: seq<byte>)
    ensures RestoreBytes(w, bytes).1 == Recovered(Decoded(bytes).ImageOk?)
    ensures !Decoded(bytes).ImageOk? ==> RestoreBytes(w, bytes).0 == w
  {
    hide Decoded, Restore;
  }

  // ---- publication ----

  /** A publication is accepted exactly from the attempt that holds authority, on the boot that holds it, at or beyond
      the durable position, whatever its kind. */
  lemma {:induction false} PublicationReply(w: World, position: u64, kind: ProgressKind)
    ensures var a, t, r := w.env.authority, w.rt.scope, Publish(w, position, kind).1;
      && r.Published?
      && (r.published <==>
            && a.authoritative && a.execution == t.executionId && a.attempt == t.attemptId && a.boot == t.workerBoot
            && position >= w.rt.progress.durable)
      && (!r.published ==> Publish(w, position, kind).0 == w)
  {
  }

  // ---- authority ----

  /** What a call and its reply do to the authority record. */
  function Regranted(a: Authority, epoch: u64, t: Scope, op: Op, r: Reply): Authority {
    var completed := r.Result? && r.outcome == SafePreemptionCompleted;
    match op
    case OpStart(n) => Authority(true, n.executionId, n.attemptId, n.executionGen, n.attemptGen, epoch, n.workerBoot)
    case EnvAuthority(given) => given
    case OpCommit => if completed then a.(authoritative := false) else a
    case OpConfirmResumed =>
      var next := if a.attemptGen == MAX64 then MAX64 else a.attemptGen + 1;
      if completed then Authority(true, t.executionId, t.attemptId, t.executionGen, next, a.epoch, t.workerBoot) else a
    case _ => a
  }

  /** The authority record that an observer of calls, replies and environment keeps. */
  ghost function GrantWatched(ws: seq<World>, ops: seq<Op>, k: nat): Authority
    requires |ws| == |ops| + 1 && k <= |ops|
  {
    if k == 0 then ws[0].env.authority
    else
      var w, op := ws[k - 1], ops[k - 1];
      Regranted(GrantWatched(ws, ops, k - 1), ws[0].rt.epoch, w.rt.scope, op, Step(w, op).1)
  }

  lemma {:induction false} StepRegranted(w: World, op: Op)
    requires !Recovers(op)
    ensures Step(w, op).0.env.authority == Regranted(w.env.authority, w.rt.epoch, w.rt.scope, op, Step(w, op).1)
  {
    match op
    case OpStart(_) => hide RestoreBytes, Recovers;
    case EnvAuthority(_) => hide RestoreBytes, Recovers;
    case OpCommit =>
      CommitRegranted(w);
      hide Commit, Regranted, RestoreBytes, Recovers;
    case OpConfirmResumed =>
      ConfirmRegranted(w);
      hide ConfirmResumed, Regranted, RestoreBytes, Recovers;
    case _ =>
      OtherAuthority(w, op);
      hide Step, Recovers;
  }

  lemma {:induction false} CommitRegranted(w: World)
    ensures Commit(w).0.env.authority == Regranted(w.env.authority, w.rt.epoch, w.rt.scope, OpCommit, Commit(w).1)
  {
    ReleasePaths();
    hide Walk, IsAllowed;
  }

  lemma {:induction false} ConfirmRegranted(w: World)
    ensures ConfirmResumed(w).0.env.authority ==
      Regranted(w.env.authority, w.rt.epoch, w.rt.scope, OpConfirmResumed, ConfirmResumed(w).1)
  {
    ResumePaths();
    hide Walk, IsAllowed;
  }

  lemma {:induction false} OtherAuthority(w: World, op: Op)
    requires !Recovers(op) && !op.OpStart? && !op.EnvAuthority? && !op.OpCommit? && !op.OpConfirmResumed?
    ensures Step(w, op).0.env.authority == w.env.authority
  {
    if op.OpRestoreBytes? { RejectedIsIdle(w, op); }
    hide Walk, IsAllowed, Find, Insert, HasAuthority, Environment.AllQuiet, RestoreBytes, Recovers;
    hide Broker.ReleaseEach, Broker.Leases, Broker.NothingReserved, Checkpoints.Validates;
  }

  /** In every restore-free run the authority record is the one of the last start or environment change, fenced by
      commits and renewed, one attempt generation up, by confirmed resumes. */
  lemma {:induction false} AuthorityIsObservable(ws: seq<World>, ops: seq<Op>, k: nat)
    requires IsRun(ws, ops) && RestoreFree(ops) && k < |ws|
    ensures ws[k].env.authority == GrantWatched(ws, ops, k) && ws[k].rt.epoch == ws[0].rt.epoch
    decreases k
  {
    hide Step, Recovers, Regranted;
    if k > 0 {
      AuthorityIsObservable(ws, ops, k - 1);
      StepRegranted(ws[k - 1], ops[k - 1]);
      StepFrame(ws[k - 1], ops[k - 1]);
      assert ws[k] == Step(ws[k - 1], ops[k - 1]).0;
    }
  }

  // ---- captures ----

  /** A capture that is asked for is counted and answered under the next checkpoint generation. */
  lemma {:induction false} CaptureIsRecorded(w: World)
    requires RequestCapture(w).0.rt.lifecycle == CapturingState && w.rt.lifecycle == Quiesced
    ensures var cp, cp', g := w.env.checkpoints, RequestCapture(w).0.env.checkpoints, w.rt.boundary.checkpointGen;
      var n := if cp.captureCount == MAX64 then 0 else cp.captureCount + 1;
      var e := if g == MAX64 then MAX64 else g + 1;
      && cp'.captureCount == n && cp'.captureSucceeds == cp.captureSucceeds && cp'.valid == cp.valid
      && cp'.currentGen == cp.currentGen
      && cp'.lastCapture == Some(CaptureResult(true, cp.captureSucceeds, n, e, n, e))
  {
    CaptureForm(w);
    hide RequestCapture;
  }

  // ---- assessment and explanation ----

  /** The assessment, class by class. */
  lemma {:induction false} AssessmentReply(rt: Runtime)
    ensures var a, at := Assess(rt), rt.currentPoint.Some? && rt.currentPoint.value.state == SpValid;
      var s := rt.lifecycle;
      var settled := s == Quiesced || s == StateDurable || s == ReleasePending;
      && (a.class_ == PreemptibleAfterStateCapture <==> at && rt.currentPoint.value.captureRequired)
      && (a.class_ == PreemptibleNow <==>
            (at && !rt.currentPoint.value.captureRequired) || (!at && rt.safePoints == [] && settled))
      && (a.class_ == PreemptibleAtSafePoint <==> !at && rt.safePoints != [])
      && (a.class_ == UnknownPreemptibility <==> !at && rt.safePoints == [] && !settled)
      && a.lastDurable == rt.progress.durable && a.current == rt.progress.current
      && (if a.current > a.lastDurable then a.current == a.lastDurable + a.maxRollback else a.maxRollback == 0)
  {
  }

  /** The explanation, entry by entry, in every state. */
  lemma {:induction false} ExplanationReply(w: World)
    ensures var out, b, cp := ResumeBlockers(w), w.rt.boundary, w.env.checkpoints;
      var past := w.rt.lifecycle.PreemptedDurable();
      && (NotPreempted in out <==> !past)
      && (NoDurableState in out <==> past && !b.stateDurable)
      && (ResourcesHeld in out <==> past && !b.resourcesReleased)
      && (CheckpointMissing in out <==> past && b.checkpointRef == 0)
      && (CheckpointStale in out <==> past && b.checkpointRef != 0 && !(cp.valid && b.checkpointGen == cp.currentGen))
      && (DependencyStale in out <==> past && w.env.dependency == Stale)
      && (DependencyMissing in out <==> past && w.env.dependency == Missing)
      && (Eligible in out <==> out == [Eligible])
      && |out| >= 1
  {
    hide LifecycleState.PreemptedDurable, ResumeBlockers, When, Dependencies;
    if w.rt.lifecycle.PreemptedDurable() {
      BlockersInFive(w);
    } else {
      NoBoundary(w);
    }
  }

  lemma {:induction false} NoBoundary(w: World)
    requires !w.rt.lifecycle.PreemptedDurable()
    ensures ResumeBlockers(w) == [NotPreempted]
  {
    hide LifecycleState.PreemptedDurable;
  }

  /** The entries that hold, eligibility aside. */
  predicate Blocks(w: World, e: Blocker) {
    var b := w.rt.boundary;
    || (e == NoDurableState && !b.stateDurable) || (e == ResourcesHeld && !b.resourcesReleased)
    || (e == CheckpointMissing && b.checkpointRef == 0) || (e == CheckpointStale && !w.CheckpointCurrent())
    || (e == DependencyStale && w.env.dependency == Stale) || (e == DependencyMissing && w.env.dependency == Missing)
  }

  function When(condition: bool, e: Blocker): (out: seq<Blocker>)
    ensures forall x :: x in out <==> condition && x == e
  {
    if condition then [e] else []
  }

  function Dependencies(w: World): (out: seq<Blocker>)
    ensures forall x :: x in out <==>
      (w.env.dependency == Stale && x == DependencyStale) || (w.env.dependency == Missing && x == DependencyMissing)
  {
    When(w.env.dependency == Stale, DependencyStale) + When(w.env.dependency == Missing, DependencyMissing)
  }

  function Five(w: World): seq<Blocker> {
    var b := w.rt.boundary;
    When(!b.stateDurable, NoDurableState) + When(!b.resourcesReleased, ResourcesHeld) +
    When(b.checkpointRef == 0, CheckpointMissing) + When(!w.CheckpointCurrent(), CheckpointStale) + Dependencies(w)
  }

  lemma {:induction false} FiveAre(w: World)
    ensures forall e :: e in Five(w) <==> Blocks(w, e)
  {
    hide When, Dependencies, World.CheckpointCurrent;
    var b := w.rt.boundary;
    FiveLists(When(!b.stateDurable, NoDurableState), When(!b.resourcesReleased, ResourcesHeld),
              When(b.checkpointRef == 0, CheckpointMissing), When(!w.CheckpointCurrent(), CheckpointStale),
              Dependencies(w));
  }

  lemma {:induction false} BlockersAreFive(w: World)
    requires w.rt.lifecycle.PreemptedDurable()
    ensures ResumeBlockers(w) == if Five(w) == [] then [Eligible] else Five(w)
  {
    hide LifecycleState.PreemptedDurable, World.CheckpointCurrent;
  }

  lemma {:induction false} BlockersInFive(w: World)
    requires w.rt.lifecycle.PreemptedDurable()
    ensures forall e :: e in ResumeBlockers(w) && e != Eligible <==> Blocks(w, e)
    ensures Eligible in ResumeBlockers(w) <==> ResumeBlockers(w) == [Eligible]
    ensures |ResumeBlockers(w)| >= 1
  {
    BlockersAreFive(w);
    FiveAre(w);
    hide ResumeBlockers, Five, LifecycleState.PreemptedDurable, World.CheckpointCurrent;
    if Five(w) != [] { assert !Blocks(w, Eligible); }
  }

  lemma {:induction false} FiveLists<T>(x: seq<T>, y: seq<T>, z: seq<T>, u: seq<T>, v: seq<T>)
    ensures forall e :: e in x + y + z + u + v <==> e in x || e in y || e in z || e in u || e in v
  {
  }
}
