/** A runtime and the one recovered from its image: how far they give the same answers, in every lifecycle state, and
    which calls tell them apart. */
module Bisimulation {
  import opened Words
  import opened Lifecycle
  import opened Adapters
  import opened Domain
  import opened Store
  import opened Protocol
  import opened Runs
  import opened Recovery

  // ---- what the two share ----

  predicate SameRequest(x: Option<Request>, y: Option<Request>) {
    match (x, y)
    case (None, None) => true
    case (Some(r), Some(s)) => r.id == s.id && r.generation == s.generation
    case _ => false
  }

  /** Equal in everything the durable image shows; in-memory progress and the safe point last reached may differ. */
  predicate AlikeRuntimes(x: Runtime, y: Runtime) {
    && x.epoch == y.epoch && x.policy == y.policy && x.scope == y.scope && x.fencedBoot == y.fencedBoot
    && x.lifecycle == y.lifecycle && SameRequest(x.active, y.active) && x.safePoints == y.safePoints
    && x.progress.durable == y.progress.durable && x.progress.durableGeneration == y.progress.durableGeneration
    && x.boundary == y.boundary && x.resumeGen == y.resumeGen && x.history == y.history
  }

  /** Only the authority record may differ between the environments. */
  predicate Alike(a: World, b: World) {
    && AlikeRuntimes(a.rt, b.rt)
    && a.env.checkpoints == b.env.checkpoints && a.env.broker == b.env.broker
    && a.env.dependency == b.env.dependency && a.env.quiet == b.env.quiet
  }

  lemma AlikeSnapshots(a: World, b: World)
    requires Alike(a, b)
    ensures Snapshot(a.rt) == Snapshot(b.rt)
  {
  }

  predicate SamePoint(a: World, b: World) {
    Alike(a, b) && a.rt.currentPoint == b.rt.currentPoint
  }

  // ---- one step ----

  /** Equal replies, and still together afterwards. */
  predicate Agree(a: World, b: World, op: Op) {
    Step(a, op).1 == Step(b, op).1 && SamePoint(Step(a, op).0, Step(b, op).0)
  }

  lemma {:induction false} RequestAgrees(a: World, b: World, op: Op)
    requires SamePoint(a, b) && op.OpRequest?
    ensures Agree(a, b, op)
  {
    hide Walk, IsAllowed, RestoreBytes;
  }

  lemma {:induction false} ReachAgrees(a: World, b: World, op: Op)
    requires SamePoint(a, b) && op.OpReach?
    ensures Agree(a, b, op)
  {
    hide IsAllowed, Find, Insert, RestoreBytes;
  }

  lemma {:induction false} QuiesceAgrees(a: World, b: World, op: Op)
    requires SamePoint(a, b) && (op.OpBeginQuiesce? || op.OpReportQuiesced?)
    ensures Agree(a, b, op)
  {
    hide Walk, IsAllowed, RestoreBytes;
  }

  lemma {:induction false} CaptureAgrees(a: World, b: World, op: Op)
    requires SamePoint(a, b) && (op.OpRequestCapture? || op.OpReportCaptured?)
    ensures Agree(a, b, op)
  {
    hide Walk, IsAllowed, RestoreBytes;
  }

  lemma {:induction false} ReleaseAgrees(a: World, b: World, op: Op)
    requires SamePoint(a, b) && (op.OpRequestRelease? || op.OpReportReleased? || op.OpCommit?)
    ensures Agree(a, b, op)
  {
    hide Walk, IsAllowed, Broker.ReleaseEach, Broker.Leases, Broker.NothingReserved, RestoreBytes;
  }

  lemma {:induction false} RevalidateAgrees(a: World, b: World, op: Op)
    requires SamePoint(a, b) && op.OpRevalidate?
    ensures Agree(a, b, op)
  {
    hide Walk, IsAllowed, RestoreBytes;
  }

  lemma {:induction false} ResumeAgrees(a: World, b: World, op: Op)
    requires SamePoint(a, b) && ResumeOp(op) && !op.OpRevalidate?
    ensures Agree(a, b, op)
  {
    hide Walk, IsAllowed, RestoreBytes;
  }

  lemma {:induction false} OtherAgrees(a: World, b: World, op: Op)
    requires SamePoint(a, b) && !op.OpPublish? && !PreemptionOp(op) && !ReleaseOp(op) && !ResumeOp(op)
    ensures Agree(a, b, op)
  {
    hide Insert, InsertAll, Decoded;
  }

  /** At the same safe point every operation but publication gives the same reply and keeps the two together. */
  lemma {:induction false} SamePointStep(a: World, b: World, op: Op)
    requires SamePoint(a, b) && !op.OpPublish?
    ensures Agree(a, b, op)
  {
    hide Agree, SamePoint;
    match op
    case OpRequest(_) => RequestAgrees(a, b, op);
    case OpReach(_, _, _) => ReachAgrees(a, b, op);
    case OpBeginQuiesce | OpReportQuiesced(_) => QuiesceAgrees(a, b, op);
    case OpRequestCapture | OpReportCaptured(_) => CaptureAgrees(a, b, op);
    case OpRequestRelease | OpReportReleased | OpCommit => ReleaseAgrees(a, b, op);
    case OpRevalidate => RevalidateAgrees(a, b, op);
    case OpRequestResume | OpRestoreCheckpoint | OpConfirmResumed => ResumeAgrees(a, b, op);
    case _ => OtherAgrees(a, b, op);
  }

  // ---- where the two can differ ----

  /** Alike, but the original is at a valid safe point and the recovered runtime at none. */
  predicate Split(a: World, b: World) {
    Alike(a, b) && a.rt.AtValidBoundary() && b.rt.currentPoint.None?
  }

  /** The calls that look at the safe point: beginning to quiesce while assessing or deferred, and asking for the
      capture that a point demands. */
  predicate Observes(w: World, op: Op) {
    || (op.OpBeginQuiesce? && (w.rt.lifecycle == Assessing || w.rt.lifecycle == Deferred))
    || (op.OpRequestCapture? && w.rt.lifecycle == Quiesced && w.rt.CaptureRequiredHere())
  }

  /** Put b at a's safe point. */
  function AtPointOf(a: World, b: World): World {
    b.(rt := b.rt.(currentPoint := a.rt.currentPoint))
  }

  /** The step does not depend on the safe point last reached. */
  ghost predicate Overlooks(a: World, b: World, op: Op) {
    var (b1, r1) := Step(b, op);
    var (b2, r2) := Step(AtPointOf(a, b), op);
    && r1 == r2
    && (if Reaches(b, op) then b1 == b2 else AtPointOf(a, b1) == b2 && b1.rt.currentPoint == b.rt.currentPoint)
  }

  lemma {:induction false} BoundaryOverlooks(a: World, b: World, op: Op)
    requires op.OpBeginQuiesce? || op.OpReportQuiesced? || op.OpRequestCapture? || op.OpReportCaptured?
    requires b.rt.currentPoint.None? && !Observes(AtPointOf(a, b), op)
    ensures Overlooks(a, b, op)
  {
    hide RestoreBytes, Walk, Environment.AllQuiet;
  }

  lemma {:induction false} ReleaseOverlooks(a: World, b: World, op: Op)
    requires op.OpRequestRelease? || op.OpReportReleased? || op.OpCommit?
    ensures Overlooks(a, b, op)
  {
    hide Walk, RestoreBytes, Broker.ReleaseEach, Broker.Leases, Broker.NothingReserved;
  }

  lemma {:induction false} ResumeOverlooks(a: World, b: World, op: Op)
    requires ResumeOp(op)
    ensures Overlooks(a, b, op)
  {
    hide Walk, RestoreBytes;
  }

  lemma {:induction false} RecoveryOverlooks(a: World, b: World, op: Op)
    requires op.OpRestoreBytes?
    ensures Overlooks(a, b, op)
  {
    hide Decoded, InsertAll;
  }

  lemma {:induction false} OtherOverlooks(a: World, b: World, op: Op)
    requires !op.OpBeginQuiesce? && !op.OpReportQuiesced? && !ReleaseOp(op) && !ResumeOp(op)
    requires !op.OpRestoreBytes? && !op.OpPublish?
    ensures Overlooks(a, b, op)
  {
    hide Walk, IsAllowed, Find, Insert, RestoreBytes;
  }

  lemma {:induction false} PointIrrelevant(a: World, b: World, op: Op)
    requires b.rt.currentPoint.None? && !Observes(AtPointOf(a, b), op) && !op.OpPublish?
    ensures Overlooks(a, b, op)
  {
    hide Overlooks, Observes;
    match op
    case OpBeginQuiesce | OpReportQuiesced(_) | OpRequestCapture | OpReportCaptured(_) => BoundaryOverlooks(a, b, op);
    case OpRequestRelease | OpReportReleased | OpCommit => ReleaseOverlooks(a, b, op);
    case OpRequestResume | OpRevalidate | OpRestoreCheckpoint | OpConfirmResumed => ResumeOverlooks(a, b, op);
    case OpRestoreBytes(_) => RecoveryOverlooks(a, b, op);
    case _ => OtherOverlooks(a, b, op);
  }

  lemma {:induction false} SplitAtPoint(a: World, b: World, op: Op)
    requires Split(a, b)
    ensures SamePoint(a, AtPointOf(a, b)) && Observes(a, op) == Observes(AtPointOf(a, b), op)
    ensures Reaches(a, op) == Reaches(b, op)
  {
    hide Find;
  }

  /** A call that does not look: equal replies; reaching a safe point puts the two at the same one, anything else leaves
      them split. */
  lemma {:induction false} SplitStep(a: World, b: World, op: Op)
    requires Split(a, b) && !Observes(a, op) && !op.OpPublish?
    ensures Step(a, op).1 == Step(b, op).1
    ensures var a', b' := Step(a, op).0, Step(b, op).0;
      if Reaches(a, op) then SamePoint(a', b') else Split(a', b')
  {
    SplitAtPoint(a, b, op);
    SamePointStep(a, AtPointOf(a, b), op);
    PointIrrelevant(a, b, op);
    StepPoint(a, op);
    hide Step, Observes, Reaches;
  }

  /** A call that looks tells the two apart by its reply. */
  lemma {:induction false} ObservationDiffers(a: World, b: World, op: Op)
    requires Split(a, b) && Observes(a, op)
    ensures Step(a, op).1 != Step(b, op).1
  {
    PreemptionPaths();
    ReleasePaths();
    hide Walk, IsAllowed, RestoreBytes;
  }

  // ---- whole runs ----

  /** A known safe point has been reached before step k. */
  ghost predicate ReachedBefore(ws: seq<World>, ops: seq<Op>, k: nat)
    requires |ws| == |ops| + 1 && k <= |ops|
  {
    exists j :: 0 <= j < k && Reaches(ws[j], ops[j])
  }

  /** No call looks at the safe point before one is reached: the original can tell before each call. */
  ghost predicate LooksAfterReach(ws: seq<World>, ops: seq<Op>, k: nat)
    requires |ws| == |ops| + 1 && k <= |ops|
  {
    forall j :: 0 <= j < k && Observes(ws[j], ops[j]) ==> ReachedBefore(ws, ops, j)
  }

  predicate NoPublication(ops: seq<Op>) {
    forall j :: 0 <= j < |ops| ==> !ops[j].OpPublish?
  }

  /** The first k replies are the same. */
  ghost predicate SameReplies(as_: seq<World>, bs: seq<World>, ops: seq<Op>, k: nat)
    requires |as_| == |bs| == |ops| + 1 && k <= |ops|
  {
    forall j :: 0 <= j < k ==> Step(as_[j], ops[j]).1 == Step(bs[j], ops[j]).1
  }

  predicate Together(a: World, b: World, reached: bool) {
    if reached then SamePoint(a, b) else Split(a, b)
  }

  lemma {:induction false} PairedRuns(as_: seq<World>, bs: seq<World>, ops: seq<Op>, k: nat)
    requires IsRun(as_, ops) && IsRun(bs, ops) && Split(as_[0], bs[0]) && NoPublication(ops) && k < |as_|
    requires LooksAfterReach(as_, ops, k)
    ensures Together(as_[k], bs[k], ReachedBefore(as_, ops, k)) && SameReplies(as_, bs, ops, k)
    decreases k
  {
    hide Step, Split, SamePoint, Reaches, Observes;
    if k > 0 {
      var j := k - 1;
      PairedRuns(as_, bs, ops, j);
      if ReachedBefore(as_, ops, j) {
        SamePointStep(as_[j], bs[j], ops[j]);
      } else {
        SplitStep(as_[j], bs[j], ops[j]);
      }
    }
  }

  /** From a split pair, runs without publication answer alike up to k exactly when no call looks at the safe point
      before one is reached. */
  lemma {:induction false} SplitRunsAgree(as_: seq<World>, bs: seq<World>, ops: seq<Op>, k: nat)
    requires IsRun(as_, ops) && IsRun(bs, ops) && Split(as_[0], bs[0]) && NoPublication(ops) && k < |as_|
    ensures SameReplies(as_, bs, ops, k) <==> LooksAfterReach(as_, ops, k)
    decreases k
  {
    hide Step, Split, SamePoint, Reaches, Observes, ReachedBefore;
    if LooksAfterReach(as_, ops, k) {
      PairedRuns(as_, bs, ops, k);
    } else if SameReplies(as_, bs, ops, k) {
      var j := k - 1;
      SplitRunsAgree(as_, bs, ops, j);
      PairedRuns(as_, bs, ops, j);
      ObservationDiffers(as_[j], bs[j], ops[j]);
      assert false;
    }
  }

  lemma {:induction false} SamePointRuns(as_: seq<World>, bs: seq<World>, ops: seq<Op>, k: nat)
    requires IsRun(as_, ops) && IsRun(bs, ops) && SamePoint(as_[0], bs[0]) && NoPublication(ops) && k < |as_|
    ensures SamePoint(as_[k], bs[k]) && SameReplies(as_, bs, ops, k)
    decreases k
  {
    hide Step, SamePoint;
    if k > 0 {
      SamePointRuns(as_, bs, ops, k - 1);
      SamePointStep(as_[k - 1], bs[k - 1], ops[k - 1]);
    }
  }

  lemma {:induction false} TogetherSnapshots(a: World, b: World)
    requires SamePoint(a, b) || Split(a, b)
    ensures Snapshot(a.rt) == Snapshot(b.rt)
  {
    AlikeSnapshots(a, b);
    hide Alike, Snapshot;
  }

  // ---- the recovered runtime ----

  /** Recovery into the same environment, but for the authority record: the recovered world is alike and at no safe
      point. */
  lemma {:induction false} RecoveredIsAlike(w: World, authority: Authority)
    requires Attainable(w) && SelfDecodes(w.rt)
    ensures var v := RecoveredFrom(w.rt, w.env.(authority := authority));
      && Alike(w, v) && v.rt.currentPoint.None?
      && (if w.rt.currentPoint.Some? then Split(w, v) else SamePoint(w, v))
  {
    AttainableIsSound(w);
    RecoveredSnapshot(w, w.env.(authority := authority));
    InsertAllOfSorted(w.rt.safePoints);
    hide Attainable, SelfDecodes, InsertAll, RecoveredFrom, Snapshot, Sorted;
    RestoredIsAlike(w, authority);
  }

  lemma {:induction false} RestoredIsAlike(w: World, authority: Authority)
    requires (w.rt.active.Some? ==> w.rt.active.value.id != 0) && InsertAll([], w.rt.safePoints) == w.rt.safePoints
    ensures var blank := World(FreshRuntime(w.rt.epoch, w.rt.policy), w.env.(authority := authority));
      var v := Restore(blank, Snapshot(w.rt));
      Alike(w, v) && v.rt.currentPoint.None?
  {
    hide InsertAll, LifecycleState.PreemptedDurable;
  }

  /** Recovery is a bisimulation, exactly as far as the safe point is not looked at. Let a fresh runtime with the same
      epoch and policy recover the accepted image of any runtime that ever runs, in any lifecycle state. Under any
      further operations, starts and recoveries included, and environment changes, but no publication, the two give
      equal replies up to k if and only if the original had reached no safe point, or every call that looks at one comes
      after one is reached anew; and then their snapshots are equal too. */
  lemma {:induction false} RecoveryBisimulates(
    w: World, authority: Authority, as_: seq<World>, bs: seq<World>, ops: seq<Op>, k: nat)
    requires Attainable(w) && SelfDecodes(w.rt)
    requires IsRun(as_, ops) && as_[0] == w
    requires IsRun(bs, ops) && bs[0] == RecoveredFrom(w.rt, w.env.(authority := authority))
    requires NoPublication(ops) && k < |as_|
    ensures SameReplies(as_, bs, ops, k) <==> w.rt.currentPoint.None? || LooksAfterReach(as_, ops, k)
    ensures SameReplies(as_, bs, ops, k) ==> Snapshot(as_[k].rt) == Snapshot(bs[k].rt)
  {
    RecoveredIsAlike(w, authority);
    hide Step, Attainable, SelfDecodes, RecoveredFrom, Alike, SamePoint, Split, LooksAfterReach, SameReplies;
    hide NoPublication, ReachedBefore, IsRun;
    if w.rt.currentPoint.None? {
      SamePointRuns(as_, bs, ops, k);
      TogetherSnapshots(as_[k], bs[k]);
    } else {
      SplitRunsAgree(as_, bs, ops, k);
      if LooksAfterReach(as_, ops, k) {
        PairedRuns(as_, bs, ops, k);
        TogetherSnapshots(as_[k], bs[k]);
      }
    }
  }

  /** How the next execution meets the condition or fails it: begun without reaching a safe point of its own, it
      quiesces at once at the point of the execution before, where the recovered runtime waits. */
  lemma {:induction false} StalePointDiverges(a: World, b: World, scope: Scope, r: Request)
    requires Split(a, b) && Accepts(Start(a, scope), OpRequest(r))
    ensures var a2 := RequestPreemption(Start(a, scope), r).0;
      BeginQuiesce(a2).0.rt.lifecycle == Quiescing && BeginQuiesce(a2).1 == Result(SafePreemptionCompleted, Quiescing)
    ensures var b2 := RequestPreemption(Start(b, scope), r).0;
      BeginQuiesce(b2).0.rt.lifecycle == WaitingForSafePoint &&
      BeginQuiesce(b2).1 == Result(DeferToSafePoint, WaitingForSafePoint)
  {
    PreemptionPaths();
    hide Walk, IsAllowed;
  }

  /** Publication is a different matter: recovery grants authority again, so the recovered runtime publishes where the
      fenced one refuses. */
  lemma {:induction false} PublicationDiverges(w: World, authority: Authority, position: u64, kind: ProgressKind)
    requires Attainable(w) && SelfDecodes(w.rt) && !w.env.authority.authoritative && position >= w.rt.progress.durable
    ensures Publish(w, position, kind).1 == Published(false)
    ensures Publish(RecoveredFrom(w.rt, w.env.(authority := authority)), position, kind).1 == Published(true)
  {
    RecoveredSnapshot(w, w.env.(authority := authority));
    hide Attainable, SelfDecodes, RecoveredFrom, InsertAll;
  }
}
