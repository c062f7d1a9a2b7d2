/** The runtime as the code keeps it (src/runtime.cpp): an object over a lifecycle machine and its adapters, each
    method proved to compute the protocol's function of the state it finds. A returned Threw stands for the exception
    the source throws. */
module RuntimeCode {
  import opened Words
  import opened Lifecycle
  import opened Adapters
  import opened Domain
  import opened Store
  import StoreCode
  import opened Protocol
  import opened Runs
  import opened Drivers

  class PreemptionRuntime {
    const epoch: u64
    const policy: u64
    const machine: LifecycleStateMachine
    const adapters: ReferenceAdapters
    var scope: Scope
    var fencedBoot: u64
    var active: Option<Request>
    var authRequestGen: u64
    var safePoints: seq<SafePoint>
    var currentPoint: Option<SafePoint>
    var progress: Progress
    var boundary: Boundary
    var resumeGen: u64
    var resumed: bool
    var history: seq<PastRequest>

    ghost function View(): World
      reads this, machine, adapters
    {
      World(
        Runtime(epoch, policy, scope, fencedBoot, machine.state, active, authRequestGen, safePoints, currentPoint,
                progress, boundary, resumeGen, resumed, history),
        adapters.View())
    }

    constructor (epoch: u64, policy: u64, adapters: ReferenceAdapters)
      ensures View() == World(FreshRuntime(epoch, policy), old(adapters.View()))
      ensures this.adapters == adapters && fresh(machine)
    {
      this.epoch, this.policy, this.adapters := epoch, policy, adapters;
      machine := new LifecycleStateMachine();
      scope, fencedBoot, active, authRequestGen := Scope(0, 0, 0, 0, 0, 0, 0, 0), 0, None, 0;
      safePoints, currentPoint, progress := [], None, Progress(0, 0, 0, 0);
      boundary, resumeGen, resumed, history := Boundary(false, 0, false, 0, 0, 0, false, 0), 0, false, [];
    }

    method StartExecution(s: Scope)
      modifies this`scope, this`active, machine, adapters`authority
      ensures View() == Start(old(View()), s)
    {
      scope := s;
      machine.Reset(Invalid);
      active := None;
      adapters.SetAuthoritative(s.executionId, s.attemptId, s.executionGen, s.attemptGen, epoch, s.workerBoot);
    }

    method DeclareSafePoint(p: SafePoint) returns (id: u64)
      modifies this`safePoints
      ensures (View(), DeclaredPoint(id)) == Declare(old(View()), p)
    {
      var copy := p.(state := SpDeclared);
      safePoints := Insert(safePoints, copy);
      id := copy.id;
    }

    method ReachSafePoint(id: u64, position: u64, capture: bool) returns (r: Reply)
      modifies this`safePoints, this`currentPoint, this`progress, machine
      ensures (View(), r) == Reach(old(View()), id, position, capture)
    {
      hide Insert, Find, IsAllowed;
      var found := Find(safePoints, id);
      if found.None? { return Threw(UnknownSafePoint); }
      var p := found.value.(state := SpValid, position := position, captureRequired := capture);
      safePoints := Insert(safePoints, p);
      currentPoint := Some(p);
      if progress.current < position { progress := progress.(current := position); }
      if machine.state == WaitingForSafePoint {
        var ok := machine.Transition(SafePointReached);
        if !ok { return Threw(IllegalTransition); }
      }
      r := Done;
    }

    method PublishProgress(position: u64, kind: ProgressKind) returns (published: bool)
      modifies this`progress
      ensures (View(), Published(published)) == Publish(old(View()), position, kind)
    {
      var a := adapters.authority;
      var authoritative := a.authoritative && a.execution == scope.executionId && a.attempt == scope.attemptId;
      if !authoritative || a.boot != scope.workerBoot { return false; }
      if position < progress.durable { return false; }
      if progress.current < position { progress := progress.(current := position); }
      progress := progress.(generation := Next(progress.generation));
      if kind == Durable {
        progress := progress.(durable := position, durableGeneration := progress.generation);
      }
      published := true;
    }

    method ValidateAuthority(r: Request) returns (ok: bool)
      ensures ok == HasAuthority(View().rt, r)
    {
      if r.epoch != epoch { return false; }
      if r.executionId != scope.executionId || r.attemptId != scope.attemptId { return false; }
      if r.executionGen != scope.executionGen { return false; }
      if r.attemptGen != scope.attemptGen { return false; }
      if r.workerBoot != 0 && r.workerBoot != scope.workerBoot { return false; }
      ok := true;
    }

    method RequestPreemption(r: Request) returns (a: Reply)
      modifies this`active, this`authRequestGen, machine
      ensures (View(), a) == Protocol.RequestPreemption(old(View()), r)
    {
      PreemptionEdges();
      PreemptionPaths();
      hide Walk, IsAllowed, HasAuthority;
      if r.id == 0 || r.generation == 0 { return Admitted(RejectedInvalid, 0, 0); }
      var authority := ValidateAuthority(r);
      if !authority { return Admitted(RejectedStale, 0, 0); }
      if active.Some? {
        if active.value.id == r.id && active.value.generation == r.generation {
          return Admitted(IdempotentDuplicate, r.id, r.generation);
        }
        return Admitted(ConflictingDuplicate, 0, 0);
      }
      active := Some(r);
      authRequestGen := r.generation;
      machine.Reset(Requested);
      var ok := machine.Transition(ValidatingAuthority);
      ok := machine.Transition(Assessing);
      a := Admitted(Accepted, r.id, r.generation);
    }

    method Assess() returns (a: Assessment)
      ensures a == Protocol.Assess(View().rt)
    {
      var rollback: u64 := if progress.current > progress.durable then progress.current - progress.durable else 0;
      var class_ := UnknownPreemptibility;
      if currentPoint.Some? && currentPoint.value.state == SpValid {
        class_ := if currentPoint.value.captureRequired then PreemptibleAfterStateCapture else PreemptibleNow;
      } else if safePoints != [] {
        class_ := PreemptibleAtSafePoint;
      } else if machine.state == Quiesced || machine.state == StateDurable || machine.state == ReleasePending {
        class_ := PreemptibleNow;
      }
      a := Assessment(class_, progress.durable, progress.current, rollback);
    }

    method BeginQuiesce() returns (r: Reply)
      modifies machine
      ensures (View(), r) == Protocol.BeginQuiesce(old(View()))
    {
      PreemptionEdges();
      PreemptionPaths();
      hide Walk, IsAllowed;
      var s := machine.state;
      if s == SafePointReached {
        var ok := machine.Transition(Quiescing);
      } else if s == Assessing || s == Deferred {
        if currentPoint.Some? && currentPoint.value.state == SpValid {
          var ok := machine.Transition(Quiescing);
          if !ok { return Threw(IllegalTransition); }
        } else {
          var ok := machine.Transition(WaitingForSafePoint);
          return Result(DeferToSafePoint, machine.state);
        }
      } else if s == WaitingForSafePoint {
        return Result(DeferToSafePoint, s);
      } else if s == Quiescing {
        return Result(SafePreemptionCompleted, s);
      } else {
        return Result(CannotPreemptSafely, s);
      }
      r := Result(SafePreemptionCompleted, machine.state);
    }

    method ReportQuiesced(q: QuiescenceReport) returns (r: Reply)
      modifies this`boundary, machine
      ensures (View(), r) == Protocol.ReportQuiesced(old(View()), q)
    {
      PreemptionEdges();
      PreemptionPaths();
      hide Walk, IsAllowed, Environment.AllQuiet;
      if q.workerBoot != scope.workerBoot { return Result(PreemptionFailed, machine.state); }
      if machine.state != Quiescing { return Result(CannotPreemptSafely, machine.state); }
      if !q.fullyQuiesced { return Result(CannotPreemptSafely, machine.state); }
      var quiet := adapters.IsQuiescedAll();
      if !quiet { return Result(CannotPreemptSafely, machine.state); }
      var ok := machine.Transition(Quiesced);
      boundary := boundary.(quiesced := true);
      boundary := boundary.(quiescenceGen := q.generation);
      r := Result(SafePreemptionCompleted, machine.state);
    }

    method RequestStateCapture() returns (r: Reply)
      modifies this`boundary, machine, adapters`checkpoints
      ensures (View(), r) == RequestCapture(old(View()))
    {
      ReleaseEdges();
      CaptureForm(View());
      hide Walk, IsAllowed, RequestCapture;
      if machine.state != Quiesced { return Result(CannotPreemptSafely, machine.state); }
      var required := currentPoint.Some? && currentPoint.value.captureRequired;
      if !required {
        var ok := machine.Transition(ReleasePending);
        boundary := boundary.(stateDurable := true);
        return Result(StateCaptureRequired, machine.state);
      }
      var ok := machine.Transition(CaptureRequired);
      ok := machine.Transition(CapturingState);
      adapters.RequestCapture(Next(boundary.checkpointGen));
      r := Result(StateCaptureRequired, machine.state);
    }

    method ReportStateCaptured(c: CaptureResult) returns (r: Reply)
      modifies this`boundary, machine
      ensures (View(), r) == ReportCaptured(old(View()), c)
    {
      ReleaseEdges();
      ReleasePaths();
      hide Walk, IsAllowed;
      if machine.state != CapturingState { return Result(CannotPreemptSafely, machine.state); }
      if !c.success || !c.completed {
        var ok := machine.Transition(Failed);
        return Result(PreemptionFailed, machine.state);
      }
      if !adapters.checkpoints.Validates(c.checkpointRef, c.checkpointGen) {
        var ok := machine.Transition(Failed);
        return Result(PreemptionFailed, machine.state);
      }
      var ok := machine.Transition(StateDurable);
      boundary := boundary.(stateDurable := true, captureGen := c.captureGen);
      boundary := boundary.(checkpointRef := c.checkpointRef, checkpointGen := c.checkpointGen);
      r := Result(SafePreemptionCompleted, machine.state);
    }

    /** Ask the broker to release each lease of the current contract; its answers are ignored. */
    method ReleaseLeases()
      modifies adapters`broker
      ensures var b := old(adapters.broker);
        adapters.broker == b.ReleaseEach(scope.executionId, b.Leases(), b.contractGen)
    {
      hide Broker.Leases;
      var leases, gen := adapters.broker.Leases(), adapters.broker.contractGen;
      var i := 0;
      while i < |leases|
        invariant 0 <= i <= |leases|
        invariant adapters.broker == old(adapters.broker).ReleaseEach(scope.executionId, leases[..i], gen)
      {
        assert leases[..i + 1][..i] == leases[..i];
        var released := adapters.RequestRelease(scope.executionId, leases[i].resource, leases[i].units, gen);
        i := i + 1;
      }
      assert leases[..i] == leases;
    }

    method RequestRelease() returns (r: Reply)
      modifies machine, adapters`broker
      ensures (View(), r) == Protocol.RequestRelease(old(View()))
    {
      ReleaseEdges();
      ReleasePaths();
      hide Walk, IsAllowed, Broker.ReleaseEach, Broker.Leases;
      if machine.state != StateDurable && machine.state != ReleasePending {
        return Result(CannotPreemptSafely, machine.state);
      }
      if !boundary.stateDurable { return Result(PreemptionFailed, machine.state); }
      if machine.state == StateDurable {
        var ok := machine.Transition(ReleasePending);
      }
      var ok := machine.Transition(Releasing);
      ReleaseLeases();
      r := Result(SafePreemptionCompleted, machine.state);
    }

    /** Look at each lease of the current contract until one still holds something. */
    method AllReleased() returns (all: bool)
      ensures all == adapters.broker.NothingReserved()
    {
      hide LeasesFrom;
      var b := adapters.broker;
      var leases := b.Leases();
      var i := 0;
      while i < |leases|
        invariant 0 <= i <= |leases|
        invariant forall j :: 0 <= j < i ==> Held(b.reserved, leases[j].resource) == 0
      {
        if Held(b.reserved, leases[i].resource) != 0 {
          assert leases[i].resource in b.reserved;
          return false;
        }
        i := i + 1;
      }
      forall c | c in b.reserved ensures b.reserved[c] == 0 {
        var k := LeasesCover(b.reserved, 0, c);
        assert Held(b.reserved, leases[k].resource) == 0;
      }
      all := true;
    }

    method ReportReleased() returns (r: Reply)
      modifies this`boundary, machine
      ensures (View(), r) == Protocol.ReportReleased(old(View()))
    {
      ReleaseEdges();
      ReleasePaths();
      hide Walk, IsAllowed, Broker.NothingReserved;
      if machine.state != Releasing { return Result(CannotPreemptSafely, machine.state); }
      var all := AllReleased();
      if !all { return Result(PreemptionFailed, machine.state); }
      var ok := machine.Transition(ResourcesReleased);
      boundary := boundary.(resourcesReleased := true);
      r := Result(SafePreemptionCompleted, machine.state);
    }

    method CommitPreempted() returns (r: Reply)
      modifies this`fencedBoot, machine, adapters`authority
      ensures (View(), r) == Commit(old(View()))
    {
      ReleaseEdges();
      ReleasePaths();
      hide Walk, IsAllowed;
      if machine.state != ResourcesReleased { return Result(CannotPreemptSafely, machine.state); }
      if !boundary.quiesced || !boundary.stateDurable || !boundary.resourcesReleased {
        return Result(PreemptionFailed, machine.state);
      }
      var ok := machine.Transition(Preempted);
      fencedBoot := scope.workerBoot;
      adapters.FenceAttempt();
      r := Result(SafePreemptionCompleted, machine.state);
    }

    method RequestResume() returns (r: Reply)
      modifies this`resumeGen, machine
      ensures (View(), r) == Protocol.RequestResume(old(View()))
    {
      ResumeEdges();
      ResumePaths();
      hide Walk, IsAllowed;
      if machine.state != Preempted { return ResumeReply(false, resumeGen); }
      var ok := machine.Transition(ResumePending);
      resumeGen := Next(resumeGen);
      r := ResumeReply(true, resumeGen);
    }

    method Revalidate() returns (r: Reply)
      modifies machine
      ensures (View(), r) == Protocol.Revalidate(old(View()))
    {
      ResumeEdges();
      RevalidateForm(View());
      hide Walk, IsAllowed, Checkpoints.Validates, Protocol.Revalidate;
      var s, cp := machine.state, adapters.checkpoints;
      if s != ResumePending && s != Revalidating { return Result(CannotPreemptSafely, s); }
      if s == ResumePending {
        var ok := machine.Transition(Revalidating);
      }
      assert machine.state == Revalidating;
      if boundary.checkpointRef != 0 && !cp.Validates(boundary.checkpointRef, boundary.checkpointGen) {
        var ok := machine.Transition(Failed);
        return Result(PreemptionFailed, s);
      }
      if adapters.dependency == Stale || adapters.dependency == Missing {
        return Result(CannotPreemptSafely, machine.state);
      }
      var ok := machine.Transition(Restoring);
      r := Result(SafePreemptionCompleted, machine.state);
    }

    method RestoreCheckpoint() returns (r: Reply)
      modifies machine
      ensures (View(), r) == Protocol.RestoreCheckpoint(old(View()))
    {
      ResumeEdges();
      ResumePaths();
      hide Walk, IsAllowed, Checkpoints.Validates;
      if machine.state != Restoring { return Result(CannotPreemptSafely, machine.state); }
      var cp := adapters.checkpoints;
      if boundary.checkpointRef != 0 && !cp.Validates(boundary.checkpointRef, boundary.checkpointGen) {
        var ok := machine.Transition(Failed);
        return Result(PreemptionFailed, Restoring);
      }
      var ok := machine.Transition(ResumeReady);
      r := Result(SafePreemptionCompleted, machine.state);
    }

    method ConfirmResumed() returns (r: Reply)
      modifies this`resumed, machine, adapters`authority
      ensures (View(), r) == Protocol.ConfirmResumed(old(View()))
    {
      ResumeEdges();
      ResumePaths();
      hide Walk, IsAllowed;
      if machine.state != ResumeReady && machine.state != Resuming {
        return Result(CannotPreemptSafely, machine.state);
      }
      var granted := adapters.GrantFresh(scope.executionId, scope.attemptId, scope.executionGen, scope.workerBoot);
      if machine.state == ResumeReady {
        var ok := machine.Transition(Resuming);
      }
      var ok := machine.Transition(Resumed);
      resumed := true;
      r := Result(SafePreemptionCompleted, machine.state);
    }

    method Cancel()
      modifies this`history, machine
      ensures View() == Protocol.Cancel(old(View()))
    {
      if machine.state == Resumed { return; }
      if machine.state.Terminal() && machine.state != Cancelled { return; }
      if !machine.state.Terminal() {
        machine.Reset(Cancelled);
        if active.Some? {
          history := history + [SupersededRequest(active.value.id, active.value.generation, Cancelled)];
        }
      }
    }

    method Complete()
      modifies machine
      ensures View() == Protocol.Complete(old(View()))
    {
      var s := machine.state;
      if s == Resumed || s == Cancelled || s == ResumePending || s == Revalidating || s == Restoring ||
         s == ResumeReady || s == Resuming {
        return;
      }
      if !s.Terminal() { machine.Reset(Aborted); }
    }

    method SetWorkerIncarnation(worker: u64, boot: u64)
      modifies this`scope, this`fencedBoot
      ensures View() == Reincarnate(old(View()), worker, boot)
    {
      scope := scope.(workerId := worker, workerBoot := boot);
      fencedBoot := 0;
    }

    method ExplainResumeBlockers() returns (out: seq<Blocker>)
      ensures out == ResumeBlockers(View())
    {
      hide Checkpoints.Validates, LifecycleState.PreemptedDurable;
      if !machine.state.PreemptedDurable() { return [NotPreempted]; }
      var state := StateBlockers();
      var current := adapters.checkpoints.Validates(boundary.checkpointRef, boundary.checkpointGen);
      out := state;
      if boundary.checkpointRef != 0 && !current { out := out + [CheckpointStale]; }
      ghost var stale: seq<Blocker> := if View().CheckpointCurrent() then [] else [CheckpointStale];
      assert out == state + stale;
      if adapters.dependency == Stale {
        out := out + [DependencyStale];
      } else if adapters.dependency == Missing {
        out := out + [DependencyMissing];
      }
      if out == [] { out := [Eligible]; }
    }

    /** The blockers that the boundary itself shows. */
    method StateBlockers() returns (out: seq<Blocker>)
      ensures out ==
        (if !boundary.stateDurable then [NoDurableState] else []) +
        (if !boundary.resourcesReleased then [ResourcesHeld] else []) +
        (if boundary.checkpointRef == 0 then [CheckpointMissing] else [])
    {
      out := [];
      if !boundary.stateDurable { out := out + [NoDurableState]; }
      if !boundary.resourcesReleased { out := out + [ResourcesHeld]; }
      if boundary.checkpointRef == 0 { out := out + [CheckpointMissing]; }
    }

    // ---- the durable image ----

    method Snapshot() returns (s: PersistentState)
      ensures s == Protocol.Snapshot(View().rt)
    {
      var points: seq<SafePoint> := [];
      var i := 0;
      while i < |safePoints|
        invariant 0 <= i <= |safePoints|
        invariant points == safePoints[..i]
      {
        var p := safePoints[i];
        points := points + [SafePoint(p.id, p.generation, p.executionId, p.attemptId, p.workerId, p.workerBoot,
                                      p.position, p.captureRequired, p.checkpointRequired, p.state, p.order)];
        i := i + 1;
      }
      var id, gen := 0, 0;
      if active.Some? { id, gen := active.value.id, active.value.generation; }
      s := PersistentState(
        Image.VERSION, epoch, policy, scope, fencedBoot, machine.state, id, gen, boundary,
        machine.state.PreemptedDurable(), resumeGen, progress.durable, progress.durableGeneration, points, [], history);
    }

    method Restore(st: PersistentState)
      modifies this, machine, adapters`authority
      ensures View() == Protocol.Restore(old(View()), st)
    {
      hide InsertAll;
      var t := st.scope;
      machine.Reset(st.lifecycle);
      RestoreFields(st);
      adapters.SetAuthoritative(t.executionId, t.attemptId, t.executionGen, t.attemptGen, epoch, t.workerBoot);
    }

    method RestoreFields(st: PersistentState)
      modifies this
      ensures scope == st.scope && fencedBoot == st.fencedBoot && boundary == st.boundary && history == st.history
      ensures resumeGen == st.resumeGen && currentPoint == old(currentPoint) && resumed == old(resumed)
      ensures progress == Progress(st.durableProgress, st.durableProgress, old(progress).generation, st.progressGen)
      ensures active == if st.requestId == 0 then old(active)
        else Some(Request(st.requestId, st.requestGen, st.scope.executionId, st.scope.executionGen, st.scope.attemptId,
                          st.scope.attemptGen, epoch, 0))
      ensures authRequestGen == if st.requestId == 0 then old(authRequestGen) else st.requestGen
      ensures safePoints == InsertAll([], st.safePoints)
    {
      hide InsertAll;
      scope, fencedBoot, boundary, resumeGen := st.scope, st.fencedBoot, st.boundary, st.resumeGen;
      progress := progress.(durable := st.durableProgress, durableGeneration := st.progressGen);
      progress := progress.(current := st.durableProgress);
      RestoreRequest(st);
      RestorePoints(st.safePoints);
      history := st.history;
    }

    /** An image without a request leaves the present one in place. */
    method RestoreRequest(st: PersistentState)
      modifies this`active, this`authRequestGen
      ensures active == if st.requestId == 0 then old(active)
        else Some(Request(st.requestId, st.requestGen, st.scope.executionId, st.scope.executionGen, st.scope.attemptId,
                          st.scope.attemptGen, epoch, 0))
      ensures authRequestGen == if st.requestId == 0 then old(authRequestGen) else st.requestGen
    {
      if st.requestId != 0 {
        var t := st.scope;
        active := Some(Request(st.requestId, st.requestGen, t.executionId, t.executionGen, t.attemptId, t.attemptGen,
                               epoch, 0));
        authRequestGen := st.requestGen;
      }
    }

    method RestorePoints(points: seq<SafePoint>)
      modifies this`safePoints
      ensures safePoints == InsertAll([], points)
    {
      hide Insert;
      safePoints := [];
      var i := 0;
      while i < |points|
        invariant 0 <= i <= |points|
        invariant safePoints == InsertAll([], points[..i])
      {
        assert points[..i + 1][..i] == points[..i];
        safePoints := Insert(safePoints, points[i]);
        i := i + 1;
      }
      assert points[..i] == points;
    }

    method PersistBytes() returns (b: seq<byte>)
      ensures b == Encoded(Protocol.Snapshot(View().rt))
    {
      hide Encoded;
      var s := Snapshot();
      b := StoreCode.Encode(s);
    }

    method RestoreBytes(bytes: seq<byte>) returns (ok: bool)
      modifies this, machine, adapters`authority
      ensures (View(), Recovered(ok)) == Protocol.RestoreBytes(old(View()), bytes)
    {
      hide Decoded;
      var res := StoreCode.Decode(bytes);
      if res.ImageFail? { return false; }
      Restore(res.state);
      ok := true;
    }
  }

  // ---- the coordinator's drivers ----

  method RuntimeToBoundary(rt: PreemptionRuntime, r: Request, id: u64, position: u64) returns (reached: bool)
    modifies rt, rt.machine, rt.adapters
    ensures reached == Find(old(rt.safePoints), id).Some?
    ensures reached ==> rt.View() == DriveToBoundary(old(rt.View()), r, id, position)
  {
    RequestKeepsPoints(rt.View(), r);
    ghost var w := rt.View();
    var reply := rt.RequestPreemption(r);
    reply := rt.BeginQuiesce();
    ghost var w1 := rt.View();
    reply := rt.ReachSafePoint(id, position, true);
    ReachThrows(w1, id, position);
    hide Protocol.RequestPreemption, Protocol.BeginQuiesce, Reach, Find;
    if reply == Threw(UnknownSafePoint) { return false; }
    reply := rt.BeginQuiesce();
    reached := true;
  }

  lemma {:induction false} RequestKeepsPoints(w: World, r: Request)
    ensures BeginQuiesce(RequestPreemption(w, r).0).0.rt.safePoints == w.rt.safePoints
  {
    hide Walk, HasAuthority;
  }

  lemma {:induction false} ReachThrows(w: World, id: u64, position: u64)
    ensures Reach(w, id, position, true).1 == Threw(UnknownSafePoint) <==> Find(w.rt.safePoints, id).None?
  {
    hide Find, Insert, IsAllowed;
  }

  method RuntimeCapture(rt: PreemptionRuntime, q: QuiescenceReport)
    modifies rt, rt.machine, rt.adapters
    ensures rt.View() == DriveCapture(old(rt.View()), q)
  {
    hide Protocol.ReportQuiesced, RequestCapture, ReportCaptured;
    var reply := rt.ReportQuiesced(q);
    reply := rt.RequestStateCapture();
    var last := rt.adapters.checkpoints.lastCapture;
    if last.Some? { reply := rt.ReportStateCaptured(last.value); }
  }

  method RuntimeRelease(rt: PreemptionRuntime) returns (answer: Reply)
    modifies rt, rt.machine, rt.adapters
    ensures rt.View() == DriveRelease(old(rt.View())) && answer == ReleaseAnswer(old(rt.View()))
  {
    hide Protocol.RequestRelease, Protocol.ReportReleased, Commit;
    answer := rt.RequestRelease();
    answer := rt.ReportReleased();
    answer := rt.CommitPreempted();
  }

  /** Drive a preemption to the end; nothing where reaching the safe point throws, else whether the commit reports
      completion. */
  method RuntimePreemption(rt: PreemptionRuntime, r: Request, id: u64, position: u64, q: QuiescenceReport)
    returns (completed: Option<bool>)
    modifies rt, rt.machine, rt.adapters
    ensures completed.Some? <==> Find(old(rt.safePoints), id).Some?
    ensures completed.Some? ==> Some(rt.View()) == DrivePreemption(old(rt.View()), r, id, position, q)
    ensures completed == Some(true) <==> (
      && PreemptionAnswer(old(rt.View()), r, id, position, q).Some?
      && PreemptionAnswer(old(rt.View()), r, id, position, q).value.Result?
      && PreemptionAnswer(old(rt.View()), r, id, position, q).value.outcome == SafePreemptionCompleted)
  {
    hide DriveToBoundary, DriveCapture, DriveRelease, Find, ReleaseAnswer;
    var reached := RuntimeToBoundary(rt, r, id, position);
    if !reached { return None; }
    RuntimeCapture(rt, q);
    var answer := RuntimeRelease(rt);
    completed := Some(answer.Result? && answer.outcome == SafePreemptionCompleted);
  }

  method RuntimeResume(rt: PreemptionRuntime) returns (completed: bool)
    modifies rt, rt.machine, rt.adapters
    ensures rt.View() == DriveResume(old(rt.View()))
    ensures var answer := ResumeAnswer(old(rt.View()));
      completed <==> answer.Result? && answer.outcome == SafePreemptionCompleted
  {
    hide Protocol.RequestResume, Protocol.Revalidate, Protocol.RestoreCheckpoint, Protocol.ConfirmResumed;
    var answer := rt.RequestResume();
    answer := rt.Revalidate();
    answer := rt.RestoreCheckpoint();
    answer := rt.ConfirmResumed();
    completed := answer.Result? && answer.outcome == SafePreemptionCompleted;
  }
}
