/** Safety over whole runs: the order of the evidence behind a preemption, the fence around it, and how often
    each milestone can happen. */
module Evidence {
  import opened Words
  import opened Lifecycle
  import opened Adapters
  import opened Domain
  import opened Protocol
  import opened Runs

  // ---- stages of one preemption ----

  /** 1 admitted, 2 quiescing, 3 quiesced, 4 durable, 5 released, 6 preempted or resuming, 0 none of these. */
  function Phase(s: LifecycleState): (n: nat)
    ensures n <= 6
  {
    match s
    case Requested | ValidatingAuthority | Assessing | Deferred | WaitingForSafePoint | SafePointReached => 1
    case Quiescing => 2
    case Quiesced | CaptureRequired | CapturingState => 3
    case StateDurable | ReleasePending | Releasing => 4
    case ResourcesReleased => 5
    case Preempted | ResumePending | Revalidating | Restoring | ResumeReady | Resuming | Resumed => 6
    case _ => 0
  }

  /** What must be seen, in this world and by this operation, to enter a phase. */
  predicate Proves(phase: nat, w: World, op: Op) {
    match phase
    case 1 => Accepts(w, op)
    case 2 => op.OpBeginQuiesce? && w.rt.AtValidBoundary()
    case 3 =>
      && op.OpReportQuiesced? && op.report.workerBoot == w.rt.scope.workerBoot
      && op.report.fullyQuiesced && w.env.AllQuiet()
    case 4 =>
      || (op.OpRequestCapture? && w.rt.AtValidBoundary() && !w.rt.currentPoint.value.captureRequired)
      || (op.OpReportCaptured? && op.result.success && op.result.completed &&
          w.env.checkpoints.Validates(op.result.checkpointRef, op.result.checkpointGen))
    case 5 => op.OpReportReleased? && w.env.broker.NothingReserved()
    case 6 => op.OpCommit?
    case _ => false
  }

  /** The step starts no execution and admits no request. */
  predicate Calm(w: World, op: Op) {
    !op.OpStart? && !Accepts(w, op)
  }

  predicate EntersPhase(w: World, op: Op, p': nat) {
    p' >= 1 ==>
      || (p' == Phase(w.rt.lifecycle) && Calm(w, op))
      || (Proves(p', w, op) && (p' == 1 || Phase(w.rt.lifecycle) == p' - 1))
  }

  lemma {:induction false} WorkingEdge(w: World, op: Op)
    requires Staged(w.rt) && (PreemptionOp(op) || ReleaseOp(op)) && Edge(w, op).Some?
    ensures EntersPhase(w, op, Phase(Edge(w, op).value))
  {
    hide Find, Environment.AllQuiet, Broker.NothingReserved, World.CheckpointCurrent;
    hide Environment.DependencyBlocks, Checkpoints.Validates, HasAuthority;
  }

  lemma {:induction false} PhaseEdge(w: World, op: Op)
    requires Staged(w.rt) && !Recovers(op) && Edge(w, op).Some?
    ensures EntersPhase(w, op, Phase(Edge(w, op).value))
  {
    if PreemptionOp(op) || ReleaseOp(op) {
      WorkingEdge(w, op);
      hide EntersPhase;
    } else {
      hide Find, Environment.AllQuiet, Broker.NothingReserved, World.CheckpointCurrent;
      hide Environment.DependencyBlocks, Checkpoints.Validates, HasAuthority;
    }
  }

  /** A phase is entered from the one before it, with its evidence, or kept by a calm step. */
  lemma {:induction false} PhaseStep(w: World, op: Op)
    requires Staged(w.rt) && !Recovers(op)
    ensures EntersPhase(w, op, Phase(Step(w, op).0.rt.lifecycle))
  {
    StepFollowsEdge(w, op);
    if Edge(w, op).Some? {
      PhaseEdge(w, op);
    } else {
      NoEdgeIsCalm(w, op);
    }
    hide Step, Edge, Staged, Proves, Calm, Phase;
  }

  lemma {:induction false} NoEdgeIsCalm(w: World, op: Op)
    requires Edge(w, op).None?
    ensures Calm(w, op)
  {
    hide Find, HasAuthority, Environment.AllQuiet, Broker.NothingReserved, World.CheckpointCurrent;
  }

  ghost predicate CalmBetween(ws: seq<World>, ops: seq<Op>, i: nat, k: nat)
    requires |ws| == |ops| + 1 && k < |ws|
  {
    forall j :: i < j < k ==> Calm(ws[j], ops[j])
  }

  ghost predicate InPhase(ws: seq<World>, i: nat, k: nat, phase: nat)
    requires k < |ws|
  {
    forall j :: i < j <= k ==> Phase(ws[j].rt.lifecycle) == phase
  }

  /** The step that entered the phase the run is in at k. */
  lemma {:induction false} PhaseEntry(ws: seq<World>, ops: seq<Op>, k: nat) returns (i: nat)
    requires IsRun(ws, ops) && Fresh(ws[0]) && RestoreFree(ops) && k < |ws| && Phase(ws[k].rt.lifecycle) >= 1
    ensures i < k && Proves(Phase(ws[k].rt.lifecycle), ws[i], ops[i])
    ensures Phase(ws[k].rt.lifecycle) > 1 ==> Phase(ws[i].rt.lifecycle) == Phase(ws[k].rt.lifecycle) - 1
    ensures CalmBetween(ws, ops, i, k) && InPhase(ws, i, k, Phase(ws[k].rt.lifecycle))
    decreases k
  {
    hide Step, Proves, Calm, Phase, Staged, Recorded;
    if k == 0 {
      FreshPhase(ws[0]);
      assert false;
    } else {
      RestoreFreeRunIsStaged(ws, ops, k - 1);
      PhaseStep(ws[k - 1], ops[k - 1]);
      assert ws[k] == Step(ws[k - 1], ops[k - 1]).0;
      if Phase(ws[k - 1].rt.lifecycle) == Phase(ws[k].rt.lifecycle) && Calm(ws[k - 1], ops[k - 1]) {
        i := PhaseEntry(ws, ops, k - 1);
      } else {
        i := k - 1;
      }
    }
  }

  lemma FreshPhase(w: World)
    requires Fresh(w)
    ensures Phase(w.rt.lifecycle) == 0
  {
  }

  /** Evidence other than an admission is calm. */
  lemma ProofIsCalm(phase: nat, w: World, op: Op)
    requires Proves(phase, w, op) && phase > 1
    ensures Calm(w, op)
  {
  }

  /** The run enters Preempted at step k. */
  ghost predicate Preempts(ws: seq<World>, ops: seq<Op>, k: nat)
    requires IsRun(ws, ops)
  {
    k < |ops| && ws[k].rt.lifecycle != Preempted && ws[k + 1].rt.lifecycle == Preempted
  }

  lemma {:induction false} PreemptsByCommit(ws: seq<World>, ops: seq<Op>, k: nat)
    requires IsRun(ws, ops) && Preempts(ws, ops, k) && !Recovers(ops[k])
    ensures ops[k].OpCommit? && Phase(ws[k].rt.lifecycle) == 5 && Edge(ws[k], ops[k]) == Some(Preempted)
  {
    StepFollowsEdge(ws[k], ops[k]);
    hide Step, Find, Accepts, Environment.AllQuiet, Broker.NothingReserved;
  }

  /** The step whose safe point the runtime is at: the last known one reached. It lies after any given step exactly
      when a known safe point was reached since. */
  lemma {:induction false} PointOrigin(ws: seq<World>, ops: seq<Op>, k: nat) returns (p: nat)
    requires IsRun(ws, ops) && Fresh(ws[0]) && k < |ws| && ws[k].rt.currentPoint.Some?
    ensures p < k && LastReach(ws, ops, p, k) && Carries(ws[k].rt.currentPoint, ops[p])
    ensures forall s :: 0 <= s < k ==> (s < p <==> ReachedSince(ws, ops, s, k))
    decreases k
  {
    hide Step, Reaches, Carries;
    if k == 0 {
      assert false;
    } else {
      StepPoint(ws[k - 1], ops[k - 1]);
      assert ws[k] == Step(ws[k - 1], ops[k - 1]).0;
      if Reaches(ws[k - 1], ops[k - 1]) {
        p := k - 1;
      } else {
        p := PointOrigin(ws, ops, k - 1);
      }
    }
  }

  ghost predicate LastReach(ws: seq<World>, ops: seq<Op>, p: nat, k: nat)
    requires |ws| == |ops| + 1 && p < k < |ws|
  {
    Reaches(ws[p], ops[p]) && forall j :: p < j < k ==> !Reaches(ws[j], ops[j])
  }

  ghost predicate ReachedSince(ws: seq<World>, ops: seq<Op>, s: nat, k: nat)
    requires |ws| == |ops| + 1 && k < |ws|
  {
    exists t :: s < t < k && Reaches(ws[t], ops[t])
  }

  /** A runtime that waited for its safe point reached one after the request. */
  lemma {:induction false} WaitedReach(ws: seq<World>, ops: seq<Op>, k: nat) returns (t: nat)
    requires IsRun(ws, ops) && Fresh(ws[0]) && RestoreFree(ops) && k < |ws|
    requires ws[k].rt.lifecycle == SafePointReached
    ensures t < k && Reaches(ws[t], ops[t]) && forall j :: t < j <= k ==> ws[j].rt.lifecycle == SafePointReached
    decreases k
  {
    hide Step, Reaches;
    if k == 0 {
      assert false;
    } else {
      ReachedEdge(ws[k - 1], ops[k - 1]);
      assert ws[k] == Step(ws[k - 1], ops[k - 1]).0;
      if ws[k - 1].rt.lifecycle == SafePointReached {
        t := WaitedReach(ws, ops, k - 1);
      } else {
        t := k - 1;
      }
    }
  }

  lemma {:induction false} ReachedEdge(w: World, op: Op)
    requires !Recovers(op) && Step(w, op).0.rt.lifecycle == SafePointReached
    ensures w.rt.lifecycle == SafePointReached || Reaches(w, op)
  {
    StepFollowsEdge(w, op);
    hide Step, Find, Accepts, Recovers, Environment.AllQuiet, Broker.NothingReserved, World.CheckpointCurrent;
  }

  /** The boundary names the capture's checkpoint. */
  predicate Names(b: Boundary, c: CaptureResult) {
    b.checkpointRef == c.checkpointRef && b.checkpointGen == c.checkpointGen
  }

  /** What the store records when a capture is asked for in w. */
  function AskedCapture(w: World): (c: CaptureResult)
    ensures w.env.checkpoints.Captured(Next(w.rt.boundary.checkpointGen)).lastCapture == Some(c)
  {
    w.env.checkpoints.Captured(Next(w.rt.boundary.checkpointGen)).lastCapture.value
  }

  /** Earned preemption. In every restore-free run, each entry to Preempted is preceded, since the last accepted
      request r and in this order, by the start of quiescing (b), a full quiescence report from the boot of that moment
      with all ten categories quiet (q), the request for a capture (d), a verified report of one unless none was needed
      (c), and a release report with nothing left reserved (l). The flags alone would not show this: they are never
      cleared between executions.
      Nor is the safe point, so its origin is part of the evidence: quiescing began at the point last reached, by step
      p, and the point last reached at d, by step o, decided whether to capture. The point is as recent as the last time
      one was reached: after a given start exactly when one was reached since, and after the request if the runtime
      had to wait for it.
      The checkpoint the boundary names is the reported one or, where capture was skipped, the one it already named at
      the request. The reported one need not be the one asked for: it is exactly when it carries the reference the store
      gave at d and the store's generation at c is the one expected at d.
      The boot that the commit fences is the one of that moment: the one that reported quiescence exactly when the
      worker's boot is the same again, and certainly when there was no incarnation in between. */
  lemma {:induction false} PreemptionIsEarned(ws: seq<World>, ops: seq<Op>, k: nat)
    returns (r: nat, p: nat, b: nat, q: nat, o: nat, d: nat, c: nat, l: nat)
    requires IsRun(ws, ops) && Fresh(ws[0]) && RestoreFree(ops) && Preempts(ws, ops, k)
    ensures r < b < q < d <= c < l < k
    ensures Accepts(ws[r], ops[r]) && forall j :: r < j <= k ==> Calm(ws[j], ops[j])
    ensures Proves(2, ws[b], ops[b]) && Proves(3, ws[q], ops[q]) && Proves(4, ws[c], ops[c])
    ensures Proves(5, ws[l], ops[l]) && Proves(6, ws[k], ops[k])
    ensures p < b && LastReach(ws, ops, p, b) && Carries(ws[b].rt.currentPoint, ops[p])
    ensures forall s :: 0 <= s < b ==> (s < p <==> ReachedSince(ws, ops, s, b))
    ensures ws[b].rt.lifecycle == SafePointReached ==> r < p
    ensures p <= o < d && LastReach(ws, ops, o, d) && Carries(ws[d].rt.currentPoint, ops[o])
    ensures ops[d].OpRequestCapture? && (if ops[o].capture then d < c && ops[c].OpReportCaptured? else d == c)
    ensures !ops[o].capture ==> SameCheckpoint(ws[r], ws[k])
    ensures ops[o].capture ==> Names(ws[k].rt.boundary, ops[c].result)
    ensures ops[o].capture ==> ws[d + 1].env.checkpoints.lastCapture == Some(AskedCapture(ws[d]))
    ensures ops[o].capture ==> (Names(ws[k].rt.boundary, AskedCapture(ws[d])) <==>
      && ops[c].result.checkpointRef == WrapAdd(ws[d].env.checkpoints.captureCount, 1)
      && ws[c].env.checkpoints.currentGen == Next(ws[d].rt.boundary.checkpointGen))
    ensures ws[k + 1].rt.fencedBoot == ops[q].report.workerBoot <==>
      ws[k].rt.scope.workerBoot == ws[q].rt.scope.workerBoot
    ensures (forall j :: q < j < k ==> !ops[j].OpReincarnate?) ==>
      ws[k + 1].rt.fencedBoot == ops[q].report.workerBoot
  {
    PreemptsByCommit(ws, ops, k);
    assert Proves(6, ws[k], ops[k]);
    hide Step, Calm, Phase, Edge, Proves, Accepts, IsRun, Fresh, RestoreFree, InPhase, Reaches, Carries, LastReach;
    hide ReachedSince, Recovers, Names, AskedCapture, SameCheckpoint;
    l := PhaseEntry(ws, ops, k);
    c := PhaseEntry(ws, ops, l);
    q := PhaseEntry(ws, ops, c);
    b := PhaseEntry(ws, ops, q);
    r := PhaseEntry(ws, ops, b);
    p := BoundaryOrigin(ws, ops, r, b);
    d, o := CaptureDecision(ws, ops, p, b, q, c, l);
    CommittedCheckpoint(ws, ops, r, b, q, c, l, k);
    if ops[o].capture { NamedCapture(ws, ops, d, c, k); }
    hide CalmBetween;
    CalmJoin(ws, ops, l, k, k, 6);
    CalmJoin(ws, ops, c, l, k, 5);
    CalmJoin(ws, ops, q, c, k, 4);
    CommitFencesBoot(ws, ops, q, k);
    CalmJoin(ws, ops, b, q, k, 3);
    CalmJoin(ws, ops, r, b, k, 2);
    AcceptsProved(ws[r], ops[r]);
  }

  /** The origin of the safe point that quiescing began at. */
  lemma {:induction false} BoundaryOrigin(ws: seq<World>, ops: seq<Op>, r: nat, b: nat) returns (p: nat)
    requires IsRun(ws, ops) && Fresh(ws[0]) && RestoreFree(ops) && r < b < |ops|
    requires Proves(1, ws[r], ops[r]) && Proves(2, ws[b], ops[b])
    ensures p < b && LastReach(ws, ops, p, b) && Carries(ws[b].rt.currentPoint, ops[p])
    ensures forall s :: 0 <= s < b ==> (s < p <==> ReachedSince(ws, ops, s, b))
    ensures ws[b].rt.lifecycle == SafePointReached ==> r < p
  {
    hide Step, Reaches, Carries, Accepts;
    p := PointOrigin(ws, ops, b);
    if ws[b].rt.lifecycle == SafePointReached {
      var t := WaitedReach(ws, ops, b);
      AdmittedAssesses(ws[r], ops[r]);
      assert ws[r + 1] == Step(ws[r], ops[r]).0;
    }
  }

  lemma {:induction false} AdmittedAssesses(w: World, op: Op)
    requires Accepts(w, op)
    ensures Step(w, op).0.rt.lifecycle == Assessing
  {
    StepFollowsEdge(w, op);
    hide Step, HasAuthority;
  }

  /** The request that decided whether to capture, and the origin of the safe point it looked at. */
  lemma {:induction false} CaptureDecision(ws: seq<World>, ops: seq<Op>, p: nat, b: nat, q: nat, c: nat, l: nat)
    returns (d: nat, o: nat)
    requires IsRun(ws, ops) && Fresh(ws[0]) && RestoreFree(ops) && p < b < q < c < l < |ws|
    requires LastReach(ws, ops, p, b) && Proves(3, ws[q], ops[q]) && Phase(ws[q].rt.lifecycle) == 2
    requires Proves(4, ws[c], ops[c]) && InPhase(ws, q, c, 3) && InPhase(ws, c, l, 4)
    ensures q < d <= c && ops[d].OpRequestCapture?
    ensures p <= o < d && LastReach(ws, ops, o, d) && Carries(ws[d].rt.currentPoint, ops[o])
    ensures if ops[o].capture then d < c && ops[c].OpReportCaptured? else d == c
    ensures ops[o].capture ==> ws[d + 1].env.checkpoints.lastCapture == Some(AskedCapture(ws[d]))
  {
    hide Step, Reaches, Edge, AskedCapture, Recovers;
    assert ws[c + 1] == Step(ws[c], ops[c]).0 && ws[q + 1] == Step(ws[q], ops[q]).0;
    DurableEntry(ws[c], ops[c]);
    QuiescedEntry(ws[q], ops[q]);
    hide Proves, Phase;
    if ops[c].OpRequestCapture? {
      d := c;
    } else {
      d := CaptureRequest(ws, ops, c);
    }
    o := PointOrigin(ws, ops, d);
    assert p <= o;
  }

  lemma {:induction false} QuiescedEntry(w: World, op: Op)
    requires op.OpReportQuiesced? && Phase(w.rt.lifecycle) == 2 && Phase(Step(w, op).0.rt.lifecycle) == 3
    ensures Step(w, op).0.rt.lifecycle == Quiesced
  {
    StepFollowsEdge(w, op);
    hide Step, Environment.AllQuiet;
  }

  lemma {:induction false} DurableEntry(w: World, op: Op)
    requires Proves(4, w, op) && Phase(w.rt.lifecycle) == 3 && Phase(Step(w, op).0.rt.lifecycle) == 4
    ensures if op.OpRequestCapture? then !w.rt.CaptureRequiredHere() && w.rt.currentPoint.Some?
      else op.OpReportCaptured? && w.rt.lifecycle == CapturingState
  {
    StepFollowsEdge(w, op);
    hide Step, Checkpoints.Validates;
  }

  /** The request behind a capture in progress. */
  lemma {:induction false} CaptureRequest(ws: seq<World>, ops: seq<Op>, c: nat) returns (d: nat)
    requires IsRun(ws, ops) && Fresh(ws[0]) && RestoreFree(ops) && c < |ws| && ws[c].rt.lifecycle == CapturingState
    ensures d < c && ops[d].OpRequestCapture? && ws[d].rt.CaptureRequiredHere()
    ensures ws[d + 1].env.checkpoints.lastCapture == Some(AskedCapture(ws[d]))
    ensures forall j :: d < j <= c ==> ws[j].rt.lifecycle == CapturingState
    decreases c
  {
    hide Step, AskedCapture, Recovers, Runtime.CaptureRequiredHere;
    if c == 0 {
      assert false;
    } else {
      assert ws[c] == Step(ws[c - 1], ops[c - 1]).0;
      if ws[c - 1].rt.lifecycle == CapturingState {
        d := CaptureRequest(ws, ops, c - 1);
      } else {
        CapturingEdge(ws[c - 1], ops[c - 1]);
        d := c - 1;
      }
    }
  }

  lemma {:induction false} CapturingEdge(w: World, op: Op)
    requires !Recovers(op) && Step(w, op).0.rt.lifecycle == CapturingState && w.rt.lifecycle != CapturingState
    ensures op.OpRequestCapture? && w.rt.CaptureRequiredHere()
    ensures Step(w, op).0.env.checkpoints.lastCapture == Some(AskedCapture(w))
  {
    StepFollowsEdge(w, op);
    CapturingByRequest(w, op);
    CaptureForm(w);
    hide Edge, RequestCapture, Recovers, RestoreBytes;
  }

  lemma {:induction false} CapturingByRequest(w: World, op: Op)
    requires !Recovers(op) && Edge(w, op) == Some(CapturingState)
    ensures op.OpRequestCapture? && w.rt.lifecycle == Quiesced && w.rt.CaptureRequiredHere()
  {
    hide Find, Accepts, Recovers, Environment.AllQuiet, Broker.NothingReserved, World.CheckpointCurrent;
  }

  /** When the reported checkpoint is the one asked for. */
  lemma {:induction false} NamedCapture(ws: seq<World>, ops: seq<Op>, d: nat, c: nat, k: nat)
    requires |ws| == |ops| + 1 && d < c < k < |ws| && ops[c].OpReportCaptured?
    requires Proves(4, ws[c], ops[c]) && Names(ws[k].rt.boundary, ops[c].result)
    ensures Names(ws[k].rt.boundary, AskedCapture(ws[d])) <==>
      && ops[c].result.checkpointRef == WrapAdd(ws[d].env.checkpoints.captureCount, 1)
      && ws[c].env.checkpoints.currentGen == Next(ws[d].rt.boundary.checkpointGen)
  {
  }

  /** The boot that the commit fences. */
  lemma {:induction false} CommitFencesBoot(ws: seq<World>, ops: seq<Op>, q: nat, k: nat)
    requires IsRun(ws, ops) && RestoreFree(ops) && q < k < |ops| && Proves(3, ws[q], ops[q])
    requires Edge(ws[k], ops[k]) == Some(Preempted) && ops[k].OpCommit?
    requires forall j :: q < j <= k ==> Calm(ws[j], ops[j])
    ensures ws[k + 1].rt.fencedBoot == ops[q].report.workerBoot <==>
      ws[k].rt.scope.workerBoot == ws[q].rt.scope.workerBoot
    ensures (forall j :: q < j < k ==> !ops[j].OpReincarnate?) ==>
      ws[k + 1].rt.fencedBoot == ops[q].report.workerBoot
  {
    FencedBootIs(ws[k], ops[k]);
    hide Step, Edge, Accepts, Recovers;
    assert ws[k + 1] == Step(ws[k], ops[k]).0;
    StepFrame(ws[q], ops[q]);
    assert ws[q + 1] == Step(ws[q], ops[q]).0;
    if forall j :: q < j < k ==> !ops[j].OpReincarnate? { BootKept(ws, ops, q + 1, k); }
  }

  lemma {:induction false} FencedBootIs(w: World, op: Op)
    requires op.OpCommit? && Edge(w, op).Some?
    ensures Step(w, op).0.rt.fencedBoot == w.rt.scope.workerBoot
  {
    hide Walk, RestoreBytes;
  }

  lemma {:induction false} BootKept(ws: seq<World>, ops: seq<Op>, i: nat, k: nat)
    requires IsRun(ws, ops) && RestoreFree(ops) && i <= k < |ws|
    requires forall j :: i <= j < k ==> !ops[j].OpReincarnate? && !ops[j].OpStart?
    ensures ws[k].rt.scope == ws[i].rt.scope
    decreases k
  {
    hide Step, Recovers;
    if i < k {
      BootKept(ws, ops, i, k - 1);
      StepFrame(ws[k - 1], ops[k - 1]);
    }
  }

  predicate SameCheckpoint(w: World, w': World) {
    && w'.rt.boundary.checkpointRef == w.rt.boundary.checkpointRef
    && w'.rt.boundary.checkpointGen == w.rt.boundary.checkpointGen
  }

  /** The checkpoint named at the commit. */
  lemma {:induction false} CommittedCheckpoint(
    ws: seq<World>, ops: seq<Op>, r: nat, b: nat, q: nat, c: nat, l: nat, k: nat)
    requires IsRun(ws, ops) && RestoreFree(ops) && r < b < q < c < l < k < |ws|
    requires Proves(1, ws[r], ops[r]) && Proves(4, ws[c], ops[c])
    requires InPhase(ws, r, b, 1) && InPhase(ws, b, q, 2) && InPhase(ws, q, c, 3)
    requires InPhase(ws, c, l, 4) && InPhase(ws, l, k, 5)
    ensures ops[c].OpReportCaptured? ==> Names(ws[k].rt.boundary, ops[c].result)
    ensures ops[c].OpRequestCapture? ==> SameCheckpoint(ws[r], ws[k])
  {
    hide Step, Phase, Edge, Proves, Recovers;
    AdmissionIsRequest(ws[r], ops[r]);
    forall j | r <= j < k && (j != c || ops[c].OpRequestCapture?) ensures Edge(ws[j], ops[j]) != Some(StateDurable) {
      assert ws[j + 1] == Step(ws[j], ops[j]).0;
      if Edge(ws[j], ops[j]) == Some(StateDurable) { DurableEdge(ws[j], ops[j]); }
    }
    if ops[c].OpReportCaptured? {
      assert ws[c + 1] == Step(ws[c], ops[c]).0;
      CaptureRecorded(ws[c], ops[c]);
      CheckpointKept(ws, ops, c + 1, k);
    } else if ops[c].OpRequestCapture? {
      CheckpointKept(ws, ops, r, k);
    }
  }

  lemma AdmissionIsRequest(w: World, op: Op)
    requires Proves(1, w, op)
    ensures op.OpRequest?
  {
  }

  lemma {:induction false} DurableEdge(w: World, op: Op)
    requires !Recovers(op) && Edge(w, op) == Some(StateDurable)
    ensures op.OpReportCaptured? && Phase(w.rt.lifecycle) == 3 && Phase(Step(w, op).0.rt.lifecycle) == 4
  {
    StepFollowsEdge(w, op);
    hide Step, Recovers, Find, Accepts, Environment.AllQuiet, Broker.NothingReserved, World.CheckpointCurrent;
  }

  /** The calm before a proof, the proof, and the calm after it. */
  lemma {:induction false} CalmJoin(ws: seq<World>, ops: seq<Op>, i: nat, m: nat, k: nat, phase: nat)
    requires |ws| == |ops| + 1 && i < m <= k < |ops| && phase > 1 && Proves(phase, ws[m], ops[m])
    requires CalmBetween(ws, ops, i, m) && (m < k ==> forall j :: m < j <= k ==> Calm(ws[j], ops[j]))
    ensures forall j :: i < j <= k ==> Calm(ws[j], ops[j])
  {
    ProofIsCalm(phase, ws[m], ops[m]);
    hide Calm, Proves;
  }

  lemma AcceptsProved(w: World, op: Op)
    requires Proves(1, w, op)
    ensures Accepts(w, op)
  {
  }

  lemma {:induction false} CaptureRecorded(w: World, op: Op)
    requires op.OpReportCaptured? && Proves(4, w, op) && Phase(w.rt.lifecycle) == 3
    requires Phase(Step(w, op).0.rt.lifecycle) >= 4
    ensures var b := Step(w, op).0.rt.boundary;
      b.checkpointRef == op.result.checkpointRef && b.checkpointGen == op.result.checkpointGen
  {
    hide Walk, Checkpoints.Validates;
  }

  lemma {:induction false} CaptureCheckpoint(w: World, op: Op)
    requires PreemptionOp(op) || ReleaseOp(op)
    requires Edge(w, op) != Some(StateDurable)
    ensures SameCheckpoint(w, Step(w, op).0)
  {
    hide Walk, IsAllowed, Find, Insert, HasAuthority, Environment.AllQuiet, RestoreBytes, Accepts;
    hide Broker.ReleaseEach, Broker.Leases, Broker.NothingReserved, Checkpoints.Validates;
  }

  lemma {:induction false} OtherCheckpoint(w: World, op: Op)
    requires !PreemptionOp(op) && !ReleaseOp(op) && !op.OpRestoreBytes?
    ensures SameCheckpoint(w, Step(w, op).0)
  {
    hide Walk, Find, Insert, RestoreBytes, World.CheckpointCurrent, Authority.Covers;
  }

  lemma {:induction false} StepCheckpoint(w: World, op: Op)
    requires !Recovers(op) && Edge(w, op) != Some(StateDurable)
    ensures SameCheckpoint(w, Step(w, op).0)
  {
    hide Step, Edge, Recovers;
    if op.OpRestoreBytes? {
      RejectedIsIdle(w, op);
    } else if PreemptionOp(op) || ReleaseOp(op) {
      CaptureCheckpoint(w, op);
    } else {
      OtherCheckpoint(w, op);
    }
  }

  lemma {:induction false} CheckpointKept(ws: seq<World>, ops: seq<Op>, i: nat, k: nat)
    requires IsRun(ws, ops) && RestoreFree(ops) && i <= k < |ws|
    requires forall j :: i <= j < k ==> Edge(ws[j], ops[j]) != Some(StateDurable)
    ensures SameCheckpoint(ws[i], ws[k])
    decreases k
  {
    hide Step, Edge, Recovers;
    if i < k {
      CheckpointKept(ws, ops, i, k - 1);
      StepCheckpoint(ws[k - 1], ops[k - 1]);
    }
  }

  // ---- the fence ----

  /** The steps that make an attempt authoritative. */
  predicate Regrants(w: World, op: Op) {
    || op.OpStart? || Recovers(op) || (op.EnvAuthority? && op.authority.authoritative)
    || (op.OpConfirmResumed? && (w.rt.lifecycle == ResumeReady || w.rt.lifecycle == Resuming))
  }

  lemma {:induction false} StepAuthority(w: World, op: Op)
    requires !Regrants(w, op)
    ensures Step(w, op).0.env.authority ==
      if op.OpCommit? && Edge(w, op).Some? then w.env.authority.Fenced()
      else if op.EnvAuthority? then op.authority
      else w.env.authority
  {
    if op.OpRestoreBytes? { RejectedIsIdle(w, op); }
    hide Walk, IsAllowed, Find, Insert, HasAuthority, Environment.AllQuiet, RestoreBytes, Recovers;
    hide Broker.ReleaseEach, Broker.Leases, Broker.NothingReserved, Checkpoints.Validates, Accepts;
  }

  /** The attempt may not publish: it is not authoritative, or its authority is bound to another boot. */
  predicate Barred(w: World) {
    !w.env.authority.authoritative || w.env.authority.boot != w.rt.scope.workerBoot
  }

  lemma {:induction false} BarredPublish(w: World, position: u64, kind: ProgressKind)
    requires Barred(w)
    ensures Publish(w, position, kind) == (w, Published(false))
  {
  }

  lemma {:induction false} BarredProgress(w: World, op: Op)
    requires Barred(w) && !Regrants(w, op)
    ensures Step(w, op).0.rt.progress.durable == w.rt.progress.durable
  {
    match op
    case OpPublish(position, kind) =>
      BarredPublish(w, position, kind);
      hide Publish, Recovers;
    case OpReach(_, _, _) => hide Find, Insert, IsAllowed, RestoreBytes, Recovers;
    case _ =>
      StepFrame(w, op);
      hide Step, Recovers;
  }

  /** No publication is accepted here. */
  ghost predicate Refuses(w: World) {
    forall position, kind :: Publish(w, position, kind) == (w, Published(false))
  }

  lemma {:induction false} BarredRefuses(w: World)
    requires Barred(w)
    ensures Refuses(w)
  {
    forall position, kind ensures Publish(w, position, kind) == (w, Published(false)) {
      BarredPublish(w, position, kind);
    }
  }

  /** Commit i fenced the attempt and nothing up to j grants authority again. */
  ghost predicate FencedSince(ws: seq<World>, ops: seq<Op>, i: nat, j: nat)
    requires IsRun(ws, ops)
  {
    && i < j < |ws| && ops[i].OpCommit? && Edge(ws[i], ops[i]).Some?
    && forall t :: i < t < j ==> !Regrants(ws[t], ops[t])
  }

  /** The environment leaves the authority record alone. */
  predicate AuthorityLeft(ops: seq<Op>, i: nat, j: nat)
    requires j <= |ops|
  {
    forall t :: i < t < j ==> !ops[t].EnvAuthority?
  }

  /** The fence holds across cancellation, failure, completion, worker re-incarnation and rejected recoveries: until a
      step that grants authority, the attempt is not authoritative, every publication is refused and durable progress
      is frozen; and unless the environment rewrites it, the fenced authority stays on record. */
  lemma {:induction false} FenceHolds(ws: seq<World>, ops: seq<Op>, i: nat, j: nat)
    requires IsRun(ws, ops) && FencedSince(ws, ops, i, j)
    ensures !ws[j].env.authority.authoritative && !ws[j].Authoritative() && Refuses(ws[j])
    ensures ws[j].rt.progress.durable == ws[i].rt.progress.durable
    ensures AuthorityLeft(ops, i, j) ==> ws[j].env.authority == ws[i].env.authority.Fenced()
    decreases j
  {
    hide Step, Edge, Publish, Refuses, Recovers;
    var w, op := ws[j - 1], ops[j - 1];
    assert ws[j] == Step(w, op).0;
    if j == i + 1 {
      CommitStep(w, op);
    } else {
      FenceHolds(ws, ops, i, j - 1);
      StepAuthority(w, op);
      BarredProgress(w, op);
    }
    BarredRefuses(ws[j]);
  }

  lemma {:induction false} CommitStep(w: World, op: Op)
    requires op.OpCommit? && Edge(w, op).Some?
    ensures Step(w, op).0.env.authority == w.env.authority.Fenced()
    ensures Step(w, op).0.rt.progress.durable == w.rt.progress.durable
  {
    StepAuthority(w, op);
    StepFrame(w, op);
    hide Step;
  }

  /** A worker incarnation under the very boot that holds authority. */
  predicate Returns(w: World, op: Op) {
    op.OpReincarnate? && op.boot == w.env.authority.boot && w.env.authority.authoritative
  }

  /** The steps after which a barred attempt may publish again: a grant, or a return to the boot that has authority. */
  predicate Unbars(w: World, op: Op) {
    Regrants(w, op) || Returns(w, op)
  }

  /** Short of a grant, the bar is lifted by that return and by nothing else. */
  lemma {:induction false} StepBarred(w: World, op: Op)
    requires Barred(w) && !Regrants(w, op)
    ensures Barred(Step(w, op).0) <==> !Returns(w, op)
  {
    StepAuthority(w, op);
    if op.OpReincarnate? {
      hide RestoreBytes, Recovers;
    } else {
      StepFrame(w, op);
      hide Step, Edge, Recovers;
    }
  }

  lemma {:induction false} StaysBarred(ws: seq<World>, ops: seq<Op>, i: nat, j: nat)
    requires IsRun(ws, ops) && i <= j < |ws| && Barred(ws[i])
    requires forall t :: i <= t < j ==> !Unbars(ws[t], ops[t])
    ensures Barred(ws[j]) && ws[j].rt.progress.durable == ws[i].rt.progress.durable
    decreases j
  {
    hide Step, Barred, Regrants, Returns;
    if i < j {
      StaysBarred(ws, ops, i, j - 1);
      StepBarred(ws[j - 1], ops[j - 1]);
      BarredProgress(ws[j - 1], ops[j - 1]);
    }
  }

  /** A new worker incarnation is fenced by its boot: from the moment a boot other than the authorised one is set, in
      any lifecycle state, every publication is refused and durable progress is frozen until a grant or a return to
      the authorised boot. */
  lemma {:induction false} IncarnationFences(ws: seq<World>, ops: seq<Op>, i: nat, j: nat)
    requires IsRun(ws, ops) && i < j < |ws| && ops[i].OpReincarnate? && ops[i].boot != ws[i].env.authority.boot
    requires forall t :: i < t < j ==> !Unbars(ws[t], ops[t])
    ensures Refuses(ws[j]) && ws[j].rt.progress.durable == ws[i].rt.progress.durable
  {
    IncarnationStep(ws[i], ops[i]);
    hide Step, Refuses, Barred, Unbars;
    assert ws[i + 1] == Step(ws[i], ops[i]).0;
    StaysBarred(ws, ops, i + 1, j);
    BarredRefuses(ws[j]);
  }

  lemma {:induction false} IncarnationStep(w: World, op: Op)
    requires op.OpReincarnate? && op.boot != w.env.authority.boot
    ensures Barred(Step(w, op).0) && Step(w, op).0.rt.progress == w.rt.progress
  {
    hide RestoreBytes;
  }

  /** A resume confirmed behind the fence grants an attempt generation newer than the one on record, and so than the
      fenced one unless the environment rewrote it; strictly newer unless it is already the largest. It is bound to the
      worker boot of that moment. */
  lemma {:induction false} ResumeGrantsNewer(ws: seq<World>, ops: seq<Op>, i: nat, j: nat)
    requires IsRun(ws, ops) && FencedSince(ws, ops, i, j)
    requires j < |ops| && ops[j].OpConfirmResumed? && Regrants(ws[j], ops[j])
    ensures ws[j + 1].Authoritative() && ws[j + 1].rt.lifecycle == Resumed
    ensures ws[j + 1].env.authority.boot == ws[j].rt.scope.workerBoot == ws[j + 1].rt.scope.workerBoot
    ensures Newer(ws[j].env.authority, ws[j + 1].env.authority)
    ensures AuthorityLeft(ops, i, j) ==> Newer(ws[i].env.authority, ws[j + 1].env.authority)
  {
    FenceHolds(ws, ops, i, j);
    StepFollowsEdge(ws[j], ops[j]);
    ConfirmGrants(ws[j], ops[j]);
    hide Step, Edge, Publish, Recovers;
  }

  predicate Newer(a: Authority, a': Authority) {
    a'.attemptGen >= a.attemptGen && (a'.attemptGen == a.attemptGen <==> a.attemptGen == MAX64)
  }

  lemma {:induction false} ConfirmGrants(w: World, op: Op)
    requires op.OpConfirmResumed? && Regrants(w, op)
    ensures var t := w.rt.scope;
      Step(w, op).0.env.authority == w.env.authority.Granted(t.executionId, t.attemptId, t.executionGen, t.workerBoot)
    ensures Step(w, op).0.Authoritative() && Step(w, op).0.rt.scope == w.rt.scope
    ensures Edge(w, op) == Some(Resumed)
  {
    hide Walk, RestoreBytes;
  }

  // ---- counting ----

  datatype Milestone = Started | AcceptedOne | PreemptedOne | ResumeAsked | ResumedOne

  predicate Hits(m: Milestone, w: World, op: Op) {
    match m
    case Started => op.OpStart?
    case AcceptedOne => Accepts(w, op)
    case PreemptedOne => op.OpCommit? && Edge(w, op).Some?
    case ResumeAsked => op.OpRequestResume? && w.rt.lifecycle == Preempted
    case ResumedOne => op.OpConfirmResumed? && Regrants(w, op)
  }

  /** How often a milestone is hit in the first k steps. */
  ghost function Tally(m: Milestone, ws: seq<World>, ops: seq<Op>, k: nat): nat
    requires |ws| == |ops| + 1 && k <= |ops|
  {
    if k == 0 then 0 else Tally(m, ws, ops, k - 1) + (if Hits(m, ws[k - 1], ops[k - 1]) then 1 else 0)
  }

  function Bit(b: bool): nat {
    if b then 1 else 0
  }

  predicate Open(rt: Runtime) {
    rt.active.Some? && !rt.lifecycle.Terminal()
  }

  /** What each step may add to the tallies, against what the state owes. */
  lemma {:induction false} PreemptedStep(w: World, op: Op)
    requires Staged(w.rt) && !Recovers(op)
    ensures Bit(Hits(PreemptedOne, w, op)) + Bit(1 <= Phase(Step(w, op).0.rt.lifecycle) <= 5) <=
      Bit(Hits(AcceptedOne, w, op)) + Bit(1 <= Phase(w.rt.lifecycle) <= 5)
  {
    PhaseStep(w, op);
    hide Step, Find, HasAuthority, Environment.AllQuiet, Broker.NothingReserved, World.CheckpointCurrent;
    StepFollowsEdge(w, op);
    if Hits(PreemptedOne, w, op) {
      assert Edge(w, op) == Some(Preempted);
    }
  }

  lemma {:induction false} ResumeSteps(w: World, op: Op)
    requires Staged(w.rt) && !Recovers(op)
    ensures var s, s' := w.rt.lifecycle, Step(w, op).0.rt.lifecycle;
      && Bit(Hits(ResumeAsked, w, op)) + Bit(s' == Preempted) <= Bit(Hits(PreemptedOne, w, op)) + Bit(s == Preempted)
      && Bit(Hits(ResumedOne, w, op)) + Bit(16 <= s'.Code() <= 20) <=
           Bit(Hits(ResumeAsked, w, op)) + Bit(16 <= s.Code() <= 20)
  {
    StepFollowsEdge(w, op);
    hide Step, Find, Environment.AllQuiet, Broker.NothingReserved, World.CheckpointCurrent;
    hide Environment.DependencyBlocks, Checkpoints.Validates, HasAuthority, Runtime.CaptureRequiredHere;
  }

  lemma {:induction false} RequestStep(w: World, op: Op)
    requires Staged(w.rt) && !Recovers(op)
    ensures var rt, rt' := w.rt, Step(w, op).0.rt;
      && |rt'.history| + Bit(Open(rt')) <= |rt.history| + Bit(Open(rt)) + Bit(Hits(AcceptedOne, w, op))
      && Bit(Hits(AcceptedOne, w, op)) + Bit(rt.active.Some?) <= Bit(rt'.active.Some?) + Bit(Hits(Started, w, op))
  {
    StepRequests(w, op);
    StepFollowsEdge(w, op);
    if op.OpCancel? {
      CancelStep(w, op);
    } else if !op.OpStart? && !Accepts(w, op) && w.rt.lifecycle.Terminal() {
      TerminalStays(w, op);
    }
    hide Step, HasAuthority, Edge, LifecycleState.Terminal;
  }

  lemma {:induction false} CancelStep(w: World, op: Op)
    requires op.OpCancel?
    ensures var rt, rt' := w.rt, Step(w, op).0.rt;
      |rt'.history| == |rt.history| + Bit(Open(rt)) && rt'.lifecycle.Terminal()
  {
    hide RestoreBytes;
  }

  lemma {:induction false} TerminalStays(w: World, op: Op)
    requires w.rt.lifecycle.Terminal() && !Recovers(op) && !op.OpStart? && !Accepts(w, op)
    ensures Edge(w, op).None?
  {
    hide Find, HasAuthority;
  }

  ghost predicate Balanced(ws: seq<World>, ops: seq<Op>, k: nat)
    requires |ws| == |ops| + 1 && k <= |ops|
  {
    var rt, s := ws[k].rt, ws[k].rt.lifecycle;
    && Tally(PreemptedOne, ws, ops, k) + Bit(1 <= Phase(s) <= 5) <= Tally(AcceptedOne, ws, ops, k)
    && Tally(ResumeAsked, ws, ops, k) + Bit(s == Preempted) <= Tally(PreemptedOne, ws, ops, k)
    && Tally(ResumedOne, ws, ops, k) + Bit(16 <= s.Code() <= 20) <= Tally(ResumeAsked, ws, ops, k)
    && |rt.history| + Bit(Open(rt)) <= Tally(AcceptedOne, ws, ops, k)
    && Tally(AcceptedOne, ws, ops, k) <= Tally(Started, ws, ops, k) + Bit(rt.active.Some?)
  }

  lemma {:induction false} RunIsBalanced(ws: seq<World>, ops: seq<Op>, k: nat)
    requires IsRun(ws, ops) && Fresh(ws[0]) && RestoreFree(ops) && k < |ws|
    ensures Balanced(ws, ops, k)
    decreases k
  {
    if k == 0 {
      FreshIsBalanced(ws, ops);
    } else {
      hide Step, Hits, Phase, Open, Staged, Recorded, LifecycleState.Code;
      RunIsBalanced(ws, ops, k - 1);
      RestoreFreeRunIsStaged(ws, ops, k - 1);
      PreemptedStep(ws[k - 1], ops[k - 1]);
      ResumeSteps(ws[k - 1], ops[k - 1]);
      RequestStep(ws[k - 1], ops[k - 1]);
    }
  }

  lemma {:induction false} FreshIsBalanced(ws: seq<World>, ops: seq<Op>)
    requires |ws| == |ops| + 1 && Fresh(ws[0])
    ensures Balanced(ws, ops, 0)
  {
    hide Hits;
  }

  /** In every restore-free run: resumed <= resume-requested <= preempted <= accepted, no more requests are
      cancelled into the history than were accepted, and at most one more is accepted than executions started. */
  lemma {:induction false} MilestonesOrdered(ws: seq<World>, ops: seq<Op>, k: nat)
    requires IsRun(ws, ops) && Fresh(ws[0]) && RestoreFree(ops) && k < |ws|
    ensures Tally(ResumedOne, ws, ops, k) <= Tally(ResumeAsked, ws, ops, k) <= Tally(PreemptedOne, ws, ops, k)
    ensures Tally(PreemptedOne, ws, ops, k) <= Tally(AcceptedOne, ws, ops, k) <= Tally(Started, ws, ops, k) + 1
    ensures |ws[k].rt.history| <= Tally(AcceptedOne, ws, ops, k)
  {
    hide Step, Hits, Tally, Phase, Open;
    RunIsBalanced(ws, ops, k);
  }

  /** Between two accepted requests of a restore-free run an execution is started. */
  lemma {:induction false} OneRequestPerStart(ws: seq<World>, ops: seq<Op>, i: nat, j: nat)
    requires IsRun(ws, ops) && RestoreFree(ops) && i < j < |ops|
    requires Accepts(ws[i], ops[i]) && Accepts(ws[j], ops[j])
    ensures exists t :: i < t < j && ops[t].OpStart?
  {
    hide Step, HasAuthority, Recovers;
    if forall t :: i < t < j ==> !ops[t].OpStart? {
      StepRequests(ws[i], ops[i]);
      RequestStands(ws, ops, i + 1, j);
      assert false;
    }
  }

  lemma {:induction false} RequestStands(ws: seq<World>, ops: seq<Op>, i: nat, j: nat)
    requires IsRun(ws, ops) && RestoreFree(ops) && i <= j < |ws| && ws[i].rt.active.Some?
    requires forall t :: i <= t < j ==> !ops[t].OpStart?
    ensures ws[j].rt.active == ws[i].rt.active
    decreases j
  {
    hide Step, HasAuthority, Recovers;
    if i < j {
      RequestStands(ws, ops, i, j - 1);
      StepRequests(ws[j - 1], ops[j - 1]);
    }
  }

  /** Terminal states absorb exactly while a request is active: without a recovery, a terminal state is left only by
      starting an execution or by admitting a request, and a request is admitted there whenever none is active. */
  lemma {:induction false} TerminalAbsorbs(w: World, op: Op)
    requires w.rt.lifecycle.Terminal() && !Recovers(op)
    ensures Step(w, op).0.rt.lifecycle == w.rt.lifecycle <==> !op.OpStart? && !Accepts(w, op)
    ensures w.rt.active.Some? && !op.OpStart? ==> Step(w, op).0.rt.lifecycle == w.rt.lifecycle
  {
    StepFollowsEdge(w, op);
    if !op.OpStart? && !Accepts(w, op) { TerminalStays(w, op); }
    hide Step, HasAuthority, Find, Environment.AllQuiet, Broker.NothingReserved, World.CheckpointCurrent;
  }

  // ---- completion after preemption ----

  /** At or past the preempted boundary, or finished, with the request still active. */
  predicate Settled(rt: Runtime) {
    rt.active.Some? && (rt.lifecycle.PreemptedDurable() || rt.lifecycle.Terminal())
  }

  lemma {:induction false} SettledEdge(w: World, op: Op)
    requires Settled(w.rt) && !op.OpStart? && !Recovers(op) && Edge(w, op).Some?
    ensures var t := Edge(w, op).value;
      && (t.PreemptedDurable() || t.Terminal())
      && (t == Aborted <==> op.OpComplete? && w.rt.lifecycle == Preempted)
      && w.rt.lifecycle != Aborted
  {
    hide Find, Environment.AllQuiet, Broker.NothingReserved, World.CheckpointCurrent, HasAuthority, Recovers;
    hide Environment.DependencyBlocks, Checkpoints.Validates, Runtime.CaptureRequiredHere;
  }

  lemma {:induction false} CompleteEdge(w: World, op: Op)
    requires op.OpComplete? && w.rt.lifecycle == Preempted
    ensures Edge(w, op) == Some(Aborted)
  {
  }

  lemma {:induction false} SettledStep(w: World, op: Op)
    requires Settled(w.rt) && !op.OpStart? && !Recovers(op)
    ensures Settled(Step(w, op).0.rt)
    ensures Step(w, op).0.rt.lifecycle == Aborted <==>
      w.rt.lifecycle == Aborted || (op.OpComplete? && w.rt.lifecycle == Preempted)
  {
    StepFollowsEdge(w, op);
    StepRequests(w, op);
    if Edge(w, op).Some? { SettledEdge(w, op); }
    if op.OpComplete? && w.rt.lifecycle == Preempted { CompleteEdge(w, op); }
    hide Step, Edge, HasAuthority, Recovers, LifecycleState.PreemptedDurable, LifecycleState.Terminal;
  }

  /** Completion is called while the run rests in Preempted. */
  predicate CompletesPreempted(w: World, op: Op) {
    op.OpComplete? && w.rt.lifecycle == Preempted
  }

  /** Completion does compete with a committed preemption. Between a commit and the next start of a restore-free run,
      the lifecycle is Aborted exactly when completion was called in Preempted; it is never left again, so nothing
      resumes that preemption. */
  lemma {:induction false} CompletionAborts(ws: seq<World>, ops: seq<Op>, i: nat, j: nat)
    requires IsRun(ws, ops) && Fresh(ws[0]) && RestoreFree(ops) && i < j < |ws|
    requires ops[i].OpCommit? && Edge(ws[i], ops[i]).Some? && forall t :: i < t < j ==> !ops[t].OpStart?
    ensures Settled(ws[j].rt)
    ensures ws[j].rt.lifecycle == Aborted <==> exists t :: i < t < j && CompletesPreempted(ws[t], ops[t])
    decreases j
  {
    hide Step, Edge, Recovers, Settled;
    var w, op := ws[j - 1], ops[j - 1];
    assert ws[j] == Step(w, op).0;
    if j == i + 1 {
      RestoreFreeRunIsStaged(ws, ops, i);
      CommitSettles(w, op);
    } else {
      CompletionAborts(ws, ops, i, j - 1);
      SettledStep(w, op);
    }
  }

  lemma {:induction false} CommitSettles(w: World, op: Op)
    requires Staged(w.rt) && op.OpCommit? && Edge(w, op).Some?
    ensures Settled(Step(w, op).0.rt) && Step(w, op).0.rt.lifecycle == Preempted
  {
    StepFollowsEdge(w, op);
    StepRequests(w, op);
    hide Step, HasAuthority, Recovers;
  }
}
