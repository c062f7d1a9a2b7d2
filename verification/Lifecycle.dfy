/** The guarded preemption lifecycle (include/preemption_fabric/lifecycle/lifecycle.hpp). */
module Lifecycle {

  datatype LifecycleState =
    Invalid | Requested | ValidatingAuthority | Assessing | Deferred | WaitingForSafePoint |
    SafePointReached | Quiescing | Quiesced | CaptureRequired | CapturingState | StateDurable |
    ReleasePending | Releasing | ResourcesReleased | Preempted | ResumePending | Revalidating | Restoring |
    ResumeReady | Resuming | Resumed | Cancelled | Aborted | Failed | Superseded
  {
    /** The enumeration's numeric value. */
    function Code(): (n: nat)
      ensures n <= 25
    {
      match this
      case Invalid => 0
      case Requested => 1
      case ValidatingAuthority => 2
      case Assessing => 3
      case Deferred => 4
      case WaitingForSafePoint => 5
      case SafePointReached => 6
      case Quiescing => 7
      case Quiesced => 8
      case CaptureRequired => 9
      case CapturingState => 10
      case StateDurable => 11
      case ReleasePending => 12
      case Releasing => 13
      case ResourcesReleased => 14
      case Preempted => 15
      case ResumePending => 16
      case Revalidating => 17
      case Restoring => 18
      case ResumeReady => 19
      case Resuming => 20
      case Resumed => 21
      case Cancelled => 22
      case Aborted => 23
      case Failed => 24
      case Superseded => 25
    }

    /** The states an edge may lead to; an unlisted edge is illegal. */
    function Frontier(): seq<LifecycleState> {
      match this
      case Requested => [ValidatingAuthority, Cancelled, Superseded]
      case ValidatingAuthority => [Assessing, Cancelled, Superseded, Failed]
      case Assessing => [Deferred, WaitingForSafePoint, Quiescing, CaptureRequired, Cancelled, Superseded, Failed]
      case Deferred => [WaitingForSafePoint, Cancelled, Superseded]
      case WaitingForSafePoint => [SafePointReached, Cancelled, Superseded, Failed]
      case SafePointReached => [Quiescing, Cancelled, Superseded]
      case Quiescing => [Quiesced, Cancelled, Failed, Superseded]
      case Quiesced => [CaptureRequired, ReleasePending, Failed, Superseded]
      case CaptureRequired => [CapturingState, Failed, Superseded]
      case CapturingState => [StateDurable, Failed, Superseded, Cancelled]
      case StateDurable => [ReleasePending, Failed, Superseded]
      case ReleasePending => [Releasing, Failed, Superseded]
      case Releasing => [ResourcesReleased, Failed, Superseded]
      case ResourcesReleased => [Preempted, Superseded]
      case Preempted => [ResumePending, Superseded]
      case ResumePending => [Revalidating, Cancelled, Superseded]
      case Revalidating => [Restoring, ResumeReady, Cancelled, Superseded, Failed]
      case Restoring => [ResumeReady, Failed, Cancelled, Superseded]
      case ResumeReady => [Resuming, Cancelled, Superseded]
      case Resuming => [Resumed, Failed, Cancelled, Superseded]
      case _ => []
    }

    predicate Terminal() {
      this == Cancelled || this == Aborted || this == Failed || this == Superseded || this == Resumed
    }

    /** A durable preempted boundary has been reached and committed. */
    predicate PreemptedDurable() {
      this == Preempted || this == ResumePending || this == Revalidating || this == Restoring ||
      this == ResumeReady || this == Resuming || this == Resumed
    }
  }

  function FromCode(n: nat): LifecycleState
    requires n <= 25
  {
    match n
    case 0 => Invalid
    case 1 => Requested
    case 2 => ValidatingAuthority
    case 3 => Assessing
    case 4 => Deferred
    case 5 => WaitingForSafePoint
    case 6 => SafePointReached
    case 7 => Quiescing
    case 8 => Quiesced
    case 9 => CaptureRequired
    case 10 => CapturingState
    case 11 => StateDurable
    case 12 => ReleasePending
    case 13 => Releasing
    case 14 => ResourcesReleased
    case 15 => Preempted
    case 16 => ResumePending
    case 17 => Revalidating
    case 18 => Restoring
    case 19 => ResumeReady
    case 20 => Resuming
    case 21 => Resumed
    case 22 => Cancelled
    case 23 => Aborted
    case 24 => Failed
    case _ => Superseded
  }

  lemma FromCodeOfCode(s: LifecycleState)
    ensures FromCode(s.Code()) == s
  {
  }

  lemma CodeOfFromCode(n: nat)
    requires n <= 25
    ensures FromCode(n).Code() == n
  {
  }

  predicate IsAllowed(from: LifecycleState, to: LifecycleState) {
    to in from.Frontier()
  }

  /** The classes of states by number. */
  lemma StateClasses(s: LifecycleState)
    ensures s.Terminal() <==> s.Code() >= 21
    ensures s.PreemptedDurable() <==> 15 <= s.Code() <= 21
  {
  }

  /** The graph by its targets: abandoning is possible everywhere on the main path, cancelling and failing in the states
      listed, and the main path itself has these edges and no others. */
  lemma {:induction false} EdgesByTarget(from: LifecycleState, to: LifecycleState)
    ensures IsAllowed(from, Superseded) <==> 1 <= from.Code() <= 20
    ensures IsAllowed(from, Cancelled) <==> from.Code() in {1, 2, 3, 4, 5, 6, 7, 10, 16, 17, 18, 19, 20}
    ensures IsAllowed(from, Failed) <==> from.Code() in {2, 3, 5, 7, 8, 9, 10, 11, 12, 13, 17, 18, 20}
    ensures to.Code() <= 21 ==> (IsAllowed(from, to) <==> MainEdge(from.Code(), to.Code()))
    ensures !IsAllowed(from, Aborted)
  {
    AbandonEdges(from);
    if to.Code() <= 21 { MainEdges(from, to); }
    hide IsAllowed, MainEdge;
  }

  /** One state further from Requested on, or one of five shortcuts. */
  predicate MainEdge(a: nat, b: nat) {
    || (a >= 1 && b == a + 1)
    || (a == 3 && (b == 5 || b == 7 || b == 9)) || (a == 8 && b == 12) || (a == 17 && b == 19)
  }

  lemma {:induction false} AbandonEdges(from: LifecycleState)
    ensures IsAllowed(from, Superseded) <==> 1 <= from.Code() <= 20
    ensures IsAllowed(from, Cancelled) <==> from.Code() in {1, 2, 3, 4, 5, 6, 7, 10, 16, 17, 18, 19, 20}
    ensures IsAllowed(from, Failed) <==> from.Code() in {2, 3, 5, 7, 8, 9, 10, 11, 12, 13, 17, 18, 20}
    ensures !IsAllowed(from, Aborted)
  {
  }

  lemma {:induction false} MainEdges(from: LifecycleState, to: LifecycleState)
    requires to.Code() <= 21
    ensures IsAllowed(from, to) <==> MainEdge(from.Code(), to.Code())
  {
    var n := from.Code();
    if n <= 5 {
      FirstEdges(from, to);
    } else if n <= 11 {
      SecondEdges(from, to);
    } else if n <= 17 {
      ThirdEdges(from, to);
    } else {
      LastEdges(from, to);
    }
    hide IsAllowed, MainEdge;
  }

  lemma {:induction false} FirstEdges(from: LifecycleState, to: LifecycleState)
    requires to.Code() <= 21 && from.Code() <= 5
    ensures IsAllowed(from, to) <==> MainEdge(from.Code(), to.Code())
  {
  }

  lemma {:induction false} SecondEdges(from: LifecycleState, to: LifecycleState)
    requires to.Code() <= 21 && 6 <= from.Code() <= 11
    ensures IsAllowed(from, to) <==> MainEdge(from.Code(), to.Code())
  {
  }

  lemma {:induction false} ThirdEdges(from: LifecycleState, to: LifecycleState)
    requires to.Code() <= 21 && 12 <= from.Code() <= 17
    ensures IsAllowed(from, to) <==> MainEdge(from.Code(), to.Code())
  {
  }

  lemma {:induction false} LastEdges(from: LifecycleState, to: LifecycleState)
    requires to.Code() <= 21 && 18 <= from.Code()
    ensures IsAllowed(from, to) <==> MainEdge(from.Code(), to.Code())
  {
  }

  /** Every edge raises the lifecycle number. */
  lemma EdgesRise(from: LifecycleState, to: LifecycleState)
    requires IsAllowed(from, to)
    ensures from.Code() < to.Code()
  {
  }

  /** Transitions taken one after another: the last state reached, and whether all edges were legal.
      The first illegal edge throws, leaving the machine where it was. */
  function Walk(from: LifecycleState, path: seq<LifecycleState>): (LifecycleState, bool)
    decreases |path|
  {
    if path == [] then (from, true)
    else if IsAllowed(from, path[0]) then Walk(path[0], path[1..])
    else (from, false)
  }

  lemma {:induction false} WalkOne(a: LifecycleState, b: LifecycleState)
    ensures Walk(a, [b]) == if IsAllowed(a, b) then (b, true) else (a, false)
  {
    hide IsAllowed;
    assert [b][1..] == [];
  }

  lemma {:induction false} WalkTwo(a: LifecycleState, b: LifecycleState, c: LifecycleState)
    requires IsAllowed(a, b)
    ensures Walk(a, [b, c]) == if IsAllowed(b, c) then (c, true) else (b, false)
  {
    hide IsAllowed;
    assert [b, c][1..] == [c];
    WalkOne(b, c);
  }

  lemma {:induction false} WalkRises(from: LifecycleState, path: seq<LifecycleState>)
    ensures var (at, ok) := Walk(from, path);
      at == from || from.Code() < at.Code()
    decreases |path|
  {
    if path != [] && IsAllowed(from, path[0]) {
      EdgesRise(from, path[0]);
      hide IsAllowed;
      WalkRises(path[0], path[1..]);
    }
  }

  // ---- what the bare graph forces ----

  /** A path through the graph, edge by edge. */
  ghost predicate IsPath(p: seq<LifecycleState>) {
    forall i :: 0 <= i < |p| - 1 ==> IsAllowed(p[i], p[i + 1])
  }

  lemma {:induction false} PathRises(p: seq<LifecycleState>, i: nat, j: nat)
    requires IsPath(p) && i < j < |p|
    ensures p[i].Code() < p[j].Code()
    decreases j
  {
    hide IsAllowed;
    EdgesRise(p[j - 1], p[j]);
    if i < j - 1 { PathRises(p, i, j - 1); }
  }

  predicate AfterCapture(s: LifecycleState) {
    s in {CaptureRequired, CapturingState, StateDurable, ReleasePending, Releasing, ResourcesReleased}
  }

  ghost predicate SkipsQuiescence(p: seq<LifecycleState>) {
    exists i :: 0 <= i < |p| - 1 && p[i] == Assessing && p[i + 1] == CaptureRequired
  }

  lemma AfterCaptureStep(a: LifecycleState, b: LifecycleState)
    requires IsAllowed(a, b) && AfterCapture(b)
    ensures AfterCapture(a) || a == Quiesced || (a == Assessing && b == CaptureRequired)
  {
  }

  lemma {:induction false} CaptureOrigin(p: seq<LifecycleState>, k: nat)
    requires IsPath(p) && k < |p| && AfterCapture(p[k]) && p[0] == Requested
    ensures Quiesced in p || SkipsQuiescence(p)
    decreases k
  {
    if k > 0 {
      assert IsAllowed(p[k - 1], p[k]);
      AfterCaptureStep(p[k - 1], p[k]);
      hide IsAllowed;
      if AfterCapture(p[k - 1]) { CaptureOrigin(p, k - 1); }
    }
  }

  /** The header promises that resources cannot be released without passing through quiescence. The graph
      alone does not give that: a path from Requested to ResourcesReleased avoids Quiesced exactly when it
      takes the edge from Assessing to CaptureRequired. */
  lemma {:induction false} ReleaseWithoutQuiescence(p: seq<LifecycleState>)
    requires IsPath(p) && |p| > 0 && p[0] == Requested && p[|p| - 1] == ResourcesReleased
    ensures Quiesced !in p <==> SkipsQuiescence(p)
  {
    hide IsAllowed;
    CaptureOrigin(p, |p| - 1);
    if SkipsQuiescence(p) && Quiesced in p {
      var i :| 0 <= i < |p| - 1 && p[i] == Assessing && p[i + 1] == CaptureRequired;
      var q :| 0 <= q < |p| && p[q] == Quiesced;
      if q < i { PathRises(p, q, i); }
      if q > i + 1 { PathRises(p, i + 1, q); }
      assert false;
    }
  }

  /** Such a path exists. */
  lemma ReleaseWithoutQuiescenceExists()
    ensures exists p :: IsPath(p) && |p| > 0 && p[0] == Requested && p[|p| - 1] == ResourcesReleased && Quiesced !in p
  {
    hide IsAllowed;
    ShortcutEdges();
    var p := [Requested, ValidatingAuthority, Assessing, CaptureRequired, CapturingState, StateDurable,
              ReleasePending, Releasing, ResourcesReleased];
    assert IsPath(p);
  }

  lemma ShortcutEdges()
    ensures IsAllowed(Requested, ValidatingAuthority) && IsAllowed(ValidatingAuthority, Assessing)
    ensures IsAllowed(Assessing, CaptureRequired) && IsAllowed(CaptureRequired, CapturingState)
    ensures IsAllowed(CapturingState, StateDurable) && IsAllowed(StateDurable, ReleasePending)
    ensures IsAllowed(ReleasePending, Releasing) && IsAllowed(Releasing, ResourcesReleased)
  {
  }

  predicate ResumeStage(s: LifecycleState) {
    s in {ResumePending, Revalidating, Restoring, ResumeReady, Resuming, Resumed}
  }

  lemma ResumeStep(a: LifecycleState, b: LifecycleState)
    requires IsAllowed(a, b) && ResumeStage(b)
    ensures b == Resumed ==> a == Resuming
    ensures b == Resuming ==> a == ResumeReady
    ensures b == ResumeReady ==> a == Restoring || a == Revalidating
    ensures b == Restoring ==> a == Revalidating
    ensures b == Revalidating ==> a == ResumePending
    ensures b == ResumePending ==> a == Preempted
  {
  }

  const DIRECT_RESUME: seq<LifecycleState> :=
    [Preempted, ResumePending, Revalidating, ResumeReady, Resuming, Resumed]
  const RESTORED_RESUME: seq<LifecycleState> :=
    [Preempted, ResumePending, Revalidating, Restoring, ResumeReady, Resuming, Resumed]

  predicate EndsWith(p: seq<LifecycleState>, tail: seq<LifecycleState>) {
    |tail| <= |p| && p[|p| - |tail|..] == tail
  }

  /** Resuming needs every resume stage in order: a path that starts outside the resume stages and ends in
      Resumed has Preempted, ResumePending, Revalidating, possibly Restoring, ResumeReady, Resuming just before it. */
  lemma {:induction false} ResumeIsStaged(p: seq<LifecycleState>)
    requires IsPath(p) && |p| > 0 && !ResumeStage(p[0]) && p[|p| - 1] == Resumed
    ensures EndsWith(p, DIRECT_RESUME) || EndsWith(p, RESTORED_RESUME)
  {
    hide IsAllowed;
    var n := |p|;
    ResumeStep(p[n - 2], p[n - 1]);
    ResumeStep(p[n - 3], p[n - 2]);
    ResumeStep(p[n - 4], p[n - 3]);
    if p[n - 4] == Revalidating {
      ResumeStep(p[n - 5], p[n - 4]);
      ResumeStep(p[n - 6], p[n - 5]);
      assert p[n - 6..] == DIRECT_RESUME;
    } else {
      ResumeStep(p[n - 5], p[n - 4]);
      ResumeStep(p[n - 6], p[n - 5]);
      ResumeStep(p[n - 7], p[n - 6]);
      assert p[n - 7..] == RESTORED_RESUME;
    }
  }

  // ---- the machine ----

  class LifecycleStateMachine {
    var state: LifecycleState

    constructor ()
      ensures state == Invalid
    {
      state := Invalid;
    }

    /** False where the source throws; the state is then unchanged. */
    method Transition(to: LifecycleState) returns (ok: bool)
      modifies this
      ensures ok == IsAllowed(old(state), to)
      ensures state == if ok then to else old(state)
    {
      ok := to in state.Frontier();
      if ok { state := to; }
    }

    method Reset(s: LifecycleState)
      modifies this
      ensures state == s
    {
      state := s;
    }
  }
}
