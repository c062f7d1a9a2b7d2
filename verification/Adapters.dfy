/** The reference environment of the runtime: attempt authority, checkpoint store, resource broker,
    dependency view and quiescence provider (include/preemption_fabric/adapters/reference.hpp). */
module Adapters {
  import opened Words

  /** Saturating increment of a generation (include/preemption_fabric/core/identity.hpp). */
  function Next(g: u64): (n: u64)
    ensures g < MAX64 ==> n == g + 1
    ensures g <= n
  {
    if g == MAX64 then g else g + 1
  }

  // ---- execution fabric: who may publish ----

  datatype Authority = Authority(
    authoritative: bool, execution: u64, attempt: u64, executionGen: u64, attemptGen: u64, epoch: u64, boot: u64)
  {
    predicate Covers(e: u64, a: u64) {
      authoritative && e == execution && a == attempt
    }

    function Fenced(): Authority {
      this.(authoritative := false)
    }

    function Granted(e: u64, a: u64, eg: u64, worker: u64): Authority {
      Authority(true, e, a, eg, Next(attemptGen), epoch, worker)
    }
  }

  // ---- checkpoint fabric ----

  datatype CaptureResult = CaptureResult(
    completed: bool, success: bool, captureId: u64, captureGen: u64, checkpointRef: u64, checkpointGen: u64)

  datatype Checkpoints = Checkpoints(
    captureSucceeds: bool, captureCount: u64, valid: bool, currentGen: u64, lastCapture: Option<CaptureResult>)
  {
    /** Generation fencing: only the current generation of a real checkpoint satisfies a check. */
    predicate Validates(ref: u64, gen: u64) {
      valid && ref != 0 && gen == currentGen
    }

    function Captured(expected: u64): Checkpoints {
      var n := WrapAdd(captureCount, 1);
      this.(captureCount := n, lastCapture := Some(CaptureResult(true, captureSucceeds, n, expected, n, expected)))
    }
  }

  // ---- resource broker ----

  datatype ResourceClass =
    | NoResource | AcceleratorExecutionSlot | DeviceMemory | PinnedHostMemory | HostMemory | TemporaryBuffers
    | ModelAdapterResidency | TransferReservation | NetworkBandwidth | StorageLease | RuntimeHandle | OtherResource
  {
    function Code(): (n: nat)
      ensures n <= 11
    {
      match this
      case NoResource => 0
      case AcceleratorExecutionSlot => 1
      case DeviceMemory => 2
      case PinnedHostMemory => 3
      case HostMemory => 4
      case TemporaryBuffers => 5
      case ModelAdapterResidency => 6
      case TransferReservation => 7
      case NetworkBandwidth => 8
      case StorageLease => 9
      case RuntimeHandle => 10
      case OtherResource => 11
    }
  }

  function ResourceOf(n: nat): ResourceClass
    requires n <= 11
  {
    match n
    case 0 => NoResource
    case 1 => AcceleratorExecutionSlot
    case 2 => DeviceMemory
    case 3 => PinnedHostMemory
    case 4 => HostMemory
    case 5 => TemporaryBuffers
    case 6 => ModelAdapterResidency
    case 7 => TransferReservation
    case 8 => NetworkBandwidth
    case 9 => StorageLease
    case 10 => RuntimeHandle
    case _ => OtherResource
  }

  lemma ResourceCodes(c: ResourceClass)
    ensures ResourceOf(c.Code()) == c
  {
  }

  lemma CodeOfResource(n: nat)
    requires n <= 11
    ensures ResourceOf(n).Code() == n
  {
  }

  datatype Lease = Lease(resource: ResourceClass, units: u64)

  type Accounts = map<ResourceClass, u64>

  /** An absent class holds nothing. */
  function Held(m: Accounts, c: ResourceClass): u64 {
    if c in m then m[c] else 0
  }

  datatype Broker = Broker(
    contractId: u64, contractGen: u64, execution: u64, reserved: Accounts, released: Accounts, nextId: u64)
  {
    /** Reserved plus released units of a class. */
    function Total(c: ResourceClass): nat {
      Held(reserved, c) + Held(released, c)
    }

    function Contracted(e: u64, g: u64, leases: seq<Lease>): Broker {
      Broker(nextId, g, e, Reserve(map[], leases), map[], WrapAdd(nextId, 1))
    }

    function Advanced(step: u64): Broker {
      this.(contractGen := WrapAdd(contractGen, step))
    }

    /** The current contract's leases in the order of their classes. */
    function Leases(): seq<Lease> {
      LeasesFrom(reserved, 0)
    }

    /** A release against a stale contract, another execution or too small a reservation changes nothing. */
    function Release(e: u64, c: ResourceClass, units: u64, expected: u64): (Broker, bool) {
      if e != execution || expected != contractGen then (this, false)
      else if c !in reserved || reserved[c] < units then (this, false)
      else (this.(reserved := reserved[c := reserved[c] - units],
                  released := released[c := WrapAdd(Held(released, c), units)]), true)
    }

    /** Reacquiring fixes the contract generation before it looks at the accounts, and creates the class's
        released entry. */
    function Reacquire(e: u64, c: ResourceClass, units: u64, contract: u64): (Broker, bool) {
      var b := this.(contractGen := if contract != 0 then contract else WrapAdd(contractGen, 1));
      if e != execution then (b, false)
      else
        var had := Held(released, c);
        if had < units then (b.(released := released[c := had]), false)
        else (b.(released := released[c := had - units],
                 reserved := reserved[c := WrapAdd(Held(reserved, c), units)]), true)
    }

    /** The runtime's loop: one release per lease, failures ignored. */
    function ReleaseEach(e: u64, leases: seq<Lease>, gen: u64): Broker
      decreases |leases|
    {
      if leases == [] then this
      else
        var n := |leases| - 1;
        ReleaseEach(e, leases[..n], gen).Release(e, leases[n].resource, leases[n].units, gen).0
    }

    predicate NothingReserved() {
      forall c :: c in reserved ==> reserved[c] == 0
    }
  }

  function Reserve(m: Accounts, leases: seq<Lease>): Accounts
    decreases |leases|
  {
    if leases == [] then m
    else
      var n := |leases| - 1;
      var before := Reserve(m, leases[..n]);
      before[leases[n].resource := WrapAdd(Held(before, leases[n].resource), leases[n].units)]
  }

  function LeasesFrom(reserved: Accounts, k: nat): seq<Lease>
    requires k <= 12
    decreases 12 - k
  {
    if k == 12 then []
    else if ResourceOf(k) in reserved then
      [Lease(ResourceOf(k), reserved[ResourceOf(k)])] + LeasesFrom(reserved, k + 1)
    else LeasesFrom(reserved, k + 1)
  }

  // ---- quiescence ----

  datatype QuiescenceCategory =
    | CpuWorkerActivity | AcceleratorKernels | AsynchronousCopies | QueuedDeviceOperations | HostCallbacks
    | StorageWrites | NetworkActivity | StatePublication | CompletionPublication | PendingResourceMutation

  const CATEGORIES: seq<QuiescenceCategory> := [
    CpuWorkerActivity, AcceleratorKernels, AsynchronousCopies, QueuedDeviceOperations, HostCallbacks,
    StorageWrites, NetworkActivity, StatePublication, CompletionPublication, PendingResourceMutation]

  datatype DependencyStatus = Current | Stale | Missing | UnknownDependency

  datatype Environment = Environment(
    authority: Authority, checkpoints: Checkpoints, broker: Broker, dependency: DependencyStatus,
    quiet: map<QuiescenceCategory, bool>)
  {
    /** All ten categories report quiescence; an unreported category does not. */
    predicate AllQuiet() {
      forall c: QuiescenceCategory :: c in quiet && quiet[c]
    }

    predicate DependencyBlocks() {
      dependency == Stale || dependency == Missing
    }
  }

  const FRESH_ENVIRONMENT: Environment := Environment(
    Authority(false, 0, 0, 0, 0, 0, 0), Checkpoints(true, 0, true, 1, None), Broker(0, 0, 0, map[], map[], 1),
    UnknownDependency, map[])

  // ---- accounting ----

  datatype BrokerOp =
    | OpRelease(e: u64, c: ResourceClass, units: u64, expected: u64)
    | OpReacquire(e: u64, c: ResourceClass, units: u64, contract: u64)
    | OpAdvance(step: u64)

  function ApplyBroker(b: Broker, op: BrokerOp): Broker {
    match op
    case OpRelease(e, c, units, expected) => b.Release(e, c, units, expected).0
    case OpReacquire(e, c, units, contract) => b.Reacquire(e, c, units, contract).0
    case OpAdvance(step) => b.Advanced(step)
  }

  function ApplyBrokers(b: Broker, ops: seq<BrokerOp>): Broker
    decreases |ops|
  {
    if ops == [] then b else ApplyBrokers(ApplyBroker(b, ops[0]), ops[1..])
  }

  /** Conservation: over any mix of successful and failed releases, reacquisitions and contract advances, each
      class keeps its total, with no wrap-around, as long as the totals fit 64 bits to begin with. */
  lemma {:induction false} AccountsConserved(b: Broker, ops: seq<BrokerOp>, c: ResourceClass)
    requires forall k: ResourceClass :: b.Total(k) <= MAX64
    ensures ApplyBrokers(b, ops).Total(c) == b.Total(c)
    decreases |ops|
  {
    if ops != [] {
      forall k: ResourceClass ensures ApplyBroker(b, ops[0]).Total(k) == b.Total(k) {
        OneOpConserves(b, ops[0], k);
      }
      AccountsConserved(ApplyBroker(b, ops[0]), ops[1..], c);
    }
  }

  lemma {:induction false} OneOpConserves(b: Broker, op: BrokerOp, c: ResourceClass)
    requires forall k: ResourceClass :: b.Total(k) <= MAX64
    ensures ApplyBroker(b, op).Total(c) == b.Total(c)
  {
    if op.OpRelease? || op.OpReacquire? { assert b.Total(op.c) <= MAX64; }
  }

  /** An account after units have come in, modulo 2^64. */
  function Credited(held: u64, units: u64): nat {
    (held + units) % 0x1_0000_0000_0000_0000
  }

  lemma {:induction false} ReleaseOutcome(b: Broker, e: u64, c: ResourceClass, units: u64, g: u64)
    ensures var (b', ok) := b.Release(e, c, units, g);
      && (ok <==> e == b.execution && g == b.contractGen && c in b.reserved && units <= b.reserved[c])
      && b'.(reserved := b.reserved, released := b.released) == b && (!ok ==> b' == b)
  {
    hide Held;
  }

  lemma {:induction false} ReleaseTakes(b: Broker, e: u64, c: ResourceClass, units: u64, g: u64, k: ResourceClass)
    ensures var (b', ok) := b.Release(e, c, units, g);
      Held(b'.reserved, k) == if ok && k == c then Held(b.reserved, c) - units else Held(b.reserved, k)
  {
    hide WrapAdd;
  }

  lemma {:induction false} ReleaseCredits(b: Broker, e: u64, c: ResourceClass, units: u64, g: u64, k: ResourceClass)
    ensures var (b', ok) := b.Release(e, c, units, g);
      Held(b'.released, k) == if ok && k == c then Credited(Held(b.released, c), units) else Held(b.released, k)
  {
  }

  /** A release succeeds exactly for the owner of the current contract within what is reserved, moves exactly those
      units, and otherwise changes nothing. */
  lemma {:induction false} ReleaseMoves(b: Broker, e: u64, c: ResourceClass, units: u64, g: u64, k: ResourceClass)
    ensures var (b', ok) := b.Release(e, c, units, g);
      && (ok <==> e == b.execution && g == b.contractGen && c in b.reserved && units <= b.reserved[c])
      && b'.(reserved := b.reserved, released := b.released) == b && (!ok ==> b' == b)
      && Held(b'.reserved, k) == (if ok && k == c then Held(b.reserved, c) - units else Held(b.reserved, k))
      && Held(b'.released, k) == (if ok && k == c then Credited(Held(b.released, c), units) else Held(b.released, k))
  {
    hide Broker.Release, Held, Credited;
    ReleaseOutcome(b, e, c, units, g);
    ReleaseTakes(b, e, c, units, g, k);
    ReleaseCredits(b, e, c, units, g, k);
  }

  lemma {:induction false} ReacquireOutcome(b: Broker, e: u64, c: ResourceClass, units: u64, g: u64)
    ensures var (b', ok) := b.Reacquire(e, c, units, g);
      && (ok <==> e == b.execution && units <= Held(b.released, c))
      && b'.contractGen == (if g != 0 then g else Credited(b.contractGen, 1))
      && b'.execution == b.execution && b'.contractId == b.contractId && b'.nextId == b.nextId
  {
    hide Held;
  }

  lemma {:induction false} ReacquireReserves(b: Broker, e: u64, c: ResourceClass, units: u64, g: u64, k: ResourceClass)
    ensures var (b', ok) := b.Reacquire(e, c, units, g);
      Held(b'.reserved, k) == if ok && k == c then Credited(Held(b.reserved, c), units) else Held(b.reserved, k)
  {
  }

  lemma {:induction false} ReacquireTakes(b: Broker, e: u64, c: ResourceClass, units: u64, g: u64, k: ResourceClass)
    ensures var (b', ok) := b.Reacquire(e, c, units, g);
      Held(b'.released, k) == if ok && k == c then Held(b.released, c) - units else Held(b.released, k)
  {
    hide WrapAdd;
  }

  /** A reacquisition succeeds exactly for the owner within what was released, moves exactly those units back, and sets
      the contract generation in every case. */
  lemma {:induction false} ReacquireMoves(b: Broker, e: u64, c: ResourceClass, units: u64, g: u64, k: ResourceClass)
    ensures var (b', ok) := b.Reacquire(e, c, units, g);
      && (ok <==> e == b.execution && units <= Held(b.released, c))
      && b'.contractGen == (if g != 0 then g else Credited(b.contractGen, 1))
      && b'.execution == b.execution && b'.contractId == b.contractId && b'.nextId == b.nextId
      && Held(b'.released, k) == (if ok && k == c then Held(b.released, c) - units else Held(b.released, k))
      && Held(b'.reserved, k) == (if ok && k == c then Credited(Held(b.reserved, c), units) else Held(b.reserved, k))
  {
    hide Broker.Reacquire, Held, Credited;
    ReacquireOutcome(b, e, c, units, g);
    ReacquireReserves(b, e, c, units, g, k);
    ReacquireTakes(b, e, c, units, g, k);
  }

  /** Reacquiring what was just released gives every account back. */
  lemma {:induction false} ReacquireUndoesRelease(b: Broker, c: ResourceClass, units: u64, k: ResourceClass)
    requires c in b.reserved && units <= b.reserved[c] && b.Total(c) <= MAX64
    ensures var released := b.Release(b.execution, c, units, b.contractGen);
      var back := released.0.Reacquire(b.execution, c, units, b.contractGen);
      && released.1 && back.1
      && Held(back.0.reserved, k) == Held(b.reserved, k) && Held(back.0.released, k) == Held(b.released, k)
  {
    var b' := b.Release(b.execution, c, units, b.contractGen).0;
    ReleaseMoves(b, b.execution, c, units, b.contractGen, k);
    ReleaseMoves(b, b.execution, c, units, b.contractGen, c);
    ReacquireMoves(b', b.execution, c, units, b.contractGen, k);
    hide Broker.Release, Broker.Reacquire;
  }

  function Demand(leases: seq<Lease>, c: ResourceClass): nat
    decreases |leases|
  {
    if leases == [] then 0
    else
      var n := |leases| - 1;
      Demand(leases[..n], c) + (if leases[n].resource == c then leases[n].units else 0)
  }

  /** A new contract meets the condition of conservation, reserves each class's lease total modulo 2^64, and so
      exactly when that total fits. */
  lemma {:induction false} ContractAccounts(b: Broker, e: u64, g: u64, leases: seq<Lease>, c: ResourceClass)
    ensures b.Contracted(e, g, leases).Total(c) <= MAX64
    ensures b.Contracted(e, g, leases).Total(c) == Demand(leases, c) % 0x1_0000_0000_0000_0000
    ensures b.Contracted(e, g, leases).Total(c) == Demand(leases, c) <==> Demand(leases, c) <= MAX64
    ensures Held(b.Contracted(e, g, leases).released, c) == 0
    ensures b.Contracted(e, g, leases).contractId == b.nextId && b.Contracted(e, g, leases).contractGen == g
    ensures b.Contracted(e, g, leases).execution == e
    ensures b.Contracted(e, g, leases).nextId == (b.nextId + 1) % 0x1_0000_0000_0000_0000
  {
    ReserveDemand(leases, c);
  }

  lemma {:induction false} ReserveDemand(leases: seq<Lease>, c: ResourceClass)
    ensures Held(Reserve(map[], leases), c) == Demand(leases, c) % 0x1_0000_0000_0000_0000
    decreases |leases|
  {
    if leases != [] {
      var n := |leases| - 1;
      ReserveDemand(leases[..n], c);
      WrapDemand(Demand(leases[..n], c), leases[n].units);
    }
  }

  lemma {:induction false} WrapDemand(d: nat, units: u64)
    ensures WrapAdd(d % 0x1_0000_0000_0000_0000, units) == (d + units) % 0x1_0000_0000_0000_0000
  {
    var m := 0x1_0000_0000_0000_0000;
    var q, r := d / m, d % m;
    assert d + units == m * q + (r + units);
  }

  // ---- the release loop ----

  /** Each lease is a reserved class with its units. */
  lemma {:induction false} LeasesAre(reserved: Accounts, k: nat, i: nat)
    requires k <= 12 && i < |LeasesFrom(reserved, k)|
    ensures var l := LeasesFrom(reserved, k)[i];
      l.resource in reserved && l.units == reserved[l.resource] && l.resource.Code() >= k
    decreases 12 - k
  {
    hide ResourceOf;
    CodeOfResource(k);
    if ResourceOf(k) in reserved {
      if i > 0 { LeasesAre(reserved, k + 1, i - 1); }
    } else {
      LeasesAre(reserved, k + 1, i);
    }
  }

  lemma {:induction false} LeasesOrdered(reserved: Accounts, k: nat, i: nat, j: nat)
    requires k <= 12 && i < j < |LeasesFrom(reserved, k)|
    ensures LeasesFrom(reserved, k)[i].resource != LeasesFrom(reserved, k)[j].resource
    decreases 12 - k
  {
    hide ResourceOf;
    CodeOfResource(k);
    if ResourceOf(k) in reserved {
      if i > 0 { LeasesOrdered(reserved, k + 1, i - 1, j - 1); } else { LeasesAre(reserved, k + 1, j - 1); }
    } else {
      LeasesOrdered(reserved, k + 1, i, j);
    }
  }

  lemma {:induction false} LeasesCover(reserved: Accounts, k: nat, c: ResourceClass) returns (i: nat)
    requires k <= 12 && c in reserved && c.Code() >= k
    ensures i < |LeasesFrom(reserved, k)| && LeasesFrom(reserved, k)[i].resource == c
    decreases 12 - k
  {
    hide ResourceOf;
    CodeOfResource(k);
    ResourceCodes(c);
    if c.Code() == k {
      i := 0;
    } else {
      i := LeasesCover(reserved, k + 1, c);
      if ResourceOf(k) in reserved { i := i + 1; }
    }
  }

  /** A prefix of the loop empties exactly the classes it has passed and leaves the rest. */
  lemma {:induction false} ReleasePrefix(b: Broker, n: nat)
    requires n <= |b.Leases()|
    ensures var b' := b.ReleaseEach(b.execution, b.Leases()[..n], b.contractGen);
      && b'.execution == b.execution && b'.contractGen == b.contractGen
      && b'.reserved.Keys == b.reserved.Keys
      && (forall i :: 0 <= i < n ==> Held(b'.reserved, b.Leases()[i].resource) == 0)
      && (forall i :: n <= i < |b.Leases()| ==>
            Held(b'.reserved, b.Leases()[i].resource) == Held(b.reserved, b.Leases()[i].resource))
    decreases n
  {
    var ls := b.Leases();
    if n > 0 {
      ReleasePrefix(b, n - 1);
      assert ls[..n][..n - 1] == ls[..n - 1];
      LeasesAre(b.reserved, 0, n - 1);
      forall i | 0 <= i < |ls| && i != n - 1 ensures ls[i].resource != ls[n - 1].resource {
        if i < n - 1 { LeasesOrdered(b.reserved, 0, i, n - 1); } else { LeasesOrdered(b.reserved, 0, n - 1, i); }
      }
      hide LeasesFrom;
    }
  }

  /** The loop moves everything: after it the owner's contract holds nothing of any class, and all of it is released. */
  lemma {:induction false} ReleaseLoopMoves(b: Broker, n: nat, c: ResourceClass)
    requires n <= |b.Leases()|
    ensures var ls, b' := b.Leases(), b.ReleaseEach(b.execution, b.Leases()[..n], b.contractGen);
      Held(b'.released, c) == if exists i :: 0 <= i < n && ls[i].resource == c
        then WrapAdd(Held(b.released, c), Held(b.reserved, c)) else Held(b.released, c)
    decreases n
  {
    hide LeasesFrom, Broker.Release, Held, WrapAdd;
    var ls := b.Leases();
    if n > 0 {
      var l, before := ls[n - 1], b.ReleaseEach(b.execution, ls[..n - 1], b.contractGen);
      ReleaseLoopMoves(b, n - 1, c);
      ReleaseOne(b, n);
      ReleaseCredits(before, b.execution, l.resource, l.units, b.contractGen, c);
      assert ls[..n][..n - 1] == ls[..n - 1];
    }
  }

  /** Each release of the loop succeeds, for a class not met before, of everything that is reserved. */
  lemma {:induction false} ReleaseOne(b: Broker, n: nat)
    requires 0 < n <= |b.Leases()|
    ensures var ls, l := b.Leases(), b.Leases()[n - 1];
      var before := b.ReleaseEach(b.execution, ls[..n - 1], b.contractGen);
      && (forall i :: 0 <= i < n - 1 ==> ls[i].resource != l.resource)
      && before.Release(b.execution, l.resource, l.units, b.contractGen).1
      && l.units == Held(b.reserved, l.resource)
      && (forall k, g :: WrapAdd(k, g) == Credited(k, g))
  {
    var ls := b.Leases();
    ReleasePrefix(b, n - 1);
    LeasesAre(b.reserved, 0, n - 1);
    forall i | 0 <= i < n - 1 ensures ls[i].resource != ls[n - 1].resource { LeasesOrdered(b.reserved, 0, i, n - 1); }
    hide LeasesFrom, Broker.ReleaseEach;
  }

  lemma {:induction false} ForeignRelease(b: Broker, e: u64, leases: seq<Lease>, gen: u64)
    requires e != b.execution
    ensures b.ReleaseEach(e, leases, gen) == b
    decreases |leases|
  {
    if leases != [] { ForeignRelease(b, e, leases[..|leases| - 1], gen); }
  }

  /** The loop leaves nothing reserved if and only if the contract belongs to the releasing execution, or
      nothing was reserved to begin with. */
  lemma {:induction false} ReleaseLoopEmpties(b: Broker, e: u64)
    ensures b.ReleaseEach(e, b.Leases(), b.contractGen).NothingReserved() <==> e == b.execution || b.NothingReserved()
  {
    var ls := b.Leases();
    if e != b.execution {
      ForeignRelease(b, e, ls, b.contractGen);
    } else {
      ReleasePrefix(b, |ls|);
      assert ls[..|ls|] == ls;
      var b' := b.ReleaseEach(e, ls, b.contractGen);
      forall c | c in b'.reserved ensures b'.reserved[c] == 0 {
        var i := LeasesCover(b.reserved, 0, c);
        assert Held(b'.reserved, ls[i].resource) == 0;
      }
    }
  }

  // ---- the adapters as the code keeps them ----

  class ReferenceAdapters {
    var authority: Authority
    var checkpoints: Checkpoints
    var broker: Broker
    var dependency: DependencyStatus
    var quiet: map<QuiescenceCategory, bool>

    ghost function View(): Environment
      reads this
    {
      Environment(authority, checkpoints, broker, dependency, quiet)
    }

    constructor ()
      ensures View() == FRESH_ENVIRONMENT
    {
      authority := FRESH_ENVIRONMENT.authority;
      checkpoints := FRESH_ENVIRONMENT.checkpoints;
      broker := FRESH_ENVIRONMENT.broker;
      dependency := UnknownDependency;
      quiet := map[];
    }

    method SetAuthoritative(e: u64, a: u64, eg: u64, ag: u64, epoch: u64, worker: u64)
      modifies this`authority
      ensures authority == Authority(true, e, a, eg, ag, epoch, worker)
    {
      authority := Authority(true, e, a, eg, ag, epoch, worker);
    }

    method FenceAttempt()
      modifies this`authority
      ensures authority == old(authority).Fenced()
    {
      authority := authority.(authoritative := false);
    }

    method GrantFresh(e: u64, a: u64, eg: u64, worker: u64) returns (authoritative: bool)
      modifies this`authority
      ensures authority == old(authority).Granted(e, a, eg, worker) && authoritative
    {
      authority := authority.(attemptGen := Next(authority.attemptGen));
      authority := authority.(authoritative := true, execution := e, attempt := a, executionGen := eg, boot := worker);
      authoritative := authority.authoritative;
    }

    method RequestCapture(expected: u64)
      modifies this`checkpoints
      ensures checkpoints == old(checkpoints).Captured(expected)
    {
      var count := WrapAdd(checkpoints.captureCount, 1);
      checkpoints := checkpoints.(captureCount := count);
      checkpoints := checkpoints.(lastCapture :=
        Some(CaptureResult(true, checkpoints.captureSucceeds, count, expected, count, expected)));
    }

    method SetContract(e: u64, g: u64, leases: seq<Lease>)
      modifies this`broker
      ensures broker == old(broker).Contracted(e, g, leases)
    {
      var id := broker.nextId;
      var reserved: Accounts := map[];
      var i := 0;
      assert leases[..0] == [];
      while i < |leases|
        invariant 0 <= i <= |leases|
        invariant reserved == Reserve(map[], leases[..i])
      {
        assert leases[..i + 1][..i] == leases[..i];
        var c := leases[i].resource;
        reserved := reserved[c := WrapAdd(Held(reserved, c), leases[i].units)];
        i := i + 1;
      }
      assert leases[..i] == leases;
      broker := Broker(id, g, e, reserved, map[], WrapAdd(id, 1));
    }

    method RequestRelease(e: u64, c: ResourceClass, units: u64, expected: u64) returns (success: bool)
      modifies this`broker
      ensures (broker, success) == old(broker).Release(e, c, units, expected)
    {
      if e != broker.execution || expected != broker.contractGen {
        return false;
      }
      if c !in broker.reserved || broker.reserved[c] < units {
        return false;
      }
      broker := broker.(reserved := broker.reserved[c := broker.reserved[c] - units]);
      broker := broker.(released := broker.released[c := WrapAdd(Held(broker.released, c), units)]);
      success := true;
    }

    method Reacquire(e: u64, c: ResourceClass, units: u64, contract: u64) returns (success: bool)
      modifies this`broker
      ensures (broker, success) == old(broker).Reacquire(e, c, units, contract)
    {
      broker := broker.(contractGen := if contract != 0 then contract else WrapAdd(broker.contractGen, 1));
      if e != broker.execution {
        return false;
      }
      ghost var before := broker.released;
      broker := broker.(released := broker.released[c := Held(broker.released, c)]);
      if broker.released[c] < units {
        return false;
      }
      broker := broker.(released := broker.released[c := broker.released[c] - units]);
      assert broker.released == before[c := Held(before, c) - units];
      broker := broker.(reserved := broker.reserved[c := WrapAdd(Held(broker.reserved, c), units)]);
      success := true;
    }

    method IsQuiescedAll() returns (all: bool)
      ensures all == View().AllQuiet()
    {
      var i := 0;
      while i < |CATEGORIES|
        invariant 0 <= i <= 10
        invariant forall j :: 0 <= j < i ==> CATEGORIES[j] in quiet && quiet[CATEGORIES[j]]
      {
        if CATEGORIES[i] !in quiet || !quiet[CATEGORIES[i]] {
          return false;
        }
        i := i + 1;
      }
      CategoriesComplete();
      forall c: QuiescenceCategory ensures c in quiet && quiet[c] {
        assert c in CATEGORIES;
      }
      all := true;
    }
  }

  /** The ten categories by name, each of which must have reported. */
  lemma QuietByName(env: Environment)
    ensures env.AllQuiet() <==>
      && Reports(env, CpuWorkerActivity) && Reports(env, AcceleratorKernels) && Reports(env, AsynchronousCopies)
      && Reports(env, QueuedDeviceOperations) && Reports(env, HostCallbacks) && Reports(env, StorageWrites)
      && Reports(env, NetworkActivity) && Reports(env, StatePublication) && Reports(env, CompletionPublication)
      && Reports(env, PendingResourceMutation)
  {
    if env.AllQuiet() {
      forall c: QuiescenceCategory ensures Reports(env, c) {
        assert c in env.quiet && env.quiet[c];
      }
    } else {
      var c: QuiescenceCategory :| c !in env.quiet || !env.quiet[c];
      assert !Reports(env, c);
      match c
      case CpuWorkerActivity | AcceleratorKernels | AsynchronousCopies | QueuedDeviceOperations | HostCallbacks =>
      case StorageWrites | NetworkActivity | StatePublication | CompletionPublication | PendingResourceMutation =>
    }
  }

  predicate Reports(env: Environment, c: QuiescenceCategory) {
    c in env.quiet && env.quiet[c]
  }

  /** Nothing is reserved when every account is empty. */
  lemma NothingReservedMeans(b: Broker)
    ensures b.NothingReserved() <==> forall c: ResourceClass :: Held(b.reserved, c) == 0
  {
    if forall c: ResourceClass :: Held(b.reserved, c) == 0 {
      forall c | c in b.reserved ensures b.reserved[c] == 0 {
        assert Held(b.reserved, c) == 0;
      }
    }
  }

  lemma CategoriesComplete()
    ensures forall c: QuiescenceCategory :: c in CATEGORIES
  {
    forall c: QuiescenceCategory ensures c in CATEGORIES {
      match c
      case CpuWorkerActivity => assert CATEGORIES[0] == c;
      case AcceleratorKernels => assert CATEGORIES[1] == c;
      case AsynchronousCopies => assert CATEGORIES[2] == c;
      case QueuedDeviceOperations => assert CATEGORIES[3] == c;
      case HostCallbacks => assert CATEGORIES[4] == c;
      case StorageWrites => assert CATEGORIES[5] == c;
      case NetworkActivity => assert CATEGORIES[6] == c;
      case StatePublication => assert CATEGORIES[7] == c;
      case CompletionPublication => assert CATEGORIES[8] == c;
      case PendingResourceMutation => assert CATEGORIES[9] == c;
    }
  }
}
