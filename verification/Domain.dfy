/** Records shared by the runtime and its durable image (include/preemption_fabric/domains/safepoint.hpp,
    include/preemption_fabric/persistence/state.hpp). Identifiers and generations are 64-bit; zero is invalid. */
module Domain {
  import opened Words
  import opened Lifecycle
  import opened Adapters

  datatype SafePointState =
    SpUnset | SpDeclared | SpReached | SpValidating | SpValid | SpInvalid | SpSuperseded | SpStale | SpUnknown
  {
    function Code(): (n: nat)
      ensures n <= 8
    {
      match this
      case SpUnset => 0
      case SpDeclared => 1
      case SpReached => 2
      case SpValidating => 3
      case SpValid => 4
      case SpInvalid => 5
      case SpSuperseded => 6
      case SpStale => 7
      case SpUnknown => 8
    }
  }

  function SafePointStateOf(n: nat): SafePointState
    requires n <= 8
  {
    match n
    case 0 => SpUnset
    case 1 => SpDeclared
    case 2 => SpReached
    case 3 => SpValidating
    case 4 => SpValid
    case 5 => SpInvalid
    case 6 => SpSuperseded
    case 7 => SpStale
    case _ => SpUnknown
  }

  datatype SafePoint = SafePoint(
    id: u64, generation: u64, executionId: u64, attemptId: u64, workerId: u64, workerBoot: u64,
    position: u64, captureRequired: bool, checkpointRequired: bool, state: SafePointState, order: u64)

  datatype Receipt = Receipt(
    resource: ResourceClass, units: u64, contractId: u64, contractGen: u64, releaseGen: u64, workerBoot: u64)

  datatype PastRequest = SupersededRequest(requestId: u64, generation: u64, finalState: LifecycleState)

  /** Who is running what, where. */
  datatype Scope = Scope(
    workloadId: u64, workloadGen: u64, executionId: u64, executionGen: u64, attemptId: u64, attemptGen: u64,
    workerId: u64, workerBoot: u64)

  /** The boundary flags and the generations they were established at. */
  datatype Boundary = Boundary(
    quiesced: bool, quiescenceGen: u64, stateDurable: bool, captureGen: u64, checkpointRef: u64,
    checkpointGen: u64, resourcesReleased: bool, releaseGen: u64)

  /** The durable image of a runtime. */
  datatype PersistentState = PersistentState(
    formatVersion: u32, epoch: u64, policy: u64, scope: Scope, fencedBoot: u64, lifecycle: LifecycleState,
    requestId: u64, requestGen: u64, boundary: Boundary, preempted: bool, resumeGen: u64,
    durableProgress: u64, progressGen: u64, safePoints: seq<SafePoint>, receipts: seq<Receipt>,
    history: seq<PastRequest>)
}
