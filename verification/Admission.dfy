/** Who is admitted: the five answers to a preemption request (src/runtime.cpp:95-144), from the calls made so far. */
module Admission {
  import opened Words
  import opened Lifecycle
  import opened Adapters
  import opened Domain
  import opened Store
  import opened Protocol
  import opened Runs

  // ---- what the calls so far say ----

  /** The identity in force after the calls: of the last start or recovery, with the worker registered since. */
  function ScopeAfter(ops: seq<Op>): Scope
    decreases |ops|
  {
    if ops == [] then Scope(0, 0, 0, 0, 0, 0, 0, 0)
    else
      var before := ScopeAfter(ops[..|ops| - 1]);
      match ops[|ops| - 1]
      case OpStart(scope) => scope
      case OpReincarnate(worker, boot) => before.(workerId := worker, workerBoot := boot)
      case OpRestoreBytes(bytes) => if Decoded(bytes).ImageOk? then Decoded(bytes).state.scope else before
      case _ => before
  }

  /** The request that is open after k steps, by identifier and generation: the last one answered with acceptance, or
      recovered, with no start since. */
  ghost function OpenAfter(ws: seq<World>, ops: seq<Op>, k: nat): Option<(u64, u64)>
    requires |ws| == |ops| + 1 && k <= |ops|
  {
    if k == 0 then None
    else
      var before, op, reply := OpenAfter(ws, ops, k - 1), ops[k - 1], Step(ws[k - 1], ops[k - 1]).1;
      if op.OpStart? then None
      else if reply.Admitted? && reply.code == Accepted then Some((reply.requestId, reply.requestGen))
      else if op.OpRestoreBytes? && Decoded(op.bytes).ImageOk? && Decoded(op.bytes).state.requestId != 0
      then Some((Decoded(op.bytes).state.requestId, Decoded(op.bytes).state.requestGen))
      else before
  }

  function Pair(r: Option<Request>): Option<(u64, u64)> {
    match r
    case None => None
    case Some(q) => Some((q.id, q.generation))
  }

  lemma {:induction false} StepScope(w: World, op: Op)
    ensures var t, t' := w.rt.scope, Step(w, op).0.rt.scope;
      && (op.OpStart? ==> t' == op.scope)
      && (op.OpReincarnate? ==> t' == t.(workerId := op.workerId, workerBoot := op.boot))
      && (Recovers(op) ==> t' == Decoded(op.bytes).state.scope)
      && (!op.OpStart? && !op.OpReincarnate? && !Recovers(op) ==> t' == t)
    ensures Step(w, op).0.rt.epoch == w.rt.epoch
  {
    if Recovers(op) {
      RecoveryKeepsBoundary(w, op.bytes);
      hide Step, Decoded, InsertAll;
    } else if op.OpStart? || op.OpReincarnate? {
      hide Decoded, RestoreBytes;
    } else {
      StepFrame(w, op);
      hide Step, Decoded;
    }
  }

  /** The runtime's identity is the one the calls so far say, in every run. */
  lemma {:induction false} ScopeTracks(ws: seq<World>, ops: seq<Op>, k: nat)
    requires IsRun(ws, ops) && Fresh(ws[0]) && k < |ws|
    ensures ws[k].rt.scope == ScopeAfter(ops[..k]) && ws[k].rt.epoch == ws[0].rt.epoch
    decreases k
  {
    hide Step, Decoded;
    if k > 0 {
      ScopeTracks(ws, ops, k - 1);
      StepScope(ws[k - 1], ops[k - 1]);
      assert ops[..k][..k - 1] == ops[..k - 1] && ops[..k][k - 1] == ops[k - 1];
      assert ws[k] == Step(ws[k - 1], ops[k - 1]).0;
    }
  }

  // ---- the reply in one world ----

  /** The request names the execution and the attempt it is for, in their current generations, and this coordinator; a
      worker's request also its boot. */
  predicate UpToDate(r: Request, epoch: u64, t: Scope) {
    && r.epoch == epoch && r.executionId == t.executionId && r.executionGen == t.executionGen
    && r.attemptId == t.attemptId && r.attemptGen == t.attemptGen && (r.workerBoot == 0 || r.workerBoot == t.workerBoot)
  }

  lemma {:induction false} RequestReply(w: World, r: Request)
    ensures var reply, open := RequestPreemption(w, r).1, Pair(w.rt.active);
      var valid, current := r.id != 0 && r.generation != 0, UpToDate(r, w.rt.epoch, w.rt.scope);
      && (reply == Admitted(RejectedInvalid, 0, 0) <==> !valid)
      && (reply == Admitted(RejectedStale, 0, 0) <==> valid && !current)
      && (reply == Admitted(Accepted, r.id, r.generation) <==> valid && current && open == None)
      && (reply == Admitted(IdempotentDuplicate, r.id, r.generation) <==>
            valid && current && open == Some((r.id, r.generation)))
      && (reply == Admitted(ConflictingDuplicate, 0, 0) <==>
            valid && current && open.Some? && open != Some((r.id, r.generation)))
      && (reply.Admitted? && reply.code == Accepted <==> valid && current && open == None)
  {
    PreemptionPaths();
    hide Walk;
  }

  lemma {:induction false} OtherReply(w: World, op: Op)
    requires !op.OpRequest?
    ensures !Step(w, op).1.Admitted?
  {
    hide Walk, IsAllowed, Find, Insert, HasAuthority, Environment.AllQuiet, RestoreBytes;
    hide Broker.ReleaseEach, Broker.Leases, Broker.NothingReserved;
    if op.OpRestoreBytes? { RestoreReplies(w, op); }
  }

  lemma {:induction false} RestoreReplies(w: World, op: Op)
    requires op.OpRestoreBytes?
    ensures Step(w, op).1.Recovered?
  {
    hide Decoded, Restore;
  }

  lemma {:induction false} StepOpen(w: World, op: Op)
    ensures var open, reply := Pair(w.rt.active), Step(w, op).1;
      Pair(Step(w, op).0.rt.active) ==
        if op.OpStart? then None
        else if reply.Admitted? && reply.code == Accepted then Some((reply.requestId, reply.requestGen))
        else if op.OpRestoreBytes? && Decoded(op.bytes).ImageOk? && Decoded(op.bytes).state.requestId != 0
        then Some((Decoded(op.bytes).state.requestId, Decoded(op.bytes).state.requestGen))
        else open
  {
    if op.OpRequest? {
      RequestReply(w, op.request);
      StepRequests(w, op);
      RequestAccepted(w, op);
      hide Step, Decoded, Accepts;
    } else {
      OtherReply(w, op);
      if Recovers(op) {
        RecoveryKeepsBoundary(w, op.bytes);
        hide Step, Decoded, InsertAll;
      } else {
        StepRequests(w, op);
        hide Step, Decoded;
      }
    }
  }

  lemma {:induction false} RequestAccepted(w: World, op: Op)
    requires op.OpRequest?
    ensures Step(w, op) == RequestPreemption(w, op.request)
    ensures var reply, r := RequestPreemption(w, op.request).1, op.request;
      && (Accepts(w, op) <==> reply.Admitted? && reply.code == Accepted)
      && (Accepts(w, op) ==> reply == Admitted(Accepted, r.id, r.generation))
  {
    RequestReply(w, op.request);
    hide RequestPreemption, RestoreBytes;
  }

  /** The open request is the one the replies so far say, in every run. */
  lemma {:induction false} OpenTracks(ws: seq<World>, ops: seq<Op>, k: nat)
    requires IsRun(ws, ops) && Fresh(ws[0]) && k < |ws|
    ensures Pair(ws[k].rt.active) == OpenAfter(ws, ops, k)
    decreases k
  {
    hide Step, Decoded, Pair;
    if k > 0 {
      OpenTracks(ws, ops, k - 1);
      StepOpen(ws[k - 1], ops[k - 1]);
      assert ws[k] == Step(ws[k - 1], ops[k - 1]).0;
    } else {
      FreshPair(ws[0]);
    }
  }

  lemma FreshPair(w: World)
    requires Fresh(w)
    ensures Pair(w.rt.active) == None
  {
  }

  // ---- the reply in a run ----

  /** Admission in every run, from the calls and replies before it alone. A request is rejected as invalid without an
      identifier or a generation; as stale unless it agrees with the last start in everything that identifies an
      execution and an attempt, with the coordinator's epoch, and with the boot registered last if it names one; it is a
      duplicate of the open request or conflicts with it; and it is accepted in all other cases. */
  lemma {:induction false} AdmissionTells(ws: seq<World>, ops: seq<Op>, k: nat)
    requires IsRun(ws, ops) && Fresh(ws[0]) && k < |ops| && ops[k].OpRequest?
    ensures var r, reply, open := ops[k].request, Step(ws[k], ops[k]).1, OpenAfter(ws, ops, k);
      var valid, current := r.id != 0 && r.generation != 0, UpToDate(r, ws[0].rt.epoch, ScopeAfter(ops[..k]));
      && (reply == Admitted(RejectedInvalid, 0, 0) <==> !valid)
      && (reply == Admitted(RejectedStale, 0, 0) <==> valid && !current)
      && (reply == Admitted(Accepted, r.id, r.generation) <==> valid && current && open == None)
      && (reply == Admitted(IdempotentDuplicate, r.id, r.generation) <==>
            valid && current && open == Some((r.id, r.generation)))
      && (reply == Admitted(ConflictingDuplicate, 0, 0) <==>
            valid && current && open.Some? && open != Some((r.id, r.generation)))
  {
    hide Step, UpToDate, ScopeAfter, OpenAfter, RequestPreemption;
    ScopeTracks(ws, ops, k);
    OpenTracks(ws, ops, k);
    RequestReply(ws[k], ops[k].request);
    RequestAccepted(ws[k], ops[k]);
  }
}
