/**
 * What each transition answers and what it leaves, told from the row, the command and the clock alone:
 * when it throws, when it is applied, and then the whole new row.
 */
module ProposalAnswers {
  import opened Common
  import opened ActionProposals
  import opened ProposalRows
  import opened AgentDb

  // ----- What is asked of the arguments -----

  /** An integer a double holds exactly: at most 2^53 - 1 either way. */
  predicate IsExact(n: int) {
    -9007199254740991 <= n <= 9007199254740991
  }

  lemma ExactIsSafe(n: int)
    ensures SafeInteger(n) <==> IsExact(n)
  {
  }

  predicate IsExactLease(leaseMs: int, now: int) {
    IsExact(now) && IsExact(leaseMs) && leaseMs >= 1 && IsExact(now + leaseMs)
  }

  predicate ProperDecision(command: DecisionCommand, now: int) {
    && IsExact(now)
    && (command.decision == Approved || command.decision == Rejected || command.decision == Expired)
    && |command.actorRef| > 0 && |command.via| > 0
  }

  predicate ProperFence(fence: Fence, now: int) {
    IsExact(now) && |fence.token| > 0 && IsExact(fence.generation) && fence.generation > 0
  }

  /** A settlement says how it ended: a result only with success, an error always and only with failure. */
  predicate Unambiguous(command: SettleCommand) {
    || (command.status == Succeeded && command.error.None?)
    || (command.status == Failed && command.error.Some? && command.result.None?)
  }

  // ----- Where a row stands -----

  predicate TimeIsUp(row: Proposal, now: int) {
    match row.creation.expiresAt
    case None => false
    case Some(end) => end <= now
  }

  /** Approved work nobody holds, or whose holder's time is up. */
  predicate IsFree(row: Proposal, now: int) {
    row.decision == Approved
    && match row.execution
       case None => false
       case Some(work) =>
         match work.status
         case Queued => true
         case Executing => work.lease.Some? && work.lease.value.expiresAt <= now
         case _ => false
  }

  /** Someone works on it under exactly this token and generation. */
  predicate IsUnder(row: Proposal, fence: Fence) {
    row.decision == Approved
    && match row.execution
       case None => false
       case Some(work) =>
         && work.status == Executing && work.generation == fence.generation
         && work.lease.Some?
         && work.lease.value.token == fence.token && work.lease.value.generation == fence.generation
  }

  /** And still has time. */
  predicate HoldsAt(row: Proposal, fence: Fence, now: int) {
    IsUnder(row, fence) && now < row.execution.value.lease.value.expiresAt
  }

  /** Its outcome waits, held by nobody, or by someone whose time is up. */
  predicate IsWaiting(row: Proposal, now: int) {
    row.outcome.Some?
    && match row.delivery
       case None => false
       case Some(delivery) =>
         && delivery.status == Waiting
         && match delivery.lease
            case None => true
            case Some(lease) => lease.expiresAt <= now
  }

  // ----- Creation -----

  /** What every text of a creation has to be: not empty, and short enough where it is an id. */
  predicate ProperTexts(input: Creation) {
    && 0 < |input.id| <= 255 && 0 < |input.scope.actorRef| <= 255 && 0 < |input.scope.threadId| <= 255
    && (input.scope.tenantRef.Some? ==> |input.scope.tenantRef.value| <= 255)
    && |input.originRunId| > 0 && |input.originMessageId| > 0 && |input.originToolCallId| > 0
    && |input.toolName| > 0 && |input.approver| > 0 && |input.idempotencyKey| > 0
    && |input.title| > 0 && |input.verb| > 0
    && (input.replacementKey.Some? ==> 0 < |input.replacementKey.value| <= 255)
  }

  /** A creation throws exactly on an improper text or expiry, or an improper clock. */
  lemma CreationThrows(input: Creation, now: int)
    ensures CreationError(input).None?
            <==> ProperTexts(input) && (input.expiresAt.Some? ==> IsExact(input.expiresAt.value))
    ensures Initial(input, now).Success? <==> CreationError(input).None? && IsExact(now)
  {
  }

  /** A text that must not be empty is. */
  predicate LacksId(input: Creation) {
    || |input.id| == 0 || |input.scope.actorRef| == 0 || |input.scope.threadId| == 0
    || |input.originRunId| == 0 || |input.originMessageId| == 0 || |input.originToolCallId| == 0
    || |input.toolName| == 0 || |input.approver| == 0 || |input.idempotencyKey| == 0
  }

  predicate HasLongId(input: Creation) {
    || |input.id| > 255 || |input.scope.actorRef| > 255 || |input.scope.threadId| > 255
    || (match input.scope.tenantRef case None => false case Some(tenant) => |tenant| > 255)
  }

  /** Which error a creation throws, in the order its checks are made. */
  lemma CreationThrowsWhich(input: Creation, now: int)
    requires Initial(input, now).Failure?
    ensures var error := Initial(input, now).error;
            if LacksId(input) then error == TypeError
            else if HasLongId(input) then error == RangeError
            else if input.replacementKey.Some? && |input.replacementKey.value| == 0 then error == TypeError
            else if input.replacementKey.Some? && |input.replacementKey.value| > 255 then error == RangeError
            else if input.expiresAt.Some? && !IsExact(input.expiresAt.value) then error == RangeError
            else if |input.title| == 0 || |input.verb| == 0 then error == TypeError
            else error == RangeError
    ensures CreationError(input).Some? ==> Initial(input, now) == Failure(CreationError(input).value)
  {
  }

  /** A row begins pending, with nothing decided, done or delivered. */
  lemma CreationLeaves(input: Creation, now: int)
    requires Initial(input, now).Success?
    ensures var row := Initial(input, now).value;
            && row.creation == input && row.createdAt == now && row.updatedAt == now
            && row.decision == Pending && row.decisionAudit == None && row.execution == None
            && row.supersededBy == None && row.outcome == None && row.delivery == None
  {
  }

  // ----- Deciding -----

  /** Improper arguments throw before anything is looked at. */
  lemma ImproperDecisionThrows(row: Proposal, command: DecisionCommand, now: int)
    ensures Decide(row, command, now).Failure? <==> !ProperDecision(command, now)
    ensures !ProperDecision(command, now) ==>
              Decide(row, command, now).error == if IsExact(now) then TypeError else RangeError
  {
  }

  /**
   * A person's decision is applied to a pending proposal whose time is not up, an expiry to one whose
   * time is; a second decision is told what the first one was.
   */
  lemma DecisionAnswers(row: Proposal, command: DecisionCommand, now: int)
    requires ProperDecision(command, now)
    ensures var r := Decide(row, command, now);
            && r.Success?
            && r.value.status
               == (if row.decision == Pending then
                     if command.decision == Expired then (if TimeIsUp(row, now) then Applied else Conflict)
                     else if TimeIsUp(row, now) then Lapsed else Applied
                   else if row.decision == command.decision then Unchanged
                   else if row.decision == Expired then Lapsed
                   else Conflict)
            && (row.decision != Pending || (command.decision == Expired && !TimeIsUp(row, now)) ==>
                  r.value.proposal == row)
  {
  }

  /** The row after an outcome is attached to it: nothing else of it changes. */
  predicate IsConcluded(row: Proposal, next: Proposal) {
    && next.outcome.Some?
    && next.delivery == Some(Delivery(Waiting, 0, None, None))
    && next.(outcome := None, delivery := None) == row.(outcome := None, delivery := None)
  }

  /**
   * An approval queues the work and has no outcome yet; a refusal or an expiry concludes the proposal
   * there and then, an expiry always in the system's name, whoever asked.
   */
  lemma DecisionConcludes(row: Proposal, command: DecisionCommand, now: int)
    requires Consistent(row) && ProperDecision(command, now) && row.decision == Pending
    ensures var next := Decide(row, command, now).value.proposal;
            var named := Audit(command.actorRef, command.via, now, command.reason, command.remember, None);
            var system := Audit(Ascii("system"), Ascii("expiry"), now, None, None, None);
            if TimeIsUp(row, now) then
              IsConcluded(row.(decision := Expired, decisionAudit := Some(system), updatedAt := now), next)
            else if command.decision == Approved then
              next == row.(decision := Approved, decisionAudit := Some(named), updatedAt := now,
                           execution := Some(Execution(Queued, 0, None, None, None)))
            else if command.decision == Rejected then
              IsConcluded(row.(decision := Rejected, decisionAudit := Some(named), updatedAt := now), next)
            else next == row
  {
  }

  // ----- Working -----

  /** A claim throws exactly on an improper lease, worker or token. */
  lemma ClaimThrows(row: Proposal, command: ClaimCommand, now: int, token: Text)
    ensures Claim(row, command, now, token).Failure?
            <==> !(IsExactLease(command.leaseMs, now) && |command.workerId| > 0 && |token| > 0)
    ensures Claim(row, command, now, token).Failure? ==>
              Claim(row, command, now, token).error
              == if IsExactLease(command.leaseMs, now) then TypeError else RangeError
  {
  }

  /**
   * A claim is applied exactly to approved work nobody holds, which it takes under the next generation
   * and leaves to nobody else until the lease runs out.
   */
  lemma ClaimAnswers(row: Proposal, command: ClaimCommand, now: int, token: Text)
    requires IsExactLease(command.leaseMs, now) && |command.workerId| > 0 && |token| > 0
    ensures var r := Claim(row, command, now, token);
            && r.Success?
            && r.value.status == (if IsFree(row, now) then Applied else Conflict)
            && (!IsFree(row, now) ==> r.value.proposal == row)
            && (IsFree(row, now) ==>
                  var next, generation := r.value.proposal, row.execution.value.generation + 1;
                  && next == row.(execution := next.execution, updatedAt := now)
                  && next.execution
                     == Some(Execution(Executing, generation,
                                       Some(Lease(token, generation, command.workerId, now + command.leaseMs)),
                                       None, None))
                  && HoldsAt(next, Fence(token, generation), now)
                  && (forall later :: IsFree(next, later) <==> later >= now + command.leaseMs))
  {
  }

  /** A renewal throws exactly on an improper lease or fence. */
  lemma ExtendThrows(row: Proposal, fence: Fence, leaseMs: int, now: int)
    ensures Extend(row, fence, leaseMs, now).Failure?
            <==> !(IsExactLease(leaseMs, now) && ProperFence(fence, now))
    ensures Extend(row, fence, leaseMs, now).Failure? ==>
              Extend(row, fence, leaseMs, now).error
              == if IsExactLease(leaseMs, now) && |fence.token| == 0 then TypeError else RangeError
  {
  }

  /** What anyone but a holder with time left is told. */
  function Refused(row: Proposal, fence: Fence): Status {
    if IsUnder(row, fence) then Lapsed else Conflict
  }

  /** A renewal is applied exactly to the holder with time left, and never shortens the lease. */
  lemma ExtendAnswers(row: Proposal, fence: Fence, leaseMs: int, now: int)
    requires ProperFence(fence, now) && IsExactLease(leaseMs, now)
    ensures var r := Extend(row, fence, leaseMs, now);
            && r.Success?
            && r.value.status == (if HoldsAt(row, fence, now) then Applied else Refused(row, fence))
            && (!HoldsAt(row, fence, now) ==> r.value.proposal == row)
            && (HoldsAt(row, fence, now) ==>
                  var next := r.value.proposal;
                  var before := row.execution.value.lease.value;
                  && IsUnder(next, fence)
                  && var after := next.execution.value.lease.value;
                     && next == row.(execution := Some(row.execution.value.(lease := Some(after))),
                                     updatedAt := now)
                     && after == before.(expiresAt := after.expiresAt)
                     && after.expiresAt >= before.expiresAt && after.expiresAt >= now + leaseMs
                     && (after.expiresAt == before.expiresAt || after.expiresAt == now + leaseMs))
  {
  }

  /** A settlement throws exactly on an ambiguous report or an improper fence. */
  lemma SettleThrows(row: Proposal, command: SettleCommand, now: int)
    ensures Settle(row, command, now).Failure?
            <==> !(Unambiguous(command) && ProperFence(command.fence, now))
    ensures Settle(row, command, now).Failure? ==>
              Settle(row, command, now).error
              == if IsExact(now) && (!Unambiguous(command) || |command.fence.token| == 0) then TypeError
                 else RangeError
  {
  }

  /** A settlement is applied exactly for the holder with time left, once, and leaves an outcome. */
  lemma SettleAnswers(row: Proposal, command: SettleCommand, now: int)
    requires ProperFence(command.fence, now) && Unambiguous(command)
    requires HoldsAt(row, command.fence, now) ==> row.outcome.None?
    ensures var r := Settle(row, command, now);
            && r.Success?
            && r.value.status
               == (if HoldsAt(row, command.fence, now) then Applied else Refused(row, command.fence))
            && (!HoldsAt(row, command.fence, now) ==> r.value.proposal == row)
            && (HoldsAt(row, command.fence, now) ==>
                  var next := r.value.proposal;
                  var work := Execution(command.status, row.execution.value.generation, None,
                                        command.result, command.error);
                  && IsConcluded(row.(execution := Some(work), updatedAt := now), next)
                  && (forall fence, later :: !HoldsAt(next, fence, later)))
  {
  }

  // ----- Superseding -----

  /** The two are different proposals of one scope, tool and key, the key not empty. */
  predicate IsSameSlot(row: Proposal, replacement: Proposal) {
    && row.creation.id != replacement.creation.id
    && row.creation.scope == replacement.creation.scope
    && row.creation.toolName == replacement.creation.toolName
    && row.creation.replacementKey == replacement.creation.replacementKey
    && row.creation.replacementKey.Some? && |row.creation.replacementKey.value| > 0
  }

  predicate IsProperSupersession(command: SupersedeCommand, now: int) {
    IsExact(now) && |command.replacementId| > 0 && |command.actorRef| > 0 && |command.via| > 0
  }

  lemma SupersessionThrows(row: Proposal, replacement: Proposal, command: SupersedeCommand, now: int)
    ensures ActionProposals.Supersede(row, replacement, command, now).Failure?
            <==> !IsProperSupersession(command, now)
    ensures !IsProperSupersession(command, now) ==>
              ActionProposals.Supersede(row, replacement, command, now).error
              == if IsExact(now) then TypeError else RangeError
    ensures ProperSupersession(command, now) <==> IsProperSupersession(command, now)
  {
  }

  /** A supersession is applied exactly to a pending, unexpired row the named replacement replaces. */
  lemma SupersessionAnswers(row: Proposal, replacement: Proposal, command: SupersedeCommand, now: int)
    requires Consistent(row) && IsProperSupersession(command, now)
    ensures var r := ActionProposals.Supersede(row, replacement, command, now);
            var named := replacement.creation.id == command.replacementId && IsSameSlot(row, replacement);
            var audit := Audit(command.actorRef, command.via, now, None, None, Some(replacement.creation.id));
            var system := Audit(Ascii("system"), Ascii("expiry"), now, None, None, None);
            && r.Success?
            && r.value.status
               == (if !named then Conflict
                   else if row.decision == Pending then (if TimeIsUp(row, now) then Lapsed else Applied)
                   else if row.decision == Superseded && row.supersededBy == Some(replacement.creation.id)
                   then Unchanged
                   else Conflict)
            && (r.value.status == Applied ==>
                  IsConcluded(row.(decision := Superseded, supersededBy := Some(replacement.creation.id),
                                   decisionAudit := Some(audit), updatedAt := now),
                              r.value.proposal))
            && (r.value.status == Lapsed ==>
                  IsConcluded(row.(decision := Expired, decisionAudit := Some(system), updatedAt := now),
                              r.value.proposal))
            && (r.value.status in {Conflict, Unchanged} ==> r.value.proposal == row)
  {
  }

  // ----- What an outcome says -----

  /** What the settlement reported, if that is what concluded the row. */
  function Reported(op: RowOp): (Option<Text>, Option<Text>) {
    match op
    case OpSettle(command) => (command.ui, command.text)
    case _ => (None, None)
  }

  /**
   * Whatever concludes a row, its outcome carries the proposal's own identity and origin, how it was
   * decided and how the work ended, and why it failed or was refused.
   */
  lemma OutcomeSays(row: Proposal, op: RowOp, now: int)
    requires Consistent(row) && row.outcome.None? && Moved(row, Apply(op, now)).outcome.Some?
    ensures var next := Moved(row, Apply(op, now));
            var outcome := next.outcome.value;
            var settled := next.execution.Some? && next.execution.value.status in {Succeeded, Failed};
            && outcome.id == row.creation.id + Ascii(":outcome:1") && outcome.proposalId == row.creation.id
            && outcome.scope == row.creation.scope && outcome.originRunId == row.creation.originRunId
            && outcome.originToolCallId == row.creation.originToolCallId
            && outcome.toolName == row.creation.toolName
            && outcome.decision == next.decision && outcome.createdAt == now
            && outcome.executionStatus == (if settled then Some(next.execution.value.status) else None)
            && outcome.result == (if settled then next.execution.value.result else None)
            && outcome.error
               == (if settled && next.execution.value.status == Failed then next.execution.value.error
                   else next.decisionAudit.value.reason)
            && outcome.ui == (if Reported(op).0.Some? then Reported(op).0.value else Ascii("[]"))
            && outcome.text == Reported(op).1
  {
  }

  // ----- Delivering -----

  /** Handing an outcome out throws exactly on an improper lease or worker. */
  lemma OutcomeClaimThrows(row: Proposal, command: ClaimCommand, now: int, token: Text)
    ensures ClaimOutcome(row, command, now, token).Failure?
            <==> !(IsExactLease(command.leaseMs, now) && |command.workerId| > 0)
    ensures WorkerClaimError(command, now)
            == if !IsExact(now) then Some(RangeError)
               else if |command.workerId| == 0 then Some(TypeError)
               else if !IsExactLease(command.leaseMs, now) then Some(RangeError)
               else None
    ensures ClaimOutcome(row, command, now, token).Failure? ==>
              Some(ClaimOutcome(row, command, now, token).error) == WorkerClaimError(command, now)
  {
  }

  /** An outcome is handed out exactly while it waits and nobody holds it, under the next generation. */
  lemma OutcomeClaimAnswers(row: Proposal, command: ClaimCommand, now: int, token: Text)
    requires IsExactLease(command.leaseMs, now) && |command.workerId| > 0
    ensures var r := ClaimOutcome(row, command, now, token);
            && r.Success?
            && (r.value.Some? <==> IsWaiting(row, now))
            && (r.value.Some? ==>
                  var next, generation := r.value.value, row.delivery.value.generation + 1;
                  var lease := Lease(token, generation, command.workerId, now + command.leaseMs);
                  && next == row.(delivery := Some(row.delivery.value.(generation := generation,
                                                                       lease := Some(lease))))
                  && (forall later :: IsWaiting(next, later) <==> later >= now + command.leaseMs))
  {
  }

  /** The outcome is leased under exactly this id, token and generation, and there is time left. */
  predicate DeliversAt(row: Proposal, lease: OutcomeLease, now: int) {
    && row.outcome.Some? && row.outcome.value.id == lease.outcomeId
    && match row.delivery
       case None => false
       case Some(delivery) =>
         && delivery.status == Waiting && delivery.generation == lease.fence.generation
         && delivery.lease.Some?
         && delivery.lease.value.token == lease.fence.token
         && delivery.lease.value.generation == lease.fence.generation
         && now < delivery.lease.value.expiresAt
  }

  lemma FenceAnswers(row: Proposal, lease: OutcomeLease, now: int)
    ensures FenceValid(row, lease, now).Failure?
            <==> !(ProperFence(lease.fence, now) && |lease.outcomeId| > 0)
    ensures FenceValid(row, lease, now).Failure? ==>
              FenceValid(row, lease, now).error == if IsExact(now) then TypeError else RangeError
    ensures FenceValid(row, lease, now).Success? ==>
              (FenceValid(row, lease, now).value <==> DeliversAt(row, lease, now))
  {
  }

  // ----- Scopes -----

  /** Nobody sees or moves a proposal of another scope, whatever id they ask for. */
  lemma OtherScopesUntouched(db: Db, scope: Scope, id: Text, op: ClientOp, now: int, other: Text)
    requires other in db.rows && db.rows[other].Scope() != scope
    ensures var (next, answer) := Mutate(db, scope, id, op, now);
            && other in next.rows && next.rows[other] == db.rows[other]
            && (id == other ==> next == db && answer == Success(Mutated(NotFound, None)))
  {
  }

  /** A replacing create supersedes only proposals of its own scope. */
  lemma ReplacingStaysInScope(db: Db, input: Creation, now: int, at: Text -> int, other: Text)
    requires other in db.rows && db.rows[other].Scope() != input.scope && other != input.id
    ensures var next := CreateReplacing(db, input, now, at).0;
            other in next.rows && next.rows[other] == db.rows[other]
  {
  }
}
