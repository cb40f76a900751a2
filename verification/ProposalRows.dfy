/**
 * What every move of a row keeps: the row stays consistent, what was decided or delivered stays so,
 * and seen as two pieces of leased work (its execution, its outcome's delivery) the row moves only
 * as `LeaseProtocol` allows.
 */
module ProposalRows {
  import opened Common
  import opened ActionProposals
  import opened LeaseProtocol

  /** Everything that can change a stored row. */
  datatype Move =
    | Apply(op: RowOp, now: int)
    | Dispatch(claim: ClaimCommand, now: int, token: Text)
    | Deliver(lease: OutcomeLease, now: int, messageId: Text)
    | Drop(lease: OutcomeLease, now: int)

  /** The row a move leaves: the same row when it throws or is refused. */
  function Moved(row: Proposal, move: Move): Proposal {
    match move
    case Apply(op, now) =>
      var r := Transition(row, op, now);
      if r.Success? then r.value.proposal else row
    case Dispatch(claim, now, token) =>
      var r := ClaimOutcome(row, claim, now, token);
      if r.Success? && r.value.Some? then r.value.value else row
    case Deliver(lease, now, messageId) =>
      if FenceValid(row, lease, now) == Success(true) && row.delivery.Some?
      then Admit(row, messageId) else row
    case Drop(lease, now) =>
      if FenceValid(row, lease, now) == Success(true) && row.delivery.Some?
      then Discard(row) else row
  }

  // ----- Consistency -----

  predicate IsSettled(row: Proposal) {
    row.execution.Some? && row.execution.value.status in {Succeeded, Failed}
  }

  /** Nothing more will happen to the action: refused, lapsed, replaced, or run to its end. */
  predicate Concluded(row: Proposal) {
    row.decision in {Rejected, Expired, Superseded} || IsSettled(row)
  }

  predicate ConsistentExecution(work: Execution) {
    && work.generation >= 0
    && (work.status == Queued <==> work.generation == 0)
    && (work.status == Executing <==> work.lease.Some?)
    && (work.lease.Some? ==> work.lease.value.generation == work.generation)
    && (work.status in {Queued, Executing} ==> work.result.None? && work.error.None?)
    && (work.status == Succeeded ==> work.error.None?)
    && (work.status == Failed ==> work.error.Some? && work.result.None?)
  }

  predicate ConsistentOutcome(row: Proposal, outcome: Outcome) {
    && outcome.id == OutcomeId(row.Id())
    && outcome.proposalId == row.Id()
    && outcome.scope == row.Scope()
    && outcome.originToolCallId == row.creation.originToolCallId
    && outcome.decision == row.decision
    && outcome.executionStatus
       == (if IsSettled(row) then Some(row.execution.value.status) else None)
    && outcome.result == (if row.execution.Some? then row.execution.value.result else None)
  }

  predicate ConsistentDelivery(delivery: Delivery) {
    && delivery.generation >= 0
    && (delivery.lease.Some? ==>
          delivery.status == Waiting && delivery.lease.value.generation == delivery.generation)
    && (delivery.status == Waiting && delivery.lease.None? ==> delivery.generation == 0)
    && (delivery.generation == 0 ==> delivery.lease.None?)
    && (delivery.messageId.Some? <==> delivery.status == Admitted)
  }

  predicate Consistent(row: Proposal) {
    && (row.execution.Some? <==> row.decision == Approved)
    && (row.decisionAudit.Some? <==> row.decision != Pending)
    && (row.supersededBy.Some? <==> row.decision == Superseded)
    && (row.outcome.Some? <==> Concluded(row))
    && (row.delivery.Some? <==> Concluded(row))
    && (row.execution.Some? ==> ConsistentExecution(row.execution.value))
    && (row.outcome.Some? ==> ConsistentOutcome(row, row.outcome.value))
    && (row.delivery.Some? ==> ConsistentDelivery(row.delivery.value))
  }

  lemma InitialConsistent(input: Creation, now: int)
    ensures var r := Initial(input, now); r.Success? ==>
              && Consistent(r.value) && r.value.creation == input && r.value.createdAt == now
              && r.value.decision == Pending
              && ExecutionWork(r.value) == Absent && DeliveryWork(r.value) == Absent
  {
  }

  /** Every move keeps a row consistent. */
  lemma MoveKeepsConsistent(row: Proposal, move: Move)
    requires Consistent(row)
    ensures Consistent(Moved(row, move))
  {
    if move.Apply? {
      TransitionKeepsConsistent(row, move.op, move.now);
    }
  }

  lemma TransitionKeepsConsistent(row: Proposal, op: RowOp, now: int)
    requires Consistent(row)
    ensures Consistent(Moved(row, Apply(op, now)))
  {
    match op
    case OpDecide(_) =>
    case OpClaim(_, _) =>
    case OpExtend(_, _) =>
    case OpSettle(_) =>
    case OpSupersede(_, _) =>
  }

  /** What no move changes: what the creator wrote, and when. */
  lemma MoveKeepsIdentity(row: Proposal, move: Move)
    ensures Moved(row, move).creation == row.creation
    ensures Moved(row, move).createdAt == row.createdAt
  {
  }

  /** A decision once made is never revised, and neither is a settlement or the outcome it left. */
  lemma MoveKeepsConclusions(row: Proposal, move: Move)
    requires Consistent(row)
    ensures row.decision != Pending ==>
              && Moved(row, move).decision == row.decision
              && Moved(row, move).decisionAudit == row.decisionAudit
              && Moved(row, move).supersededBy == row.supersededBy
    ensures IsSettled(row) ==> Moved(row, move).execution == row.execution
    ensures row.outcome.Some? ==> Moved(row, move).outcome == row.outcome
    ensures row.delivery.Some? && row.delivery.value.status != Waiting ==>
              Moved(row, move).delivery == row.delivery
  {
    if move.Apply? {
      match move.op
      case OpDecide(_) =>
      case OpClaim(_, _) =>
      case OpExtend(_, _) =>
      case OpSettle(_) =>
      case OpSupersede(_, _) =>
    }
  }

  // ----- The row as two pieces of leased work -----

  function ExecutionWork(row: Proposal): Work {
    if row.execution.None? then Absent
    else if IsSettled(row) then Finished(row.execution.value.generation)
    else Open(row.execution.value.generation, row.execution.value.lease)
  }

  function DeliveryWork(row: Proposal): Work {
    if row.delivery.None? then Absent
    else if row.delivery.value.status == Waiting then
      Open(row.delivery.value.generation, row.delivery.value.lease)
    else Finished(row.delivery.value.generation)
  }

  /** Whether the transition was applied, rather than refused or thrown. */
  predicate IsApplied(row: Proposal, op: RowOp, now: int) {
    var r := Transition(row, op, now);
    r.Success? && r.value.status == Applied
  }

  /** The step the execution takes when `actor` makes `move`. */
  function ExecutionStep(row: Proposal, move: Move, actor: nat): LeaseStep {
    if !move.Apply? || !IsApplied(row, move.op, move.now) then Stay
    else
      var now := move.now;
      match move.op
      case OpDecide(command) => if command.decision == Approved then Start(now) else Stay
      case OpClaim(command, token) =>
        Take(actor, token, command.workerId, now, now + command.leaseMs)
      case OpExtend(fence, leaseMs) =>
        if Holds(row, fence)
        then Renew(actor, fence, now, Max(row.execution.value.lease.value.expiresAt, now + leaseMs))
        else Stay
      case OpSettle(command) => Finish(actor, command.fence, now)
      case OpSupersede(_, _) => Stay
  }

  /** The step the delivery takes when `actor` makes `move`. */
  function DeliveryStep(row: Proposal, move: Move, actor: nat): LeaseStep {
    match move
    case Apply(_, now) =>
      if row.outcome.None? && Moved(row, move).outcome.Some? then Start(now) else Stay
    case Dispatch(claim, now, token) =>
      if ClaimOutcome(row, claim, now, token).Success? && Deliverable(row, now)
      then Take(actor, token, claim.workerId, now, now + claim.leaseMs) else Stay
    case Deliver(lease, now, _) =>
      if FenceValid(row, lease, now) == Success(true) then Finish(actor, lease.fence, now) else Stay
    case Drop(lease, now) =>
      if FenceValid(row, lease, now) == Success(true) then Finish(actor, lease.fence, now) else Stay
  }

  /** Every move of a consistent row is, on its execution, a step the lease protocol allows. */
  lemma ExecutionRefines(row: Proposal, move: Move, actor: nat)
    requires Consistent(row)
    ensures Enabled(ExecutionWork(row), ExecutionStep(row, move, actor))
    ensures After(ExecutionWork(row), ExecutionStep(row, move, actor))
            == ExecutionWork(Moved(row, move))
  {
    if move.Apply? {
      match move.op
      case OpDecide(_) =>
      case OpClaim(_, _) =>
      case OpExtend(_, _) =>
      case OpSettle(_) =>
      case OpSupersede(_, _) =>
    }
  }

  /** Every move of a consistent row is, on its delivery, a step the lease protocol allows. */
  lemma DeliveryRefines(row: Proposal, move: Move, actor: nat)
    requires Consistent(row)
    ensures Enabled(DeliveryWork(row), DeliveryStep(row, move, actor))
    ensures After(DeliveryWork(row), DeliveryStep(row, move, actor))
            == DeliveryWork(Moved(row, move))
  {
    if move.Apply? {
      match move.op
      case OpDecide(_) =>
      case OpClaim(_, _) =>
      case OpExtend(_, _) =>
      case OpSettle(_) =>
      case OpSupersede(_, _) =>
    }
  }
}
