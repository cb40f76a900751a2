/**
 * An action proposal's row and the transitions that move it: a decision, then execution under a
 * lease, then an outcome delivered to the thread under a second lease. Every transition reads the
 * clock once and is handed the reading, as `now`; fresh tokens and message ids are parameters too.
 */
module ActionProposals {
  import opened Common

  datatype Scope = Scope(tenantRef: Option<Text>, actorRef: Text, threadId: Text)

  /** What the creator wrote; `payload` is the canonical JSON of the free-form fields. */
  datatype Creation = Creation(
    id: Text,
    scope: Scope,
    originRunId: Text,
    originMessageId: Text,
    originToolCallId: Text,
    toolName: Text,
    payload: Text,
    title: Text,
    verb: Text,
    approver: Text,
    expiresAt: Option<int>,
    idempotencyKey: Text,
    replacementKey: Option<Text>)

  datatype Decision = Pending | Approved | Rejected | Expired | Superseded

  datatype Audit = Audit(
    actorRef: Text,
    via: Text,
    at: int,
    reason: Option<Text>,
    remember: Option<bool>,
    replacementProposalId: Option<Text>)

  datatype Lease = Lease(token: Text, generation: int, workerId: Text, expiresAt: int)

  datatype WorkStatus = Queued | Executing | Succeeded | Failed

  datatype Execution = Execution(
    status: WorkStatus,
    generation: int,
    lease: Option<Lease>,
    result: Option<Text>,
    error: Option<Text>)

  datatype Outcome = Outcome(
    id: Text,
    proposalId: Text,
    scope: Scope,
    originRunId: Text,
    originToolCallId: Text,
    toolName: Text,
    decision: Decision,
    executionStatus: Option<WorkStatus>,
    result: Option<Text>,
    error: Option<Text>,
    ui: Text,
    text: Option<Text>,
    createdAt: int)

  datatype DeliveryStatus = Waiting | Admitted | Discarded

  datatype Delivery = Delivery(
    status: DeliveryStatus,
    generation: int,
    lease: Option<Lease>,
    messageId: Option<Text>)

  datatype Proposal = Proposal(
    creation: Creation,
    decision: Decision,
    decisionAudit: Option<Audit>,
    execution: Option<Execution>,
    supersededBy: Option<Text>,
    outcome: Option<Outcome>,
    delivery: Option<Delivery>,
    createdAt: int,
    updatedAt: int)
  {
    function Id(): Text { creation.id }
    function Scope(): Scope { creation.scope }
  }

  datatype Status = Applied | Unchanged | Conflict | NotFound | Lapsed

  datatype Mutation = Mutation(status: Status, proposal: Proposal)

  const OUTCOME_SUFFIX: Text := Ascii(":outcome:1")
  const SYSTEM: Text := Ascii("system")
  const EXPIRY: Text := Ascii("expiry")
  const EMPTY_UI: Text := Ascii("[]")

  // ----- Creation -----

  /** The first check creation fails, in the order they are made. */
  function CreationError(input: Creation): (e: Option<Error>) {
    if input.id == [] || input.scope.actorRef == [] || input.scope.threadId == []
       || input.originRunId == [] || input.originMessageId == [] || input.originToolCallId == []
       || input.toolName == [] || input.approver == [] || input.idempotencyKey == [] then
      Some(TypeError)
    else if |input.id| > 255 || |input.scope.actorRef| > 255 || |input.scope.threadId| > 255
            || (input.scope.tenantRef.Some? && |input.scope.tenantRef.value| > 255) then
      Some(RangeError)
    else if input.replacementKey == Some([]) then Some(TypeError)
    else if input.replacementKey.Some? && |input.replacementKey.value| > 255 then Some(RangeError)
    else if input.expiresAt.Some? && !SafeInteger(input.expiresAt.value) then Some(RangeError)
    else if input.title == [] || input.verb == [] then Some(TypeError)
    else None
  }

  function Initial(input: Creation, now: int): (r: Result<Proposal>) {
    var error := CreationError(input);
    if error.Some? then Failure(error.value)
    else if !SafeInteger(now) then Failure(RangeError)
    else Success(Proposal(input, Pending, None, None, None, None, None, now, now))
  }

  // ----- Outcomes -----

  function OutcomeId(proposalId: Text): Text {
    proposalId + OUTCOME_SUFFIX
  }

  function Attach(row: Proposal, now: int, ui: Option<Text>, text: Option<Text>): (next: Proposal) {
    if row.outcome.Some? then row
    else
      var work := row.execution;
      var settled := work.Some? && (work.value.status.Succeeded? || work.value.status.Failed?);
      var outcome := Outcome(
        OutcomeId(row.Id()), row.Id(), row.Scope(), row.creation.originRunId,
        row.creation.originToolCallId, row.creation.toolName, row.decision,
        if settled then Some(work.value.status) else None,
        if work.Some? then work.value.result else None,
        if work.Some? && work.value.error.Some? then work.value.error
        else if row.decisionAudit.Some? then row.decisionAudit.value.reason else None,
        if ui.Some? then ui.value else EMPTY_UI, text, now);
      row.(outcome := Some(outcome), delivery := Some(Delivery(Waiting, 0, None, None)))
  }

  // ----- Decisions -----

  datatype DecisionCommand = DecisionCommand(
    decision: Decision, actorRef: Text, via: Text, reason: Option<Text>, remember: Option<bool>)

  predicate Due(row: Proposal, now: int) {
    row.creation.expiresAt.Some? && now >= row.creation.expiresAt.value
  }

  function Expire(row: Proposal, now: int): Proposal {
    Attach(
      row.(decision := Expired,
           decisionAudit := Some(Audit(SYSTEM, EXPIRY, now, None, None, None)),
           updatedAt := now),
      now, None, None)
  }

  function Decide(row: Proposal, command: DecisionCommand, now: int): (r: Result<Mutation>) {
    if !SafeInteger(now) then Failure(RangeError)
    else if command.decision !in {Approved, Rejected, Expired} then Failure(TypeError)
    else if command.actorRef == [] || command.via == [] then Failure(TypeError)
    else if row.decision != Pending then
      Success(Mutation(
        if row.decision == command.decision then Unchanged
        else if row.decision == Expired then Lapsed
        else Conflict,
        row))
    else if Due(row, now) then
      Success(Mutation(if command.decision == Expired then Applied else Lapsed, Expire(row, now)))
    else if command.decision == Expired then Success(Mutation(Conflict, row))
    else
      var audit := Audit(command.actorRef, command.via, now, command.reason, command.remember, None);
      var next := row.(decision := command.decision, decisionAudit := Some(audit), updatedAt := now);
      Success(Mutation(
        Applied,
        if command.decision == Approved
        then next.(execution := Some(Execution(Queued, 0, None, None, None)))
        else Attach(next, now, None, None)))
  }

  // ----- Execution under a lease -----

  function LeaseMsError(leaseMs: int, now: int): Option<Error> {
    if !SafeInteger(now) || !SafeInteger(leaseMs) || leaseMs <= 0 || !SafeInteger(now + leaseMs)
    then Some(RangeError) else None
  }

  /** Whether a worker may take the row: queued, or executing under a lease that has run out. */
  predicate Claimable(row: Proposal, now: int) {
    && row.decision == Approved
    && row.execution.Some?
    && (row.execution.value.status == Queued
        || (row.execution.value.status == Executing
            && row.execution.value.lease.Some?
            && now >= row.execution.value.lease.value.expiresAt))
  }

  datatype ClaimCommand = ClaimCommand(workerId: Text, leaseMs: int)

  function Claim(row: Proposal, command: ClaimCommand, now: int, token: Text): (r: Result<Mutation>) {
    var error := LeaseMsError(command.leaseMs, now);
    if error.Some? then Failure(error.value)
    else if command.workerId == [] || token == [] then Failure(TypeError)
    else if !Claimable(row, now) then Success(Mutation(Conflict, row))
    else
      var generation := row.execution.value.generation + 1;
      var lease := Lease(token, generation, command.workerId, now + command.leaseMs);
      Success(Mutation(
        Applied,
        row.(execution := Some(Execution(Executing, generation, Some(lease), None, None)),
             updatedAt := now)))
  }

  datatype Fence = Fence(token: Text, generation: int)

  datatype Standing = Valid | Fenced | RanOut

  /** Whether the row is executing under exactly this token and generation. */
  predicate Holds(row: Proposal, fence: Fence) {
    && row.decision == Approved
    && row.execution.Some?
    && row.execution.value.status == Executing
    && row.execution.value.lease.Some?
    && row.execution.value.generation == fence.generation
    && row.execution.value.lease.value.generation == fence.generation
    && row.execution.value.lease.value.token == fence.token
  }

  function LeaseStatus(row: Proposal, fence: Fence, now: int): (r: Result<Standing>) {
    if !SafeInteger(now) then Failure(RangeError)
    else if fence.token == [] then Failure(TypeError)
    else if !SafeInteger(fence.generation) || fence.generation < 1 then Failure(RangeError)
    else if !Holds(row, fence) then Success(Fenced)
    else if now >= row.execution.value.lease.value.expiresAt then Success(RanOut)
    else Success(Valid)
  }

  function Refusal(standing: Standing): Status
    requires standing != Valid
  {
    if standing.Fenced? then Conflict else Lapsed
  }

  function Extend(row: Proposal, fence: Fence, leaseMs: int, now: int): (r: Result<Mutation>) {
    var error := LeaseMsError(leaseMs, now);
    if error.Some? then Failure(error.value)
    else
      match LeaseStatus(row, fence, now)
      case Failure(e) => Failure(e)
      case Success(standing) =>
        if standing != Valid then Success(Mutation(Refusal(standing), row))
        else
          var work := row.execution.value;
          var lease := work.lease.value;
          var longer := lease.(expiresAt := Max(lease.expiresAt, now + leaseMs));
          Success(Mutation(
            Applied,
            row.(execution := Some(work.(lease := Some(longer))), updatedAt := now)))
  }

  datatype SettleCommand = SettleCommand(
    fence: Fence,
    status: WorkStatus,
    result: Option<Text>,
    error: Option<Text>,
    ui: Option<Text>,
    text: Option<Text>)

  function Settle(row: Proposal, command: SettleCommand, now: int): (r: Result<Mutation>) {
    if !SafeInteger(now) then Failure(RangeError)
    else if command.status !in {Succeeded, Failed} then Failure(TypeError)
    else if (command.status == Succeeded && command.error.Some?)
            || (command.status == Failed && (command.error.None? || command.result.Some?)) then
      Failure(TypeError)
    else
      match LeaseStatus(row, command.fence, now)
      case Failure(e) => Failure(e)
      case Success(standing) =>
        if standing != Valid then Success(Mutation(Refusal(standing), row))
        else
          var work := Execution(
            command.status, command.fence.generation, None, command.result, command.error);
          Success(Mutation(
            Applied,
            Attach(row.(execution := Some(work), updatedAt := now), now, command.ui, command.text)))
  }

  // ----- Supersession -----

  datatype SupersedeCommand = SupersedeCommand(replacementId: Text, actorRef: Text, via: Text)

  /** Same scope, same tool, same non-empty replacement key, and not the same proposal. */
  predicate Replaces(replacement: Proposal, row: Proposal) {
    && row.Id() != replacement.Id()
    && row.Scope() == replacement.Scope()
    && row.creation.toolName == replacement.creation.toolName
    && row.creation.replacementKey.Some?
    && row.creation.replacementKey.value != []
    && row.creation.replacementKey == replacement.creation.replacementKey
  }

  /** The command names its replacement and who asked, at a time that is one. */
  predicate ProperSupersession(command: SupersedeCommand, now: int) {
    SafeInteger(now) && command.replacementId != [] && command.actorRef != [] && command.via != []
  }

  function Supersede(row: Proposal, replacement: Proposal, command: SupersedeCommand, now: int)
    : (r: Result<Mutation>)
  {
    if !SafeInteger(now) then Failure(RangeError)
    else if command.replacementId == [] || command.actorRef == [] || command.via == [] then
      Failure(TypeError)
    else if replacement.Id() != command.replacementId || !Replaces(replacement, row) then
      Success(Mutation(Conflict, row))
    else if row.decision == Superseded then
      Success(Mutation(
        if row.supersededBy == Some(replacement.Id()) then Unchanged else Conflict, row))
    else if row.decision != Pending then Success(Mutation(Conflict, row))
    else if Due(row, now) then Success(Mutation(Lapsed, Expire(row, now)))
    else
      var audit := Audit(
        command.actorRef, command.via, now, None, None, Some(replacement.Id()));
      var next := row.(decision := Superseded, supersededBy := Some(replacement.Id()),
                       decisionAudit := Some(audit), updatedAt := now);
      Success(Mutation(Applied, Attach(next, now, None, None)))
  }

  // ----- Delivery of the outcome, under a lease of its own -----

  function WorkerClaimError(command: ClaimCommand, now: int): Option<Error> {
    if !SafeInteger(now) then Some(RangeError)
    else if command.workerId == [] then Some(TypeError)
    else if !SafeInteger(command.leaseMs) || command.leaseMs <= 0
            || !SafeInteger(now + command.leaseMs) then Some(RangeError)
    else None
  }

  predicate Deliverable(row: Proposal, now: int) {
    && row.outcome.Some?
    && row.delivery.Some?
    && row.delivery.value.status == Waiting
    && (row.delivery.value.lease.Some? ==> now >= row.delivery.value.lease.value.expiresAt)
  }

  function ClaimOutcome(row: Proposal, command: ClaimCommand, now: int, token: Text)
    : (r: Result<Option<Proposal>>)
  {
    var error := WorkerClaimError(command, now);
    if error.Some? then Failure(error.value)
    else if !Deliverable(row, now) then Success(None)
    else
      var generation := row.delivery.value.generation + 1;
      var lease := Lease(token, generation, command.workerId, now + command.leaseMs);
      Success(Some(row.(
        delivery := Some(row.delivery.value.(generation := generation, lease := Some(lease))))))
  }

  datatype OutcomeLease = OutcomeLease(outcomeId: Text, fence: Fence)

  function FenceValid(row: Proposal, command: OutcomeLease, now: int): (r: Result<bool>) {
    if !SafeInteger(now) then Failure(RangeError)
    else if command.fence.token == [] || !SafeInteger(command.fence.generation)
            || command.fence.generation < 1 || command.outcomeId == [] then Failure(TypeError)
    else
      var d := row.delivery;
      Success(
        && row.outcome.Some?
        && row.outcome.value.id == command.outcomeId
        && d.Some?
        && d.value.status == Waiting
        && d.value.generation == command.fence.generation
        && d.value.lease.Some?
        && d.value.lease.value.token == command.fence.token
        && d.value.lease.value.generation == command.fence.generation
        && now < d.value.lease.value.expiresAt)
  }

  function Admit(row: Proposal, messageId: Text): Proposal
    requires row.delivery.Some?
  {
    row.(delivery := Some(row.delivery.value.(
      status := Admitted, lease := None, messageId := Some(messageId))))
  }

  function Discard(row: Proposal): Proposal
    requires row.delivery.Some?
  {
    row.(delivery := Some(row.delivery.value.(status := Discarded, lease := None)))
  }

  // ----- Every transition, as one step -----

  datatype RowOp =
    | OpDecide(decision: DecisionCommand)
    | OpClaim(claim: ClaimCommand, token: Text)
    | OpExtend(fence: Fence, leaseMs: int)
    | OpSettle(settle: SettleCommand)
    | OpSupersede(replacement: Proposal, supersede: SupersedeCommand)

  function Transition(row: Proposal, op: RowOp, now: int): (r: Result<Mutation>) {
    match op
    case OpDecide(command) => Decide(row, command, now)
    case OpClaim(command, token) => Claim(row, command, now, token)
    case OpExtend(fence, leaseMs) => Extend(row, fence, leaseMs, now)
    case OpSettle(command) => Settle(row, command, now)
    case OpSupersede(replacement, command) => Supersede(row, replacement, command, now)
  }
}
