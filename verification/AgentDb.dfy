/**
 * The in-memory store as a value: proposals by id (with the order they were created in), threads,
 * and the tool-call records that follow the proposals. Each function is one atomic store operation;
 * the class in `AgentStore.dfy` implements them in place.
 */
module AgentDb {
  import opened Common
  import opened ActionProposals
  import opened ProposalRows

  datatype Message = Message(id: Text, outcome: Option<Outcome>)

  datatype Thread = Thread(
    actorRef: Text,
    tenantRef: Option<Text>,
    activeStream: Option<Text>,
    messages: seq<Message>)

  datatype CallStatus =
    | Proposed | PendingApproval | AutoExecuted | CallExecuted | CallFailed | CallRejected | CallExpired

  /** A tool-call record; `proposalId` ties it to the proposal it was put to a person as. */
  datatype ToolCall = ToolCall(
    proposalId: Option<Text>,
    status: CallStatus,
    runId: Option<Text>,
    output: Option<Text>,
    error: Option<Text>,
    executedByRef: Option<Text>,
    decidedVia: Option<Text>,
    remember: Option<bool>)

  datatype Db = Db(
    rows: map<Text, Proposal>,
    order: seq<Text>,
    threads: map<Text, Thread>,
    calls: map<Text, ToolCall>)

  const EMPTY := Db(map[], [], map[], map[])

  ghost predicate WellFormed(db: Db) {
    && (forall id :: id in db.rows ==> db.rows[id].Id() == id && Consistent(db.rows[id]))
    && (forall id :: id in db.order <==> id in db.rows)
    && (forall i, j :: 0 <= i < j < |db.order| ==> db.order[i] != db.order[j])
  }

  // ----- Tool-call records -----

  /** What a proposal's state settles on its tool call. */
  datatype CallUpdate = CallUpdate(
    status: CallStatus,
    output: Option<Text>,
    error: Option<Text>,
    executedByRef: Option<Text>,
    decidedVia: Option<Text>,
    remember: Option<bool>)

  const SUPERSESSION: Text := Ascii("supersession")
  const SUPERSEDED_BY: Text := Ascii("superseded by proposal ")
  const SUPERSEDED: Text := Ascii("superseded by a newer proposal")
  const ACTION_FAILED: Text := Ascii("the approved action failed")

  /** Text for a plain column: NUL is refused there, so it is dropped. */
  function StorableText(text: Text): Text {
    if text == [] then []
    else (if text[0] == 0 then [] else [text[0]]) + StorableText(text[1..])
  }

  function LowerCase(c: Unit): Unit {
    if 0x41 <= c <= 0x5A then c + 0x20 else c
  }

  predicate IsHex(c: Unit) {
    0x30 <= c <= 0x39 || 0x61 <= LowerCase(c) <= 0x66
  }

  /** `\u` at `i`. */
  predicate EscapeAt(json: Text, i: nat) {
    i + 1 < |json| && json[i] == 0x5C && LowerCase(json[i + 1]) == 0x75
  }

  predicate NulAt(json: Text, i: nat) {
    EscapeAt(json, i) && i + 6 <= |json| && forall k :: i + 2 <= k < i + 6 ==> json[k] == 0x30
  }

  /** An escaped high surrogate at `i`: `\ud8..` to `\udb..`. */
  predicate HighAt(json: Text, i: nat) {
    && EscapeAt(json, i) && i + 6 <= |json|
    && LowerCase(json[i + 2]) == 0x64
    && LowerCase(json[i + 3]) in {0x38, 0x39, 0x61, 0x62}
    && IsHex(json[i + 4]) && IsHex(json[i + 5])
  }

  /** The start of an escaped low surrogate at `i`: `\udc` to `\udf`. */
  predicate LowStartsAt(json: Text, i: nat) {
    && EscapeAt(json, i) && i + 4 <= |json|
    && LowerCase(json[i + 2]) == 0x64 && 0x63 <= LowerCase(json[i + 3]) <= 0x66
  }

  predicate LowAt(json: Text, i: nat) {
    LowStartsAt(json, i) && i + 6 <= |json| && IsHex(json[i + 4]) && IsHex(json[i + 5])
  }

  /** Whether a result's JSON text can go into a JSON column: no escaped NUL, no escaped lone surrogate. */
  predicate StorableOutput(json: Text) {
    && (forall i :: 0 <= i < |json| ==> !NulAt(json, i))
    && (forall i :: 0 <= i < |json| && HighAt(json, i) ==> LowStartsAt(json, i + 6))
    && (forall i :: 0 <= i < |json| && LowAt(json, i) ==> i >= 6 && HighAt(json, i - 6))
  }

  /** The update a proposal prescribes, or nothing while its call has nothing to record yet. */
  function Prescribed(row: Proposal): Option<CallUpdate> {
    var audit := row.decisionAudit;
    var actorRef := if audit.Some? then Some(audit.value.actorRef) else None;
    var via := if audit.Some? then Some(audit.value.via) else None;
    var remember := if audit.Some? then audit.value.remember else None;
    match row.decision
    case Pending => None
    case Rejected =>
      var reason := if audit.Some? && audit.value.reason.Some?
                    then Some(StorableText(audit.value.reason.value)) else None;
      Some(CallUpdate(CallRejected, None, reason, actorRef, via, None))
    case Expired => Some(CallUpdate(CallExpired, None, None, None, via, None))
    case Superseded =>
      Some(CallUpdate(
        CallExpired,
        None,
        Some(if row.supersededBy.Some? then SUPERSEDED_BY + row.supersededBy.value else SUPERSEDED),
        None,
        if via.Some? then via else Some(SUPERSESSION),
        None))
    case Approved =>
      if row.execution.None? then None
      else if row.execution.value.status == Succeeded then
        var result := row.execution.value.result;
        var output := if result.Some? && StorableOutput(result.value) then result else None;
        Some(CallUpdate(CallExecuted, output, None, actorRef, via, remember))
      else if row.execution.value.status == Failed then
        var error := if row.execution.value.error.Some? then row.execution.value.error.value
                     else ACTION_FAILED;
        Some(CallUpdate(CallFailed, None, Some(StorableText(error)), actorRef, via, remember))
      else None
  }

  /** The update a transition calls for: none when the prescribed status stays. */
  function TransitionUpdate(previous: Proposal, next: Proposal): Option<CallUpdate> {
    var update := Prescribed(next);
    var before := Prescribed(previous);
    if update.None? || (before.Some? && before.value.status == update.value.status) then None
    else update
  }

  function Updated(call: ToolCall, update: CallUpdate): ToolCall {
    call.(status := update.status,
          output := if update.output.Some? then update.output else call.output,
          error := if update.error.Some? then update.error else call.error,
          executedByRef := if update.executedByRef.Some? then update.executedByRef
                           else call.executedByRef,
          decidedVia := if update.decidedVia.Some? then update.decidedVia else call.decidedVia,
          remember := if update.remember.Some? then update.remember else call.remember)
  }

  /** The proposal moved: the record of the call it came from follows, if it is tied to it. */
  function Follow(calls: map<Text, ToolCall>, previous: Proposal, next: Proposal): map<Text, ToolCall> {
    var update := TransitionUpdate(previous, next);
    var callId := next.creation.originToolCallId;
    if update.Some? && callId in calls && calls[callId].proposalId == Some(next.Id())
    then calls[callId := Updated(calls[callId], update.value)]
    else calls
  }

  // ----- Proposals -----

  function Find(db: Db, scope: Scope, id: Text): Option<Proposal> {
    if id in db.rows && db.rows[id].Scope() == scope then Some(db.rows[id]) else None
  }

  /** Stores a row under its id; a new id goes last in creation order. */
  function Put(db: Db, row: Proposal): Db {
    db.(rows := db.rows[row.Id() := row],
        order := if row.Id() in db.rows then db.order else db.order + [row.Id()])
  }

  datatype Created = Created(status: CreateStatus, proposal: Option<Proposal>)
  datatype CreateStatus = New | Same | Clash

  function Create(db: Db, input: Creation, now: int): (Db, Result<Created>) {
    var error := CreationError(input);
    if error.Some? then (db, Failure(error.value))
    else if input.id in db.rows then
      var row := db.rows[input.id];
      if row.Scope() != input.scope then (db, Success(Created(Clash, None)))
      else (db, Success(Created(if row.creation == input then Same else Clash, Some(row))))
    else
      match Initial(input, now)
      case Failure(e) => (db, Failure(e))
      case Success(row) => (Put(db, row), Success(Created(New, Some(row))))
  }

  /** The operations a client may ask of one row; supersession goes through the store. */
  type ClientOp = op: RowOp | !op.OpSupersede? witness OpExtend(Fence([], 0), 0)

  datatype Mutated = Mutated(status: Status, proposal: Option<Proposal>)

  function Mutate(db: Db, scope: Scope, id: Text, op: RowOp, now: int): (Db, Result<Mutated>) {
    match Find(db, scope, id)
    case None => (db, Success(Mutated(NotFound, None)))
    case Some(row) =>
      match Transition(row, op, now)
      case Failure(e) => (db, Failure(e))
      case Success(m) =>
        (db.(rows := db.rows[id := m.proposal], calls := Follow(db.calls, row, m.proposal)),
         Success(Mutated(m.status, Some(m.proposal))))
  }

  function Supersede(db: Db, scope: Scope, id: Text, command: SupersedeCommand, now: int)
    : (Db, Result<Mutated>)
  {
    match Find(db, scope, command.replacementId)
    case None => (db, Success(Mutated(NotFound, None)))
    case Some(replacement) => Mutate(db, scope, id, OpSupersede(replacement, command), now)
  }

  /** Whether creating `input` replaces the row: pending, and keyed alike. */
  predicate Replaced(row: Proposal, input: Creation) {
    && input.replacementKey.Some?
    && row.decision == Pending
    && row.Scope() == input.scope
    && row.creation.toolName == input.toolName
    && row.creation.replacementKey == input.replacementKey
  }

  /** What a replacing create does to the row it reaches when the clock reads `now`. */
  function ReplacedBy(row: Proposal, replacement: Proposal, now: int): Result<Mutation> {
    var command := SupersedeCommand(
      replacement.Id(), replacement.creation.scope.actorRef, SUPERSESSION);
    ActionProposals.Supersede(row, replacement, command, now)
  }

  /** Every row once the replaced ones are; `at` is the clock's reading as each row is reached. */
  function ReplaceRows(rows: map<Text, Proposal>, replacement: Proposal, at: Text -> int)
    : map<Text, Proposal>
  {
    map id | id in rows ::
      if Replaced(rows[id], replacement.creation)
         && ReplacedBy(rows[id], replacement, at(id)).Success?
      then ReplacedBy(rows[id], replacement, at(id)).value.proposal
      else rows[id]
  }

  /** Every tool-call record once the rows moved: each follows the one proposal it is tied to. */
  function FollowAll(calls: map<Text, ToolCall>, before: map<Text, Proposal>, after: map<Text, Proposal>)
    : map<Text, ToolCall>
    requires before.Keys <= after.Keys
  {
    map callId | callId in calls ::
      var call := calls[callId];
      if call.proposalId.Some? && call.proposalId.value in before
         && after[call.proposalId.value].creation.originToolCallId == callId
         && TransitionUpdate(before[call.proposalId.value], after[call.proposalId.value]).Some?
      then Updated(call,
             TransitionUpdate(before[call.proposalId.value], after[call.proposalId.value]).value)
      else call
  }

  predicate CanReplace(db: Db, replacement: Proposal, at: Text -> int) {
    forall id :: id in db.rows && Replaced(db.rows[id], replacement.creation) ==>
      ReplacedBy(db.rows[id], replacement, at(id)).Success?
  }

  function CreateReplacing(db: Db, input: Creation, now: int, at: Text -> int): (Db, Result<Created>) {
    var error := CreationError(input);
    if error.Some? then (db, Failure(error.value))
    else if input.id in db.rows then Create(db, input, now)
    else
      match Initial(input, now)
      case Failure(e) => (db, Failure(e))
      case Success(row) =>
        if !CanReplace(db, row, at) then (db, Failure(RangeError))
        else
          var rows := ReplaceRows(db.rows, row, at);
          (Put(db.(rows := rows, calls := FollowAll(db.calls, db.rows, rows)), row),
           Success(Created(New, Some(row))))
  }

  // ----- Outcome delivery -----

  function DispatchOutcome(db: Db, id: Text, claim: ClaimCommand, now: int, token: Text): Db {
    if id in db.rows then db.(rows := db.rows[id := Moved(db.rows[id], Dispatch(claim, now, token))])
    else db
  }

  /** A row with this outcome; ids make it the only one. */
  predicate HasOutcome(row: Proposal, outcomeId: Text) {
    row.outcome.Some? && row.outcome.value.id == outcomeId
  }

  datatype AdmitStatus = Done | Already | Busy | Refused | Missing | Gone

  datatype Admission = Admission(status: AdmitStatus, messageId: Option<Text>)

  /** The thread is free: no run holds it (an empty run id counts as none). */
  predicate Free(thread: Thread) {
    thread.activeStream.None? || thread.activeStream.value == []
  }

  /** Admits the outcome of row `id` to its thread, as the message `messageId`. */
  function AdmitRow(db: Db, id: Text, lease: OutcomeLease, now: int, messageId: Text)
    : (Db, Result<Admission>)
    requires id in db.rows && HasOutcome(db.rows[id], lease.outcomeId) && db.rows[id].delivery.Some?
  {
    var row := db.rows[id];
    var delivery := row.delivery.value;
    if delivery.status == Admitted then (db, Success(Admission(Already, delivery.messageId)))
    else if delivery.status == Discarded then (db, Success(Admission(Gone, None)))
    else
      match FenceValid(row, lease, now)
      case Failure(e) => (db, Failure(e))
      case Success(valid) =>
        var threadId := row.Scope().threadId;
        if !valid then (db, Success(Admission(Refused, None)))
        else if threadId !in db.threads then
          (db.(rows := db.rows[id := Discard(row)]), Success(Admission(Gone, None)))
        else
          var thread := db.threads[threadId];
          if thread.actorRef != row.Scope().actorRef || thread.tenantRef != row.Scope().tenantRef then
            (db, Success(Admission(Refused, None)))
          else if !Free(thread) then (db, Success(Admission(Busy, None)))
          else
            var message := Message(messageId, row.outcome);
            (db.(rows := db.rows[id := Admit(row, messageId)],
                 threads := db.threads[threadId := thread.(messages := thread.messages + [message])]),
             Success(Admission(Done, Some(messageId))))
  }

  // ----- Threads -----

  function ClaimStream(db: Db, threadId: Text, runId: Text, replacing: Option<Text>): (Db, bool) {
    if threadId !in db.threads then (db, false)
    else
      var thread := db.threads[threadId];
      if thread.activeStream.Some? && thread.activeStream != Some(runId)
         && (replacing.None? || thread.activeStream != replacing) then (db, false)
      else
        (db.(threads := db.threads[threadId := thread.(activeStream := Some(runId))]), true)
  }

  function ReleaseStream(db: Db, threadId: Text, runId: Text): (Db, bool) {
    if threadId !in db.threads || db.threads[threadId].activeStream != Some(runId) then (db, false)
    else
      (db.(threads := db.threads[threadId := db.threads[threadId].(activeStream := None)]), true)
  }

  function SetStream(db: Db, threadId: Text, runId: Option<Text>): Db {
    if threadId !in db.threads then db
    else db.(threads := db.threads[threadId := db.threads[threadId].(activeStream := runId)])
  }

  function CreateThread(db: Db, threadId: Text, actorRef: Text, tenantRef: Option<Text>): Db {
    if threadId in db.threads then db
    else db.(threads := db.threads[threadId := Thread(actorRef, tenantRef, None, [])])
  }

  function DeleteThread(db: Db, threadId: Text): Db {
    db.(threads := db.threads - {threadId})
  }

  /** Any other write to a thread's messages: a turn's message, a truncation. */
  function SetMessages(db: Db, threadId: Text, messages: seq<Message>): Db {
    if threadId !in db.threads then db
    else db.(threads := db.threads[threadId := db.threads[threadId].(messages := messages)])
  }

  // ----- Tool calls -----

  function RecordCall(db: Db, callId: Text, call: ToolCall): Db {
    db.(calls := db.calls[callId := call])
  }

  function FailUnsettled(db: Db, runId: Text, error: Text): Db {
    db.(calls := map callId | callId in db.calls ::
          var call := db.calls[callId];
          if call.runId == Some(runId) && call.status == PendingApproval
          then call.(status := CallFailed, error := Some(error)) else call)
  }

  // ----- Any operation, as one step -----

  datatype DbOp =
    | DoCreate(input: Creation, now: int)
    | DoCreateReplacing(input: Creation, now: int, at: Text -> int)
    | DoMutate(scope: Scope, id: Text, op: ClientOp, now: int)
    | DoSupersede(scope: Scope, id: Text, supersede: SupersedeCommand, now: int)
    | DoDispatch(id: Text, claim: ClaimCommand, now: int, token: Text)
    | DoAdmit(id: Text, lease: OutcomeLease, now: int, messageId: Text)
    | DoClaimStream(threadId: Text, runId: Text, replacing: Option<Text>)
    | DoReleaseStream(threadId: Text, runId: Text)
    | DoSetStream(threadId: Text, stream: Option<Text>)
    | DoCreateThread(threadId: Text, actorRef: Text, tenantRef: Option<Text>)
    | DoDeleteThread(threadId: Text)
    | DoSetMessages(threadId: Text, messages: seq<Message>)
    | DoRecordCall(callId: Text, call: ToolCall)
    | DoFailUnsettled(runId: Text, error: Text)

  /** Whether an admission of `lease` finds the row `id`. */
  predicate Finds(db: Db, id: Text, lease: OutcomeLease) {
    id in db.rows && HasOutcome(db.rows[id], lease.outcomeId) && db.rows[id].delivery.Some?
  }

  function Step(db: Db, op: DbOp): Db {
    match op
    case DoCreate(input, now) => Create(db, input, now).0
    case DoCreateReplacing(input, now, at) => CreateReplacing(db, input, now, at).0
    case DoMutate(scope, id, rowOp, now) => Mutate(db, scope, id, rowOp, now).0
    case DoSupersede(scope, id, command, now) => Supersede(db, scope, id, command, now).0
    case DoDispatch(id, claim, now, token) => DispatchOutcome(db, id, claim, now, token)
    case DoAdmit(id, lease, now, messageId) =>
      if Finds(db, id, lease) then AdmitRow(db, id, lease, now, messageId).0 else db
    case DoClaimStream(threadId, runId, replacing) => ClaimStream(db, threadId, runId, replacing).0
    case DoReleaseStream(threadId, runId) => ReleaseStream(db, threadId, runId).0
    case DoSetStream(threadId, stream) => SetStream(db, threadId, stream)
    case DoCreateThread(threadId, actorRef, tenantRef) =>
      CreateThread(db, threadId, actorRef, tenantRef)
    case DoDeleteThread(threadId) => DeleteThread(db, threadId)
    case DoSetMessages(threadId, messages) => SetMessages(db, threadId, messages)
    case DoRecordCall(callId, call) => RecordCall(db, callId, call)
    case DoFailUnsettled(runId, error) => FailUnsettled(db, runId, error)
  }

  /** The store after any run of operations, from empty. */
  function Run(ops: seq<DbOp>): Db {
    if ops == [] then EMPTY else Step(Run(ops[..|ops| - 1]), ops[|ops| - 1])
  }

  // ----- What an operation does to each row -----

  /** The move an operation makes on the row `id`, if it makes one. */
  function MoveOf(db: Db, op: DbOp, id: Text): Option<Move>
    requires id in db.rows
  {
    match op
    case DoMutate(scope, target, rowOp, now) =>
      if id == target && db.rows[id].Scope() == scope then Some(Apply(rowOp, now)) else None
    case DoSupersede(scope, target, command, now) =>
      var replacement := Find(db, scope, command.replacementId);
      if id == target && db.rows[id].Scope() == scope && replacement.Some?
      then Some(Apply(OpSupersede(replacement.value, command), now)) else None
    case DoCreateReplacing(input, now, at) =>
      var initial := Initial(input, now);
      if input.id !in db.rows && initial.Success? && CanReplace(db, initial.value, at)
         && Replaced(db.rows[id], input)
      then
        var command := SupersedeCommand(input.id, input.scope.actorRef, SUPERSESSION);
        Some(Apply(OpSupersede(initial.value, command), at(id)))
      else None
    case DoDispatch(target, claim, now, token) =>
      if id == target then Some(Dispatch(claim, now, token)) else None
    case DoAdmit(target, lease, now, messageId) =>
      if id != target || !Finds(db, id, lease) then None
      else
        var scope := db.rows[id].Scope();
        if scope.threadId !in db.threads then Some(Drop(lease, now))
        else
          var thread := db.threads[scope.threadId];
          if thread.actorRef == scope.actorRef && thread.tenantRef == scope.tenantRef && Free(thread)
          then Some(Deliver(lease, now, messageId)) else None
    case _ => None
  }

  function RowAfter(db: Db, op: DbOp, id: Text): Proposal
    requires id in db.rows
  {
    var move := MoveOf(db, op, id);
    if move.Some? then Moved(db.rows[id], move.value) else db.rows[id]
  }

  ghost predicate RowsMoved(db: Db, op: DbOp, next: Db) {
    && db.rows.Keys <= next.rows.Keys
    && (forall id :: id in db.rows ==> next.rows[id] == RowAfter(db, op, id))
  }

  /** The only way the set of rows grows: one new row, pending, last in creation order. */
  ghost predicate RowAdded(db: Db, op: DbOp, next: Db) {
    && (op.DoCreate? || op.DoCreateReplacing?)
    && op.input.id !in db.rows
    && next.rows.Keys == db.rows.Keys + {op.input.id}
    && next.order == db.order + [op.input.id]
    && Initial(op.input, op.now) == Success(next.rows[op.input.id])
  }

  ghost predicate NoRowAdded(db: Db, next: Db) {
    next.rows.Keys == db.rows.Keys && next.order == db.order
  }

  lemma CreateMovesRows(db: Db, input: Creation, now: int)
    ensures var op := DoCreate(input, now);
            RowsMoved(db, op, Step(db, op))
            && (NoRowAdded(db, Step(db, op)) || RowAdded(db, op, Step(db, op)))
  {
  }

  lemma ReplacingMovesRows(db: Db, input: Creation, now: int, at: Text -> int)
    ensures var op := DoCreateReplacing(input, now, at);
            RowsMoved(db, op, Step(db, op))
            && (NoRowAdded(db, Step(db, op)) || RowAdded(db, op, Step(db, op)))
  {
    var op := DoCreateReplacing(input, now, at);
    var initial := Initial(input, now);
    if CreationError(input).None? && input.id !in db.rows && initial.Success?
       && CanReplace(db, initial.value, at)
    {
      var rows := ReplaceRows(db.rows, initial.value, at);
      assert rows.Keys == db.rows.Keys;
      assert Step(db, op).rows == rows[input.id := initial.value];
      forall id | id in db.rows ensures rows[id] == RowAfter(db, op, id) {
      }
    }
  }

  /** An operation that leaves every row but `id` alone moves rows as it moves that one. */
  lemma OneRowMoved(db: Db, op: DbOp, next: Db, id: Text)
    requires op.DoAdmit? && op.id == id && id in db.rows
    requires next.order == db.order
    requires next.rows == db.rows[id := RowAfter(db, op, id)]
    ensures RowsMoved(db, op, next) && NoRowAdded(db, next)
  {
  }

  lemma AdmitMovesRow(db: Db, id: Text, lease: OutcomeLease, now: int, messageId: Text)
    requires Finds(db, id, lease)
    ensures var op := DoAdmit(id, lease, now, messageId);
            && Step(db, op).order == db.order
            && Step(db, op).rows == db.rows[id := RowAfter(db, op, id)]
  {
    var row := db.rows[id];
    assert db.rows[id := row] == db.rows;
    if row.delivery.value.status == Waiting {
      match FenceValid(row, lease, now)
      case Failure(_) =>
      case Success(_) =>
    } else {
      assert FenceValid(row, lease, now) != Success(true);
    }
  }

  lemma AdmitMovesRows(db: Db, id: Text, lease: OutcomeLease, now: int, messageId: Text)
    requires WellFormed(db)
    ensures var op := DoAdmit(id, lease, now, messageId);
            RowsMoved(db, op, Step(db, op)) && NoRowAdded(db, Step(db, op))
  {
    if Finds(db, id, lease) {
      AdmitMovesRow(db, id, lease, now, messageId);
      var op := DoAdmit(id, lease, now, messageId);
      OneRowMoved(db, op, Step(db, op), id);
    }
  }

  lemma SupersedeMovesRows(db: Db, scope: Scope, id: Text, command: SupersedeCommand, now: int)
    ensures var op := DoSupersede(scope, id, command, now);
            RowsMoved(db, op, Step(db, op)) && NoRowAdded(db, Step(db, op))
  {
  }

  lemma MutateMovesRows(db: Db, scope: Scope, id: Text, rowOp: ClientOp, now: int)
    ensures var op := DoMutate(scope, id, rowOp, now);
            RowsMoved(db, op, Step(db, op)) && NoRowAdded(db, Step(db, op))
  {
  }

  lemma DispatchMovesRows(db: Db, id: Text, claim: ClaimCommand, now: int, token: Text)
    ensures var op := DoDispatch(id, claim, now, token);
            RowsMoved(db, op, Step(db, op)) && NoRowAdded(db, Step(db, op))
  {
  }

  /** Operations move stored rows, and add at most one new row; nothing else happens to rows. */
  lemma StepMovesRows(db: Db, op: DbOp)
    requires WellFormed(db)
    ensures RowsMoved(db, op, Step(db, op))
    ensures NoRowAdded(db, Step(db, op)) || RowAdded(db, op, Step(db, op))
  {
    match op
    case DoCreate(input, now) => CreateMovesRows(db, input, now);
    case DoCreateReplacing(input, now, at) => ReplacingMovesRows(db, input, now, at);
    case DoSupersede(scope, id, command, now) => SupersedeMovesRows(db, scope, id, command, now);
    case DoAdmit(id, lease, now, messageId) => AdmitMovesRows(db, id, lease, now, messageId);
    case DoMutate(scope, id, rowOp, now) => MutateMovesRows(db, scope, id, rowOp, now);
    case DoDispatch(id, claim, now, token) => DispatchMovesRows(db, id, claim, now, token);
    case _ =>
  }

  lemma MovedStays(db: Db, op: DbOp, id: Text)
    requires WellFormed(db) && id in db.rows
    ensures RowAfter(db, op, id).Id() == id && Consistent(RowAfter(db, op, id))
  {
    var move := MoveOf(db, op, id);
    if move.Some? {
      MoveKeepsConsistent(db.rows[id], move.value);
      MoveKeepsIdentity(db.rows[id], move.value);
    }
  }

  lemma RowsStayWellFormed(db: Db, op: DbOp, next: Db)
    requires WellFormed(db) && RowsMoved(db, op, next)
    requires NoRowAdded(db, next) || RowAdded(db, op, next)
    ensures WellFormed(next)
  {
    forall id | id in next.rows ensures next.rows[id].Id() == id && Consistent(next.rows[id]) {
      if id in db.rows {
        MovedStays(db, op, id);
      } else {
        InitialConsistent(op.input, op.now);
      }
    }
  }

  /** Every operation keeps the store well formed. */
  lemma StepKeepsWellFormed(db: Db, op: DbOp)
    requires WellFormed(db)
    ensures WellFormed(Step(db, op))
  {
    StepMovesRows(db, op);
    RowsStayWellFormed(db, op, Step(db, op));
  }

  /** Every store a run of operations can reach is well formed: every row is consistent. */
  lemma {:induction false} RunWellFormed(ops: seq<DbOp>)
    ensures WellFormed(Run(ops))
  {
    if ops != [] {
      RunWellFormed(ops[..|ops| - 1]);
      StepKeepsWellFormed(Run(ops[..|ops| - 1]), ops[|ops| - 1]);
    }
  }
}
