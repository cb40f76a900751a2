/**
 * What each operation of the store answers and what it leaves, told from the store before it: the
 * proposals, the threads and who holds them, and the tool-call records that follow the proposals.
 */
module StoreAnswers {
  import opened Common
  import opened ActionProposals
  import opened ProposalRows
  import opened AgentDb
  import opened ProposalAnswers

  // ----- Threads -----

  predicate HeldBy(db: Db, threadId: Text, runId: Text) {
    threadId in db.threads && db.threads[threadId].activeStream == Some(runId)
  }

  /** A run may take a thread nobody holds, one it holds already, and one held by the run it replaces. */
  predicate MayTake(db: Db, threadId: Text, runId: Text, replacing: Option<Text>) {
    threadId in db.threads
    && match db.threads[threadId].activeStream
       case None => true
       case Some(holder) => holder == runId || replacing == Some(holder)
  }

  /** Nothing but this one thread is another. */
  predicate OnlyThread(db: Db, next: Db, threadId: Text, thread: Thread) {
    && next.rows == db.rows && next.order == db.order && next.calls == db.calls
    && next.threads.Keys == db.threads.Keys + {threadId}
    && next.threads[threadId] == thread
    && forall other :: other in db.threads && other != threadId ==> next.threads[other] == db.threads[other]
  }

  /** A claim takes exactly a thread the run may take; a refused one changes nothing. */
  lemma StreamClaimAnswers(db: Db, threadId: Text, runId: Text, replacing: Option<Text>)
    ensures var (next, claimed) := ClaimStream(db, threadId, runId, replacing);
            && (claimed <==> MayTake(db, threadId, runId, replacing))
            && (!claimed ==> next == db)
            && (claimed ==> OnlyThread(db, next, threadId, db.threads[threadId].(activeStream := Some(runId))))
  {
  }

  /** A release frees exactly a thread the run holds. */
  lemma StreamReleaseAnswers(db: Db, threadId: Text, runId: Text)
    ensures var (next, released) := ReleaseStream(db, threadId, runId);
            && (released <==> HeldBy(db, threadId, runId))
            && (!released ==> next == db)
            && (released ==> OnlyThread(db, next, threadId, db.threads[threadId].(activeStream := None)))
  {
  }

  /** Everything else done to a thread: it is changed only if it is there, and made only if it is not. */
  lemma ThreadAnswers(db: Db, threadId: Text, stream: Option<Text>, messages: seq<Message>, actorRef: Text,
                      tenantRef: Option<Text>)
    ensures threadId in db.threads ==>
              && OnlyThread(db, SetStream(db, threadId, stream), threadId,
                            db.threads[threadId].(activeStream := stream))
              && OnlyThread(db, SetMessages(db, threadId, messages), threadId,
                            db.threads[threadId].(messages := messages))
              && CreateThread(db, threadId, actorRef, tenantRef) == db
    ensures threadId !in db.threads ==>
              && SetStream(db, threadId, stream) == db && SetMessages(db, threadId, messages) == db
              && OnlyThread(db, CreateThread(db, threadId, actorRef, tenantRef), threadId,
                            Thread(actorRef, tenantRef, None, []))
    ensures var gone := DeleteThread(db, threadId);
            && gone.rows == db.rows && gone.order == db.order && gone.calls == db.calls
            && gone.threads.Keys == db.threads.Keys - {threadId}
            && forall other :: other in db.threads && other != threadId ==>
                 gone.threads[other] == db.threads[other]
  {
  }

  /** The ways a run loses a thread: its own release, a claim naming it, a write over it, the end of it. */
  predicate TakesAway(op: DbOp, threadId: Text, holder: Text) {
    match op
    case DoReleaseStream(id, runId) => id == threadId && runId == holder
    case DoClaimStream(id, runId, replacing) => id == threadId && runId != holder && replacing == Some(holder)
    case DoSetStream(id, stream) => id == threadId && stream != Some(holder)
    case DoDeleteThread(id) => id == threadId
    case _ => false
  }

  lemma OthersKeepStreams(db: Db, op: DbOp, threadId: Text)
    requires !op.DoClaimStream? && !op.DoReleaseStream? && !op.DoSetStream? && !op.DoDeleteThread?
    requires threadId in db.threads
    ensures threadId in Step(db, op).threads
    ensures Step(db, op).threads[threadId].activeStream == db.threads[threadId].activeStream
  {
    match op
    case DoAdmit(id, lease, now, messageId) =>
      if Finds(db, id, lease) {
        AdmitKeepsStreams(db, id, lease, now, messageId, threadId);
      }
    case DoCreateReplacing(input, now, at) =>
      assert CreateReplacing(db, input, now, at).0.threads == db.threads;
    case _ =>
  }

  lemma AdmitKeepsStreams(db: Db, id: Text, lease: OutcomeLease, now: int, messageId: Text, threadId: Text)
    requires Finds(db, id, lease) && threadId in db.threads
    ensures var next := AdmitRow(db, id, lease, now, messageId).0;
            && threadId in next.threads
            && next.threads[threadId].activeStream == db.threads[threadId].activeStream
  {
  }

  /** A holder keeps a thread through any operation that does not take it away. */
  lemma HolderStays(db: Db, op: DbOp, threadId: Text, holder: Text)
    requires HeldBy(db, threadId, holder)
    ensures HeldBy(Step(db, op), threadId, holder) <==> !TakesAway(op, threadId, holder)
  {
    if !op.DoClaimStream? && !op.DoReleaseStream? && !op.DoSetStream? && !op.DoDeleteThread? {
      OthersKeepStreams(db, op, threadId);
    }
  }

  /**
   * Over any run of operations: a run that held a thread and no longer does lost it to one of them
   * that takes it away.
   */
  lemma {:induction false} HeldUntilTakenAway(ops: seq<DbOp>, i: nat, threadId: Text, holder: Text) returns (k: nat)
    requires i < |ops| && HeldBy(Run(ops[..i]), threadId, holder) && !HeldBy(Run(ops), threadId, holder)
    ensures i <= k < |ops| && TakesAway(ops[k], threadId, holder) && HeldBy(Run(ops[..k]), threadId, holder)
  {
    k := |ops| - 1;
    var before := ops[..k];
    if HeldBy(Run(before), threadId, holder) {
      HolderStays(Run(before), ops[k], threadId, holder);
    } else {
      assert before[..i] == ops[..i];
      k := HeldUntilTakenAway(before, i, threadId, holder);
      assert before[..k] == ops[..k];
    }
  }

  // ----- Tool-call records -----

  /** A run's end fails exactly its calls that still wait for a person. */
  lemma FailUnsettledAnswers(db: Db, runId: Text, error: Text, callId: Text)
    ensures var next := FailUnsettled(db, runId, error);
            && next.rows == db.rows && next.order == db.order && next.threads == db.threads
            && (callId in next.calls <==> callId in db.calls)
            && (callId in db.calls ==>
                  var call := db.calls[callId];
                  next.calls[callId]
                  == match (call.runId, call.status)
                     case (Some(id), PendingApproval) =>
                       if id == runId then call.(status := CallFailed, error := Some(error)) else call
                     case _ => call)
  {
  }

  lemma RecordCallAnswers(db: Db, callId: Text, call: ToolCall)
    ensures var next := RecordCall(db, callId, call);
            && next.rows == db.rows && next.order == db.order && next.threads == db.threads
            && next.calls.Keys == db.calls.Keys + {callId} && next.calls[callId] == call
            && forall other :: other in db.calls && other != callId ==> next.calls[other] == db.calls[other]
  {
  }

  // ----- Creating -----

  predicate ProperCreation(input: Creation, now: int) {
    ProperTexts(input) && (input.expiresAt.Some? ==> IsExact(input.expiresAt.value)) && IsExact(now)
  }

  /** A proposal as it is when it is made. */
  predicate IsNew(row: Proposal, input: Creation, now: int) {
    row == Proposal(input, Pending, None, None, None, None, None, now, now)
  }

  /** Nothing but one row more, last in creation order. */
  predicate OnlyAdded(db: Db, next: Db, id: Text) {
    && id !in db.rows && next.rows.Keys == db.rows.Keys + {id} && next.order == db.order + [id]
    && next.threads == db.threads
  }

  /** What an id already taken is answered: the same input again is told so, to its own scope alone. */
  predicate ToldTaken(row: Proposal, input: Creation, answer: Created) {
    if row.creation.scope != input.scope then answer == Created(Clash, None)
    else if row.creation == input then answer == Created(Same, Some(row))
    else answer == Created(Clash, Some(row))
  }

  /** A creation makes a row exactly if its id is free and it is proper; else it changes nothing. */
  lemma CreateAnswers(db: Db, input: Creation, now: int)
    ensures var (next, answer) := Create(db, input, now);
            var proper := ProperTexts(input) && (input.expiresAt.Some? ==> IsExact(input.expiresAt.value));
            && (answer.Failure? <==> !proper || (input.id !in db.rows && !IsExact(now)))
            && (answer.Failure? ==> Initial(input, now) == Failure(answer.error))
            && (answer.Failure? || input.id in db.rows ==> next == db)
            && (answer.Success? && input.id in db.rows ==> ToldTaken(db.rows[input.id], input, answer.value))
            && (answer.Success? && input.id !in db.rows ==>
                  && OnlyAdded(db, next, input.id) && next.calls == db.calls
                  && IsNew(next.rows[input.id], input, now)
                  && (forall other :: other in db.rows ==> next.rows[other] == db.rows[other])
                  && answer.value == Created(New, Some(next.rows[input.id])))
  {
    CreationThrows(input, now);
  }

  // ----- Moving one row -----

  predicate Sees(db: Db, scope: Scope, id: Text) {
    id in db.rows && db.rows[id].creation.scope == scope
  }

  /** Which transition an operation asks for. */
  function Asked(row: Proposal, op: RowOp, now: int): Result<Mutation> {
    match op
    case OpDecide(command) => Decide(row, command, now)
    case OpClaim(command, token) => Claim(row, command, now, token)
    case OpExtend(fence, leaseMs) => Extend(row, fence, leaseMs, now)
    case OpSettle(command) => Settle(row, command, now)
    case OpSupersede(replacement, command) => ActionProposals.Supersede(row, replacement, command, now)
  }

  /** Nothing but this one row, and the record of the call it came from, is another. */
  predicate OnlyRow(db: Db, next: Db, id: Text, row: Proposal)
    requires id in db.rows
  {
    && next.rows.Keys == db.rows.Keys && next.order == db.order && next.threads == db.threads
    && next.rows[id] == row
    && (forall other :: other in db.rows && other != id ==> next.rows[other] == db.rows[other])
    && next.calls.Keys == db.calls.Keys
    && (forall callId :: callId in db.calls ==> FollowsRow(db, next, callId, id, row))
  }

  /** The record follows the row if it is the row's own, and the row now prescribes another status. */
  predicate FollowsRow(db: Db, next: Db, callId: Text, id: Text, row: Proposal)
    requires callId in db.calls && callId in next.calls && id in db.rows
  {
    var call := db.calls[callId];
    if callId == row.creation.originToolCallId && call.proposalId == Some(row.creation.id) then
      IsFollowed(call, next.calls[callId], Prescribed(db.rows[id]), Prescribed(row))
    else next.calls[callId] == call
  }

  /** What an update says replaces what was recorded; what it does not say stays. */
  predicate IsFollowed(call: ToolCall, next: ToolCall, before: Option<CallUpdate>, after: Option<CallUpdate>) {
    match (before, after)
    case (_, None) => next == call
    case (Some(was), Some(update)) =>
      if was.status == update.status then next == call else IsUpdated(call, next, update)
    case (None, Some(update)) => IsUpdated(call, next, update)
  }

  predicate IsUpdated(call: ToolCall, next: ToolCall, update: CallUpdate) {
    && next.proposalId == call.proposalId && next.runId == call.runId && next.status == update.status
    && Overrides(next.output, update.output, call.output)
    && Overrides(next.error, update.error, call.error)
    && Overrides(next.executedByRef, update.executedByRef, call.executedByRef)
    && Overrides(next.decidedVia, update.decidedVia, call.decidedVia)
    && Overrides(next.remember, update.remember, call.remember)
  }

  predicate Overrides<T(==)>(now: Option<T>, update: Option<T>, before: Option<T>) {
    match update
    case Some(_) => now == update
    case None => now == before
  }

  lemma FollowAnswers(calls: map<Text, ToolCall>, previous: Proposal, row: Proposal, callId: Text)
    ensures Follow(calls, previous, row).Keys == calls.Keys
    ensures callId in calls ==>
              var next := Follow(calls, previous, row)[callId];
              if callId == row.creation.originToolCallId && calls[callId].proposalId == Some(row.creation.id)
              then IsFollowed(calls[callId], next, Prescribed(previous), Prescribed(row))
              else next == calls[callId]
  {
  }

  lemma MutationStores(db: Db, id: Text, row: Proposal)
    requires id in db.rows
    ensures OnlyRow(db, db.(rows := db.rows[id := row], calls := Follow(db.calls, db.rows[id], row)), id, row)
  {
    var next := db.(rows := db.rows[id := row], calls := Follow(db.calls, db.rows[id], row));
    FollowAnswers(db.calls, db.rows[id], row, id);
    forall callId | callId in db.calls ensures FollowsRow(db, next, callId, id, row) {
      FollowAnswers(db.calls, db.rows[id], row, callId);
    }
  }

  /**
   * A caller moves exactly a row of its own scope, as that row's transition says, and the record of
   * its tool call follows; any other id is not found, and a transition that throws changes nothing.
   */
  lemma MutateAnswers(db: Db, scope: Scope, id: Text, op: RowOp, now: int)
    ensures var (next, answer) := Mutate(db, scope, id, op, now);
            if !Sees(db, scope, id) then next == db && answer == Success(Mutated(NotFound, None))
            else
              match Asked(db.rows[id], op, now)
              case Failure(error) => next == db && answer == Failure(error)
              case Success(m) =>
                && OnlyRow(db, next, id, m.proposal)
                && answer == Success(Mutated(m.status, Some(m.proposal)))
  {
    if Sees(db, scope, id) {
      match Asked(db.rows[id], op, now)
      case Failure(_) =>
      case Success(m) => MutationStores(db, id, m.proposal);
    }
  }

  /** A supersession needs both rows in the caller's scope. */
  lemma SupersedeAnswers(db: Db, scope: Scope, id: Text, command: SupersedeCommand, now: int)
    ensures var (next, answer) := AgentDb.Supersede(db, scope, id, command, now);
            if !Sees(db, scope, command.replacementId) || !Sees(db, scope, id) then
              next == db && answer == Success(Mutated(NotFound, None))
            else
              match ActionProposals.Supersede(db.rows[id], db.rows[command.replacementId], command, now)
              case Failure(error) => next == db && answer == Failure(error)
              case Success(m) =>
                && OnlyRow(db, next, id, m.proposal)
                && answer == Success(Mutated(m.status, Some(m.proposal)))
  {
    if Sees(db, scope, command.replacementId) {
      MutateAnswers(db, scope, id, OpSupersede(db.rows[command.replacementId], command), now);
    }
  }

  // ----- Creating in place of others -----

  /** A pending row of the same scope, tool and key, the key given. */
  predicate InTheWay(row: Proposal, input: Creation) {
    match (row.creation.replacementKey, input.replacementKey)
    case (Some(key), Some(given)) =>
      && key == given && row.decision == Pending
      && row.creation.scope == input.scope && row.creation.toolName == input.toolName
    case _ => false
  }

  /** A row in the way is superseded by the new one in its creator's name, or expires if its time is up. */
  predicate GivesWay(row: Proposal, next: Proposal, input: Creation, now: int) {
    var audit := Audit(input.scope.actorRef, Ascii("supersession"), now, None, None, Some(input.id));
    var system := Audit(Ascii("system"), Ascii("expiry"), now, None, None, None);
    if TimeIsUp(row, now) then
      IsConcluded(row.(decision := Expired, decisionAudit := Some(system), updatedAt := now), next)
    else
      IsConcluded(row.(decision := Superseded, supersededBy := Some(input.id), decisionAudit := Some(audit),
                       updatedAt := now), next)
  }

  lemma ReplacementGives(row: Proposal, input: Creation, now: int, at: int)
    requires Consistent(row) && ProperCreation(input, now) && InTheWay(row, input) && row.creation.id != input.id
    ensures var r := ReplacedBy(row, Initial(input, now).value, at);
            && (r.Success? <==> IsExact(at))
            && (r.Success? ==> GivesWay(row, r.value.proposal, input, at))
  {
    var replacement := Initial(input, now).value;
    var command := SupersedeCommand(input.id, input.scope.actorRef, SUPERSESSION);
    if IsExact(at) {
      SupersessionAnswers(row, replacement, command, at);
    }
  }

  /** The rows after a replacing create: the new one, those in its way given way, the others as before. */
  ghost predicate AllGiveWay(db: Db, next: Db, input: Creation, at: Text -> int)
    requires db.rows.Keys <= next.rows.Keys
  {
    forall id :: id in db.rows ==>
      if InTheWay(db.rows[id], input) then GivesWay(db.rows[id], next.rows[id], input, at(id))
      else next.rows[id] == db.rows[id]
  }

  /** And each record follows the row it is tied to. */
  ghost predicate AllFollow(db: Db, next: Db)
    requires db.rows.Keys <= next.rows.Keys
  {
    && next.calls.Keys == db.calls.Keys
    && (forall callId :: callId in db.calls ==> FollowsItsRow(db, next, callId))
  }

  predicate FollowsItsRow(db: Db, next: Db, callId: Text)
    requires db.rows.Keys <= next.rows.Keys && callId in db.calls && callId in next.calls
  {
    match db.calls[callId].proposalId
    case None => next.calls[callId] == db.calls[callId]
    case Some(id) =>
      if id in db.rows && next.rows[id].creation.originToolCallId == callId then
        IsFollowed(db.calls[callId], next.calls[callId], Prescribed(db.rows[id]), Prescribed(next.rows[id]))
      else next.calls[callId] == db.calls[callId]
  }

  lemma ReplacingRows(db: Db, input: Creation, now: int, at: Text -> int)
    requires WellFormed(db) && ProperCreation(input, now) && input.id !in db.rows
    ensures var replacement := Initial(input, now).value;
            && (CanReplace(db, replacement, at) <==>
                  forall id :: id in db.rows && InTheWay(db.rows[id], input) ==> IsExact(at(id)))
            && (CanReplace(db, replacement, at) ==>
                  var rows := ReplaceRows(db.rows, replacement, at);
                  && rows.Keys == db.rows.Keys
                  && forall id :: id in db.rows ==>
                       if InTheWay(db.rows[id], input) then GivesWay(db.rows[id], rows[id], input, at(id))
                       else rows[id] == db.rows[id])
  {
    var replacement := Initial(input, now).value;
    forall id | id in db.rows
      ensures Replaced(db.rows[id], replacement.creation) <==> InTheWay(db.rows[id], input)
      ensures InTheWay(db.rows[id], input) ==>
                var r := ReplacedBy(db.rows[id], replacement, at(id));
                && (r.Success? <==> IsExact(at(id)))
                && (r.Success? ==> GivesWay(db.rows[id], r.value.proposal, input, at(id)))
    {
      if InTheWay(db.rows[id], input) {
        ReplacementGives(db.rows[id], input, now, at(id));
      }
    }
  }

  lemma AllFollowed(calls: map<Text, ToolCall>, before: map<Text, Proposal>, after: map<Text, Proposal>, callId: Text)
    requires before.Keys <= after.Keys
    ensures FollowAll(calls, before, after).Keys == calls.Keys
    ensures callId in calls ==>
              var call, next := calls[callId], FollowAll(calls, before, after)[callId];
              match call.proposalId
              case None => next == call
              case Some(id) =>
                if id in before && after[id].creation.originToolCallId == callId
                then IsFollowed(call, next, Prescribed(before[id]), Prescribed(after[id]))
                else next == call
  {
  }

  /**
   * A replacing create is all or nothing: the new row, with everything in its way given way and every
   * record following, or, if any clock reading is improper, a throw that changes nothing.
   */
  lemma CreateReplacingAnswers(db: Db, input: Creation, now: int, at: Text -> int)
    requires WellFormed(db) && ProperCreation(input, now) && input.id !in db.rows
    ensures var (next, answer) := CreateReplacing(db, input, now, at);
            if exists id :: id in db.rows && InTheWay(db.rows[id], input) && !IsExact(at(id)) then
              next == db && answer == Failure(RangeError)
            else
              && OnlyAdded(db, next, input.id) && IsNew(next.rows[input.id], input, now)
              && AllGiveWay(db, next, input, at) && AllFollow(db, next)
              && answer == Success(Created(New, Some(next.rows[input.id])))
  {
    ReplacingRows(db, input, now, at);
    CreationThrows(input, now);
    var replacement := Initial(input, now).value;
    if CanReplace(db, replacement, at) {
      var rows := ReplaceRows(db.rows, replacement, at);
      var next := CreateReplacing(db, input, now, at).0;
      assert next.rows == rows[input.id := replacement];
      assert next.calls == FollowAll(db.calls, db.rows, rows);
      forall callId | callId in db.calls ensures callId in next.calls && FollowsItsRow(db, next, callId) {
        AllFollowed(db.calls, db.rows, rows, callId);
      }
      AllFollowed(db.calls, db.rows, rows, []);
    }
  }

  /** On an id already taken, or improper input, it answers and does what a plain create does. */
  lemma CreateReplacingOtherwise(db: Db, input: Creation, now: int, at: Text -> int)
    requires !ProperCreation(input, now) || input.id in db.rows
    ensures CreateReplacing(db, input, now, at) == Create(db, input, now)
  {
    CreationThrows(input, now);
  }

  // ----- Delivering -----

  predicate IsHeld(thread: Thread) {
    match thread.activeStream
    case None => false
    case Some(holder) => |holder| > 0
  }

  /** The outcome is admitted as one message more on its thread, and its delivery is over. */
  predicate IsAdmitted(db: Db, next: Db, id: Text, messageId: Text)
    requires id in db.rows && db.rows[id].creation.scope.threadId in db.threads && db.rows[id].delivery.Some?
  {
    var row := db.rows[id];
    var threadId := row.creation.scope.threadId;
    var thread := db.threads[threadId];
    var delivery := row.delivery.value.(status := Admitted, lease := None, messageId := Some(messageId));
    && next == db.(rows := db.rows[id := row.(delivery := Some(delivery))],
                   threads := db.threads[threadId := thread.(
                     messages := thread.messages + [Message(messageId, row.outcome)])])
  }

  /**
   * An admission is told first what became of the outcome before; then it needs a proper, live lease,
   * a thread that is still there and the proposal's own, and nobody holding it.
   */
  lemma AdmissionAnswers(db: Db, id: Text, lease: OutcomeLease, now: int, messageId: Text)
    requires Finds(db, id, lease)
    ensures var (next, answer) := AdmitRow(db, id, lease, now, messageId);
            var row := db.rows[id];
            var scope := row.creation.scope;
            match row.delivery.value.status
            case Admitted => next == db && answer == Success(Admission(Already, row.delivery.value.messageId))
            case Discarded => next == db && answer == Success(Admission(Gone, None))
            case Waiting =>
              if !ProperFence(lease.fence, now) || |lease.outcomeId| == 0 then
                next == db && answer == Failure(if IsExact(now) then TypeError else RangeError)
              else if !DeliversAt(row, lease, now) then
                next == db && answer == Success(Admission(AdmitStatus.Refused, None))
              else if scope.threadId !in db.threads then
                && next == db.(rows := db.rows[id := row.(delivery :=
                              Some(row.delivery.value.(status := Discarded, lease := None)))])
                && answer == Success(Admission(Gone, None))
              else
                var thread := db.threads[scope.threadId];
                if thread.actorRef != scope.actorRef || thread.tenantRef != scope.tenantRef then
                  next == db && answer == Success(Admission(AdmitStatus.Refused, None))
                else if IsHeld(thread) then next == db && answer == Success(Admission(Busy, None))
                else IsAdmitted(db, next, id, messageId) && answer == Success(Admission(Done, Some(messageId)))
  {
    FenceAnswers(db.rows[id], lease, now);
  }

  /** Handing an outcome out stores it under its lease, if it is to be had at all. */
  lemma DispatchAnswers(db: Db, id: Text, claim: ClaimCommand, now: int, token: Text)
    ensures var next := DispatchOutcome(db, id, claim, now, token);
            && next.order == db.order && next.threads == db.threads && next.calls == db.calls
            && next.rows.Keys == db.rows.Keys
            && (forall other :: other in db.rows && other != id ==> next.rows[other] == db.rows[other])
            && (id in db.rows ==>
                  next.rows[id] == match ClaimOutcome(db.rows[id], claim, now, token)
                                   case Success(Some(row)) => row
                                   case _ => db.rows[id])
  {
  }
}
