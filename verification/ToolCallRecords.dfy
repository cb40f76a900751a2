/**
 * The tool-call record a proposal came from follows it: recorded `proposed` while the proposal has
 * nothing to say yet, it carries from then on exactly what the proposal's row prescribes.
 */
module ToolCallRecords {
  import opened Common
  import opened ActionProposals
  import opened ProposalRows
  import opened AgentDb

  /** The record as it stands when the call is put to a person. */
  predicate JustProposed(call: ToolCall) {
    && call.status == Proposed
    && call.output.None? && call.error.None? && call.executedByRef.None? && call.decidedVia.None? && call.remember.None?
  }

  predicate Carries(call: ToolCall, update: CallUpdate) {
    && call.status == update.status
    && call.output == update.output
    && call.error == update.error
    && call.executedByRef == update.executedByRef
    && call.decidedVia == update.decidedVia
    && call.remember == update.remember
  }

  /** The call is the one `row` came from, and is tied to it. */
  predicate Tied(callId: Text, call: ToolCall, row: Proposal) {
    call.proposalId == Some(row.Id()) && row.creation.originToolCallId == callId
  }

  /** The record says what the proposal prescribes. */
  predicate InStep(call: ToolCall, row: Proposal) {
    match Prescribed(row)
    case None => JustProposed(call)
    case Some(update) => Carries(call, update)
  }

  /** A record tied to a stored proposal is in step with it; one tied to none yet is just proposed. */
  predicate Tracks(db: Db, callId: Text)
    requires callId in db.calls
  {
    var call := db.calls[callId];
    call.proposalId.Some? ==>
      if call.proposalId.value !in db.rows then JustProposed(call)
      else Tied(callId, call, db.rows[call.proposalId.value]) ==>
        InStep(call, db.rows[call.proposalId.value])
  }

  ghost predicate AllTrack(db: Db) {
    forall callId :: callId in db.calls ==> Tracks(db, callId)
  }

  /** What a turn does: it records a call as proposed, unless its proposal was concluded before. */
  predicate RecordsInTime(db: Db, op: DbOp) {
    op.DoRecordCall? && op.call.proposalId.Some? ==>
      && JustProposed(op.call)
      && (op.call.proposalId.value in db.rows
          && Tied(op.callId, op.call, db.rows[op.call.proposalId.value]) ==>
            Prescribed(db.rows[op.call.proposalId.value]).None?)
  }

  /** What a record in step says of its proposal, status by status. */
  lemma StatusSays(call: ToolCall, row: Proposal)
    requires Consistent(row) && InStep(call, row)
    ensures call.status == Proposed <==> !Concluded(row)
    ensures call.status == CallExecuted <==>
              row.decision == Approved && row.execution.Some? && row.execution.value.status == Succeeded
    ensures call.status == CallFailed <==>
              row.decision == Approved && row.execution.Some? && row.execution.value.status == Failed
    ensures call.status == CallRejected <==> row.decision == Rejected
    ensures call.status == CallExpired <==> row.decision in {Expired, Superseded}
    ensures call.output.Some? ==>
              call.status == CallExecuted && call.output == row.execution.value.result
    ensures call.status in {CallExecuted, CallFailed} && row.decisionAudit.Some? ==>
              call.executedByRef == Some(row.decisionAudit.value.actorRef)
  {
  }

  // ----- What a record says of how the proposal ended -----

  /** The text without its NULs. */
  lemma StorableTextDropsNul(a: Text, b: Text, c: Unit)
    ensures StorableText([]) == []
    ensures StorableText([c]) == if c == 0 then [] else [c]
    ensures StorableText(a + b) == StorableText(a) + StorableText(b)
  {
    assert [c][1..] == [];
    StorableTextJoins(a, b);
  }

  lemma {:induction false} StorableTextJoins(a: Text, b: Text)
    ensures StorableText(a + b) == StorableText(a) + StorableText(b)
  {
    if a == [] {
      assert [] + b == b;
    } else {
      assert (a + b)[1..] == a[1..] + b;
      StorableTextJoins(a[1..], b);
    }
  }

  /** `\u` and four more units. */
  predicate IsEscape(json: Text, i: nat) {
    i + 6 <= |json| && json[i] == 92 && json[i + 1] in {85, 117}
  }

  /** A hexadecimal digit: `0` to `9`, `A` to `F`, `a` to `f`. */
  predicate IsDigit(c: Unit) {
    c in {48, 49, 50, 51, 52, 53, 54, 55, 56, 57, 65, 66, 67, 68, 69, 70, 97, 98, 99, 100, 101, 102}
  }

  /**
   * A result is recorded unless its JSON text has an escaped NUL or half of an escaped surrogate pair
   * in it: `\u0000`; `\ud8..` to `\udb..` without `\udc` to `\udf` behind it; or the other way round.
   */
  lemma StorableOutputSays(json: Text, i: nat)
    ensures NulAt(json, i) <==>
              IsEscape(json, i) && json[i + 2] == 48 && json[i + 3] == 48 && json[i + 4] == 48 && json[i + 5] == 48
    ensures HighAt(json, i) <==>
              && IsEscape(json, i) && json[i + 2] in {68, 100} && json[i + 3] in {56, 57, 65, 66, 97, 98}
              && IsDigit(json[i + 4]) && IsDigit(json[i + 5])
    ensures LowAt(json, i) <==>
              && IsEscape(json, i) && json[i + 2] in {68, 100}
              && json[i + 3] in {67, 68, 69, 70, 99, 100, 101, 102}
              && IsDigit(json[i + 4]) && IsDigit(json[i + 5])
    ensures LowStartsAt(json, i) <==>
              && i + 4 <= |json| && json[i] == 92 && json[i + 1] in {85, 117}
              && json[i + 2] in {68, 100} && json[i + 3] in {67, 68, 69, 70, 99, 100, 101, 102}
  {
  }

  lemma StorableHasNone(json: Text, i: nat)
    requires StorableOutput(json) && i < |json|
    ensures !NulAt(json, i)
    ensures HighAt(json, i) ==> LowStartsAt(json, i + 6)
    ensures LowAt(json, i) ==> i >= 6 && HighAt(json, i - 6)
  {
  }

  /** And nothing else keeps a result from being recorded. */
  lemma NotStorable(json: Text) returns (i: nat)
    requires !StorableOutput(json)
    ensures i < |json|
    ensures NulAt(json, i) || (HighAt(json, i) && !LowStartsAt(json, i + 6))
            || (LowAt(json, i) && !(i >= 6 && HighAt(json, i - 6)))
  {
    if k :| 0 <= k < |json| && NulAt(json, k) {
      i := k;
    } else if k :| 0 <= k < |json| && HighAt(json, k) && !LowStartsAt(json, k + 6) {
      i := k;
    } else {
      i :| 0 <= i < |json| && LowAt(json, i) && !(i >= 6 && HighAt(json, i - 6));
    }
  }

  /** What a record in step says once its proposal is concluded: result, error, who decided, and where. */
  lemma RecordSays(call: ToolCall, row: Proposal)
    requires Consistent(row) && InStep(call, row) && Concluded(row)
    ensures row.decisionAudit.Some? && call.decidedVia == Some(row.decisionAudit.value.via)
    ensures var audit := row.decisionAudit.value;
            match row.decision
            case Approved =>
              && call.executedByRef == Some(audit.actorRef) && call.remember == audit.remember
              && row.execution.Some?
              && var work := row.execution.value;
                 if work.status == Succeeded then
                   && call.error == None
                   && (call.output == None || call.output == work.result)
                   && (call.output == None && work.result.Some? <==>
                         work.result.Some? && !StorableOutput(work.result.value))
                 else
                   && work.status == Failed && call.output == None
                   && work.error.Some? && call.error == Some(StorableText(work.error.value))
            case Rejected =>
              && call.output == None && call.remember == None && call.executedByRef == Some(audit.actorRef)
              && (call.error.Some? <==> audit.reason.Some?)
              && (call.error.Some? ==> call.error.value == StorableText(audit.reason.value))
            case Expired =>
              call.output == None && call.error == None && call.remember == None && call.executedByRef == None
            case Superseded =>
              && call.output == None && call.remember == None && call.executedByRef == None
              && row.supersededBy.Some?
              && call.error == Some(Ascii("superseded by proposal ") + row.supersededBy.value)
            case Pending => false
  {
  }

  /** What stands in for what a row does not say. */
  lemma PrescribedWithout(row: Proposal)
    requires row.decisionAudit == None
    ensures match row.decision
            case Pending => Prescribed(row) == None
            case Rejected => Prescribed(row) == Some(CallUpdate(CallRejected, None, None, None, None, None))
            case Expired => Prescribed(row) == Some(CallUpdate(CallExpired, None, None, None, None, None))
            case Superseded =>
              var text := match row.supersededBy
                          case Some(id) => Ascii("superseded by proposal ") + id
                          case None => Ascii("superseded by a newer proposal");
              Prescribed(row)
              == Some(CallUpdate(CallExpired, None, Some(text), None, Some(Ascii("supersession")), None))
            case Approved =>
              && (row.execution.None? ==> Prescribed(row) == None)
              && (row.execution.Some? && row.execution.value.status == Failed && row.execution.value.error.None? ==>
                    Prescribed(row)
                    == Some(CallUpdate(CallFailed, None,
                                       Some(StorableText(Ascii("the approved action failed"))), None, None, None)))
  {
  }

  // ----- What a move prescribes -----

  /** Only a conclusion gives the row something to say, and from then on it says the same. */
  lemma PrescribedOnceConcluded(row: Proposal)
    requires Consistent(row)
    ensures Prescribed(row).Some? <==> Concluded(row)
    ensures Prescribed(row).Some? ==> Prescribed(row).value.status != Proposed
  {
  }

  lemma PrescribedStays(row: Proposal, move: Move)
    requires Consistent(row) && Prescribed(row).Some?
    ensures Prescribed(Moved(row, move)) == Prescribed(row)
  {
    MoveKeepsConclusions(row, move);
    if row.decision == Approved {
      PrescribedOnceConcluded(row);
    }
  }

  /** Following a transition keeps the record in step. */
  lemma UpdatedInStep(call: ToolCall, before: Proposal, after: Proposal)
    requires InStep(call, before)
    requires Prescribed(before).Some? ==> Prescribed(after) == Prescribed(before)
    ensures InStep(match TransitionUpdate(before, after)
                   case None => call
                   case Some(update) => Updated(call, update), after)
  {
  }

  // ----- What each operation does to the records -----

  /** What becomes of the record `callId` when stored proposals move: it follows its own. */
  function CallAfter(db: Db, op: DbOp, callId: Text): ToolCall
    requires callId in db.calls
  {
    var call := db.calls[callId];
    if call.proposalId.Some? && call.proposalId.value in db.rows
       && Tied(callId, call, db.rows[call.proposalId.value])
    then
      var before, after := db.rows[call.proposalId.value], RowAfter(db, op, call.proposalId.value);
      match TransitionUpdate(before, after)
      case None => call
      case Some(update) => Updated(call, update)
    else call
  }

  predicate MovesProposals(op: DbOp) {
    op.DoMutate? || op.DoSupersede? || op.DoCreateReplacing?
  }

  lemma FollowedOne(db: Db, op: DbOp, callId: Text)
    requires WellFormed(db) && callId in db.calls
    requires op.DoMutate? || op.DoSupersede?
    ensures callId in Step(db, op).calls && Step(db, op).calls[callId] == CallAfter(db, op, callId)
  {
    if op.DoMutate? {
      FollowedMutation(db, op.scope, op.id, op.op, op.now, callId);
    } else {
      var replacement := Find(db, op.scope, op.supersede.replacementId);
      if replacement.Some? {
        var rowOp := OpSupersede(replacement.value, op.supersede);
        FollowedTransition(db, op.scope, op.id, rowOp, op.now, callId);
      }
    }
  }

  lemma NoTransitionNoUpdate(row: Proposal)
    ensures TransitionUpdate(row, row).None?
  {
  }

  /** The record after one row's transition. */
  lemma FollowedTransition(db: Db, scope: Scope, id: Text, rowOp: RowOp, now: int, callId: Text)
    requires WellFormed(db) && callId in db.calls
    ensures var call := db.calls[callId];
            var next := Mutate(db, scope, id, rowOp, now).0.calls;
            && callId in next
            && next[callId]
               == (if Find(db, scope, id).Some? && Tied(callId, call, db.rows[id])
                   then match TransitionUpdate(db.rows[id], Moved(db.rows[id], Apply(rowOp, now)))
                        case None => call
                        case Some(update) => Updated(call, update)
                   else call)
  {
    if Find(db, scope, id).Some? {
      NoTransitionNoUpdate(db.rows[id]);
      MoveKeepsIdentity(db.rows[id], Apply(rowOp, now));
    }
  }

  lemma FollowedMutation(db: Db, scope: Scope, id: Text, rowOp: ClientOp, now: int, callId: Text)
    requires WellFormed(db) && callId in db.calls
    ensures var op := DoMutate(scope, id, rowOp, now);
            callId in Step(db, op).calls && Step(db, op).calls[callId] == CallAfter(db, op, callId)
  {
    FollowedTransition(db, scope, id, rowOp, now, callId);
    var call := db.calls[callId];
    if call.proposalId.Some? && call.proposalId.value in db.rows {
      NoTransitionNoUpdate(db.rows[call.proposalId.value]);
    }
  }

  lemma FollowedReplacing(db: Db, op: DbOp, callId: Text)
    requires WellFormed(db) && callId in db.calls && op.DoCreateReplacing?
    ensures callId in Step(db, op).calls && Step(db, op).calls[callId] == CallAfter(db, op, callId)
  {
    var call := db.calls[callId];
    if call.proposalId.Some? && call.proposalId.value in db.rows {
      NoTransitionNoUpdate(db.rows[call.proposalId.value]);
      var initial := Initial(op.input, op.now);
      if CreationError(op.input).None? && op.input.id !in db.rows && initial.Success?
         && CanReplace(db, initial.value, op.at)
      {
        RowReplaced(db, op, call.proposalId.value);
      }
    }
  }

  /** The row a replacing create computes is the row its supersession leaves. */
  lemma RowReplaced(db: Db, op: DbOp, id: Text)
    requires WellFormed(db) && id in db.rows && op.DoCreateReplacing? && op.input.id !in db.rows
    requires Initial(op.input, op.now).Success?
    requires CanReplace(db, Initial(op.input, op.now).value, op.at)
    ensures var rows := ReplaceRows(db.rows, Initial(op.input, op.now).value, op.at);
            && rows[id] == RowAfter(db, op, id)
            && rows[id].creation == db.rows[id].creation
  {
    var move := MoveOf(db, op, id);
    if move.Some? {
      MoveKeepsIdentity(db.rows[id], move.value);
    }
  }

  /** Delivery says nothing about the action. */
  lemma DeliveryPrescribesNothing(row: Proposal, move: Move)
    requires !move.Apply?
    ensures Prescribed(Moved(row, move)) == Prescribed(row)
  {
  }

  lemma RowPrescription(db: Db, op: DbOp, id: Text)
    requires WellFormed(db) && id in db.rows
    ensures RowAfter(db, op, id).creation == db.rows[id].creation
    ensures Prescribed(db.rows[id]).Some? || !MovesProposals(op) ==>
              Prescribed(RowAfter(db, op, id)) == Prescribed(db.rows[id])
  {
    var move := MoveOf(db, op, id);
    if move.Some? {
      MoveKeepsIdentity(db.rows[id], move.value);
      if Prescribed(db.rows[id]).Some? {
        PrescribedStays(db.rows[id], move.value);
      } else if !MovesProposals(op) {
        DeliveryPrescribesNothing(db.rows[id], move.value);
      }
    }
  }

  // ----- Every run -----

  /** A record that followed the operation, or stayed because nothing moved for it, is in step. */
  lemma CallAfterTracks(db: Db, op: DbOp, callId: Text)
    requires WellFormed(db) && callId in db.calls && Tracks(db, callId)
    requires callId in Step(db, op).calls
    requires Step(db, op).calls[callId]
             == (if MovesProposals(op) then CallAfter(db, op, callId) else db.calls[callId])
    ensures Tracks(Step(db, op), callId)
  {
    StepMovesRows(db, op);
    var call := db.calls[callId];
    if call.proposalId.Some? {
      var id := call.proposalId.value;
      if id in db.rows {
        RowPrescription(db, op, id);
        if Tied(callId, call, db.rows[id]) {
          UpdatedInStep(call, db.rows[id], RowAfter(db, op, id));
        }
      } else if id in Step(db, op).rows {
        InitialConsistent(op.input, op.now);
      }
    }
  }

  lemma FailUnsettledSpares(db: Db, op: DbOp, callId: Text)
    requires WellFormed(db) && callId in db.calls && Tracks(db, callId) && op.DoFailUnsettled?
    requires db.calls[callId].proposalId.Some?
    requires db.calls[callId].proposalId.value in db.rows ==>
               Tied(callId, db.calls[callId], db.rows[db.calls[callId].proposalId.value])
    ensures Step(db, op).calls[callId] == db.calls[callId]
  {
  }

  lemma RecordTracks(db: Db, op: DbOp)
    requires op.DoRecordCall? && RecordsInTime(db, op)
    ensures Tracks(Step(db, op), op.callId)
  {
  }

  lemma FailUnsettledTracks(db: Db, op: DbOp, callId: Text)
    requires WellFormed(db) && callId in db.calls && Tracks(db, callId) && op.DoFailUnsettled?
    ensures callId in Step(db, op).calls && Tracks(Step(db, op), callId)
  {
    var call := db.calls[callId];
    if call.proposalId.Some?
       && (call.proposalId.value in db.rows ==> Tied(callId, call, db.rows[call.proposalId.value]))
    {
      FailUnsettledSpares(db, op, callId);
    }
  }

  lemma StepTracks(db: Db, op: DbOp, callId: Text)
    requires WellFormed(db) && callId in Step(db, op).calls
    requires (op.DoRecordCall? && op.callId == callId && RecordsInTime(db, op))
             || (!(op.DoRecordCall? && op.callId == callId) && callId in db.calls && Tracks(db, callId))
    ensures Tracks(Step(db, op), callId)
  {
    if op.DoRecordCall? && op.callId == callId {
      RecordTracks(db, op);
    } else if op.DoMutate? || op.DoSupersede? {
      FollowedOne(db, op, callId);
      CallAfterTracks(db, op, callId);
    } else if op.DoCreateReplacing? {
      FollowedReplacing(db, op, callId);
      CallAfterTracks(db, op, callId);
    } else if op.DoFailUnsettled? {
      FailUnsettledTracks(db, op, callId);
    } else {
      CallAfterTracks(db, op, callId);
    }
  }

  /** No operation but recording one adds a record. */
  lemma CallsStay(db: Db, op: DbOp, callId: Text)
    requires callId in Step(db, op).calls && !(op.DoRecordCall? && op.callId == callId)
    ensures callId in db.calls
  {
  }

  /** Recordings come in time at every operation of the run. */
  ghost predicate InTime(ops: seq<DbOp>) {
    ops == [] || (InTime(ops[..|ops| - 1]) && RecordsInTime(Run(ops[..|ops| - 1]), ops[|ops| - 1]))
  }

  /**
   * Whatever is decided, expired, superseded, claimed, renewed, settled, delivered, or failed with a
   * dead run: a call recorded as proposed for a proposal not yet concluded carries exactly what the
   * proposal's current row prescribes.
   */
  lemma {:induction false} RecordsFollowProposals(ops: seq<DbOp>)
    requires InTime(ops)
    ensures AllTrack(Run(ops))
  {
    if ops != [] {
      var front, last := ops[..|ops| - 1], ops[|ops| - 1];
      RunWellFormed(front);
      RecordsFollowProposals(front);
      forall callId | callId in Run(ops).calls ensures Tracks(Run(ops), callId) {
        if !(last.DoRecordCall? && last.callId == callId) {
          CallsStay(Run(front), last, callId);
        }
        StepTracks(Run(front), last, callId);
      }
    }
  }

  /** A record made too late stays `proposed`: no transition of its proposal is left to follow. */
  lemma LateRecordStays(db: Db, op: DbOp, callId: Text, id: Text)
    requires WellFormed(db) && MovesProposals(op) && callId in db.calls
    requires id in db.rows && Tied(callId, db.calls[callId], db.rows[id]) && Concluded(db.rows[id])
    ensures callId in Step(db, op).calls && Step(db, op).calls[callId] == db.calls[callId]
  {
    PrescribedOnceConcluded(db.rows[id]);
    RowPrescription(db, op, id);
    if op.DoCreateReplacing? {
      FollowedReplacing(db, op, callId);
    } else {
      FollowedOne(db, op, callId);
    }
  }

  /**
   * Recording a call as proposed leaves it in step exactly when its proposal is not concluded yet:
   * after that no transition is left for the record to follow.
   */
  lemma RecordedInTimeOrNever(db: Db, callId: Text, call: ToolCall, id: Text)
    requires WellFormed(db) && JustProposed(call)
    requires id in db.rows && Tied(callId, call, db.rows[id])
    ensures Tracks(Step(db, DoRecordCall(callId, call)), callId)
            <==> !Concluded(db.rows[id])
  {
    PrescribedOnceConcluded(db.rows[id]);
  }
}
