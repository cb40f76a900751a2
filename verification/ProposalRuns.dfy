/**
 * Runs of the store with their history: for every proposal, what happened to its execution and to
 * the delivery of its outcome, and every outcome message appended to a thread. A run is any sequence
 * of operations by any number of clients, each reading the clock as it likes.
 */
module ProposalRuns {
  import opened Common
  import opened ActionProposals
  import opened ProposalRows
  import opened LeaseProtocol
  import opened AgentDb

  /** An outcome message appended to a thread, under the delivery lease that let it through. */
  datatype Append = Append(outcomeId: Text, threadId: Text, messageId: Text, fence: Fence, at: int)

  type Histories = map<Text, seq<Event>>

  /** The store, and what happened so far. */
  datatype Sys = Sys(db: Db, executions: Histories, deliveries: Histories, appends: seq<Append>)

  const START := Sys(EMPTY, map[], map[], [])

  function Past(h: Histories, id: Text): seq<Event> {
    if id in h then h[id] else []
  }

  function Events(w: Work, s: LeaseStep): seq<Event> {
    if Enabled(w, s) then Happened(w, s) else []
  }

  /** What `op` by `actor` adds to the execution history of the row `id`. */
  function ExecutionEvents(db: Db, op: DbOp, actor: nat, id: Text): seq<Event> {
    if id !in db.rows || MoveOf(db, op, id).None? then []
    else Events(ExecutionWork(db.rows[id]),
                ExecutionStep(db.rows[id], MoveOf(db, op, id).value, actor))
  }

  /** What `op` by `actor` adds to the delivery history of the row `id`. */
  function DeliveryEvents(db: Db, op: DbOp, actor: nat, id: Text): seq<Event> {
    if id !in db.rows || MoveOf(db, op, id).None? then []
    else Events(DeliveryWork(db.rows[id]),
                DeliveryStep(db.rows[id], MoveOf(db, op, id).value, actor))
  }

  predicate Admits(db: Db, op: DbOp) {
    && op.DoAdmit?
    && Finds(db, op.id, op.lease)
    && var r := AdmitRow(db, op.id, op.lease, op.now, op.messageId).1;
       r.Success? && r.value.status == Done
  }

  function Appended(db: Db, op: DbOp): seq<Append> {
    if Admits(db, op)
    then [Append(op.lease.outcomeId, db.rows[op.id].Scope().threadId, op.messageId,
                 op.lease.fence, op.now)]
    else []
  }

  function Next(s: Sys, op: DbOp, actor: nat): Sys {
    var db := Step(s.db, op);
    Sys(db,
        map id | id in db.rows :: Past(s.executions, id) + ExecutionEvents(s.db, op, actor, id),
        map id | id in db.rows :: Past(s.deliveries, id) + DeliveryEvents(s.db, op, actor, id),
        s.appends + Appended(s.db, op))
  }

  /** A run: each operation with whoever asked for it. */
  function Reach(ops: seq<(DbOp, nat)>): Sys {
    if ops == [] then START
    else
      var last := ops[|ops| - 1];
      Next(Reach(ops[..|ops| - 1]), last.0, last.1)
  }

  // ----- Every history is safe -----

  /** The row, its execution history and its delivery history fit together. */
  ghost predicate RowStory(row: Proposal, execution: seq<Event>, delivery: seq<Event>) {
    && Linked(ExecutionWork(row), execution) && SafeHistory(execution)
    && Linked(DeliveryWork(row), delivery) && SafeHistory(delivery)
  }

  ghost predicate Stories(s: Sys) {
    && WellFormed(s.db)
    && (forall id :: id in s.executions ==> id in s.db.rows)
    && (forall id :: id in s.deliveries ==> id in s.db.rows)
    && (forall id :: id in s.db.rows ==>
          RowStory(s.db.rows[id], Past(s.executions, id), Past(s.deliveries, id)))
  }

  lemma MoveKeepsStory(row: Proposal, move: Move, actor: nat, execution: seq<Event>, delivery: seq<Event>)
    requires Consistent(row) && RowStory(row, execution, delivery)
    ensures RowStory(
              Moved(row, move),
              execution + Events(ExecutionWork(row), ExecutionStep(row, move, actor)),
              delivery + Events(DeliveryWork(row), DeliveryStep(row, move, actor)))
  {
    ExecutionRefines(row, move, actor);
    DeliveryRefines(row, move, actor);
    StepKeepsHistory(ExecutionWork(row), execution, ExecutionStep(row, move, actor));
    StepKeepsHistory(DeliveryWork(row), delivery, DeliveryStep(row, move, actor));
  }

  /** The histories a step leaves, for any row there afterwards. */
  lemma PastAfter(s: Sys, op: DbOp, actor: nat, id: Text)
    requires id in Step(s.db, op).rows
    ensures Past(Next(s, op, actor).executions, id)
            == Past(s.executions, id) + ExecutionEvents(s.db, op, actor, id)
    ensures Past(Next(s, op, actor).deliveries, id)
            == Past(s.deliveries, id) + DeliveryEvents(s.db, op, actor, id)
  {
  }

  lemma OldRowStory(db: Db, op: DbOp, actor: nat, id: Text, execution: seq<Event>, delivery: seq<Event>)
    requires id in db.rows && Consistent(db.rows[id]) && RowStory(db.rows[id], execution, delivery)
    ensures RowStory(RowAfter(db, op, id),
                     execution + ExecutionEvents(db, op, actor, id),
                     delivery + DeliveryEvents(db, op, actor, id))
  {
    var row, move := db.rows[id], MoveOf(db, op, id);
    var after := RowAfter(db, op, id);
    var e, d := ExecutionEvents(db, op, actor, id), DeliveryEvents(db, op, actor, id);
    if move.Some? {
      assert after == Moved(row, move.value);
      assert e == Events(ExecutionWork(row), ExecutionStep(row, move.value, actor));
      assert d == Events(DeliveryWork(row), DeliveryStep(row, move.value, actor));
      MoveKeepsStory(row, move.value, actor, execution, delivery);
    } else {
      assert after == row && e == [] && d == [];
      assert execution + e == execution && delivery + d == delivery;
    }
  }

  lemma NextKeepsStory(s: Sys, op: DbOp, actor: nat, id: Text)
    requires Stories(s) && id in Step(s.db, op).rows
    ensures var next := Next(s, op, actor);
            RowStory(next.db.rows[id], Past(next.executions, id), Past(next.deliveries, id))
  {
    PastAfter(s, op, actor, id);
    StepMovesRows(s.db, op);
    if id in s.db.rows {
      OldRowStory(s.db, op, actor, id, Past(s.executions, id), Past(s.deliveries, id));
    } else {
      InitialConsistent(op.input, op.now);
      assert Past(s.executions, id) == [] && Past(s.deliveries, id) == [];
    }
  }

  lemma NextKeepsStories(s: Sys, op: DbOp, actor: nat)
    requires Stories(s)
    ensures Stories(Next(s, op, actor))
  {
    var next := Next(s, op, actor);
    StepKeepsWellFormed(s.db, op);
    forall id | id in next.db.rows
      ensures RowStory(next.db.rows[id], Past(next.executions, id), Past(next.deliveries, id))
    {
      NextKeepsStory(s, op, actor, id);
    }
  }

  /** Whatever the interleaving, every history of every proposal is safe and tells the row's story. */
  lemma {:induction false} ReachStories(ops: seq<(DbOp, nat)>)
    ensures Stories(Reach(ops))
  {
    if ops != [] {
      var last := ops[|ops| - 1];
      ReachStories(ops[..|ops| - 1]);
      NextKeepsStories(Reach(ops[..|ops| - 1]), last.0, last.1);
    }
  }

  lemma SettledIsLast(row: Proposal, h: seq<Event>)
    requires Linked(ExecutionWork(row), h) && SafeHistory(h)
    ensures IsSettled(row) <==> exists i :: 0 <= i < |h| && h[i].Settled?
  {
  }

  /** A row has a settlement in its history exactly when it is settled. */
  lemma SettledExactly(ops: seq<(DbOp, nat)>, id: Text)
    requires id in Reach(ops).db.rows
    ensures var h := Past(Reach(ops).executions, id);
            IsSettled(Reach(ops).db.rows[id]) <==> exists i :: 0 <= i < |h| && h[i].Settled?
  {
    ReachStories(ops);
    SettledIsLast(Reach(ops).db.rows[id], Past(Reach(ops).executions, id));
  }

  /** The settlement at `i` is the last event, by the holder of the highest generation issued. */
  ghost predicate SettledAt(h: seq<Event>, i: nat) {
    && i == |h| - 1
    && h[0].Opened?
    && !h[i].Opened?
    && (exists c :: 0 <= c < |h| && IsClaimOf(h, c, i))
    && (forall k :: 0 <= k < |h| && !h[k].Opened? ==> h[k].generation <= h[i].generation)
  }

  lemma RowSettledOnce(row: Proposal, h: seq<Event>, i: nat)
    requires Consistent(row) && Linked(ExecutionWork(row), h) && SafeHistory(h)
    requires i < |h| && h[i].Settled?
    ensures SettledAt(h, i) && row.decision == Approved && IsSettled(row)
  {
    SettledByHighest(h, i);
    SettledIsLast(row, h);
  }

  /**
   * A proposal is settled at most once, after its approval, by whoever holds the highest generation
   * ever issued for it, under the token that generation was issued with.
   */
  lemma SettledOnceByHighestGeneration(ops: seq<(DbOp, nat)>, id: Text, i: nat)
    requires id in Reach(ops).db.rows
    requires i < |Past(Reach(ops).executions, id)| && Past(Reach(ops).executions, id)[i].Settled?
    ensures SettledAt(Past(Reach(ops).executions, id), i)
    ensures Reach(ops).db.rows[id].decision == Approved && IsSettled(Reach(ops).db.rows[id])
  {
    ReachStories(ops);
    RowSettledOnce(Reach(ops).db.rows[id], Past(Reach(ops).executions, id), i);
  }

  // ----- Every outcome is admitted at most once -----

  function AppendsOf(appends: seq<Append>, outcomeId: Text): seq<Append> {
    if appends == [] then []
    else
      AppendsOf(appends[..|appends| - 1], outcomeId)
      + (if appends[|appends| - 1].outcomeId == outcomeId then [appends[|appends| - 1]] else [])
  }

  lemma AppendsOfMore(appends: seq<Append>, a: Append, outcomeId: Text)
    ensures AppendsOf(appends + [a], outcomeId)
            == AppendsOf(appends, outcomeId) + (if a.outcomeId == outcomeId then [a] else [])
  {
    assert (appends + [a])[..|appends|] == appends;
  }

  /** Different proposals have different outcome ids. */
  lemma OutcomeIdsDiffer(a: Text, b: Text)
    requires OutcomeId(a) == OutcomeId(b)
    ensures a == b
  {
    assert |OutcomeId(a)| == |OutcomeId(b)|;
    assert OutcomeId(a)[..|a|] == a && OutcomeId(b)[..|b|] == b;
  }

  predicate IsAdmitted(row: Proposal) {
    row.delivery.Some? && row.delivery.value.status == Admitted
  }

  /** The appends of a row's outcome: one, with the recorded message id, if admitted; else none. */
  ghost predicate AppendStory(row: Proposal, appends: seq<Append>) {
    var mine := AppendsOf(appends, OutcomeId(row.Id()));
    if IsAdmitted(row)
    then |mine| == 1 && Some(mine[0].messageId) == row.delivery.value.messageId
         && mine[0].threadId == row.Scope().threadId
    else mine == []
  }

  predicate IsOutcomeOf(db: Db, outcomeId: Text, id: Text) {
    id in db.rows && outcomeId == OutcomeId(id)
  }

  ghost predicate IsKnown(db: Db, a: Append) {
    exists id :: IsOutcomeOf(db, a.outcomeId, id)
  }

  ghost predicate AppendStories(s: Sys) {
    && WellFormed(s.db)
    && (forall id :: id in s.db.rows ==> AppendStory(s.db.rows[id], s.appends))
    && (forall i :: 0 <= i < |s.appends| ==> IsKnown(s.db, s.appends[i]))
  }

  lemma {:induction false} NoneAppended(appends: seq<Append>, outcomeId: Text)
    requires forall i :: 0 <= i < |appends| ==> appends[i].outcomeId != outcomeId
    ensures AppendsOf(appends, outcomeId) == []
  {
    if appends != [] {
      NoneAppended(appends[..|appends| - 1], outcomeId);
    }
  }

  lemma MoveKeepsAdmission(row: Proposal, move: Move)
    requires Consistent(row) && !move.Deliver?
    ensures IsAdmitted(Moved(row, move)) <==> IsAdmitted(row)
    ensures IsAdmitted(row) ==> Moved(row, move).delivery == row.delivery
  {
    MoveKeepsConclusions(row, move);
  }

  lemma DeliverAdmits(row: Proposal, lease: OutcomeLease, now: int, messageId: Text)
    requires Consistent(row)
    ensures var after := Moved(row, Deliver(lease, now, messageId));
            if FenceValid(row, lease, now) == Success(true)
            then !IsAdmitted(row) && IsAdmitted(after)
                 && after.delivery.value.messageId == Some(messageId)
            else after == row
  {
  }

  lemma AdmitsExactly(db: Db, op: DbOp)
    requires op.DoAdmit? && op.id in db.rows && Consistent(db.rows[op.id])
    ensures Admits(db, op)
            <==> (MoveOf(db, op, op.id) == Some(Deliver(op.lease, op.now, op.messageId))
                  && FenceValid(db.rows[op.id], op.lease, op.now) == Success(true))
  {
    if Finds(db, op.id, op.lease) {
      var r := FenceValid(db.rows[op.id], op.lease, op.now);
    }
  }

  /** Only an admission that appends turns a row admitted. */
  lemma OnlyAdmissionAdmits(db: Db, op: DbOp, id: Text)
    requires id in db.rows && Consistent(db.rows[id])
    ensures var after := RowAfter(db, op, id);
            if op.DoAdmit? && op.id == id && Admits(db, op)
            then !IsAdmitted(db.rows[id]) && IsAdmitted(after)
                 && after.delivery.value.messageId == Some(op.messageId)
            else (IsAdmitted(after) <==> IsAdmitted(db.rows[id]))
                 && (IsAdmitted(after) ==> after.delivery == db.rows[id].delivery)
  {
    var row := db.rows[id];
    var move := MoveOf(db, op, id);
    if move.Some? {
      if move.value.Deliver? {
        DeliverAdmits(row, move.value.lease, move.value.now, move.value.messageId);
        AdmitsExactly(db, op);
      } else {
        MoveKeepsAdmission(row, move.value);
        if op.DoAdmit? {
          AdmitsExactly(db, op);
        }
      }
    } else if op.DoAdmit? && op.id == id {
      AdmitsExactly(db, op);
    }
  }

  lemma NextKeepsAppendStory(s: Sys, op: DbOp, actor: nat, id: Text)
    requires AppendStories(s) && id in s.db.rows
    ensures AppendStory(RowAfter(s.db, op, id), s.appends + Appended(s.db, op))
  {
    OnlyAdmissionAdmits(s.db, op, id);
    var move := MoveOf(s.db, op, id);
    if move.Some? {
      MoveKeepsIdentity(s.db.rows[id], move.value);
    }
    assert AppendStory(s.db.rows[id], s.appends);
    if Admits(s.db, op) {
      var a := Appended(s.db, op)[0];
      assert Appended(s.db, op) == [a];
      AppendsOfMore(s.appends, a, OutcomeId(id));
      assert Consistent(s.db.rows[op.id]);
      if id != op.id && OutcomeId(id) == op.lease.outcomeId {
        OutcomeIdsDiffer(id, op.id);
      }
    } else {
      assert s.appends + [] == s.appends;
    }
  }

  lemma NewRowAppendStory(s: Sys, row: Proposal)
    requires AppendStories(s) && row.Id() !in s.db.rows && row.delivery.None?
    ensures AppendStory(row, s.appends)
  {
    var id := row.Id();
    forall i | 0 <= i < |s.appends| ensures s.appends[i].outcomeId != OutcomeId(id) {
      var other :| IsOutcomeOf(s.db, s.appends[i].outcomeId, other);
      if OutcomeId(other) == OutcomeId(id) {
        OutcomeIdsDiffer(other, id);
      }
    }
    NoneAppended(s.appends, OutcomeId(id));
  }

  lemma AddedHasAppendStory(s: Sys, op: DbOp, next: Db, id: Text)
    requires AppendStories(s) && RowAdded(s.db, op, next) && id in next.rows && id !in s.db.rows
    ensures AppendStory(next.rows[id], s.appends + Appended(s.db, op))
  {
    InitialConsistent(op.input, op.now);
    NewRowAppendStory(s, next.rows[id]);
    assert s.appends + [] == s.appends;
  }

  lemma NextKeepsEachAppendStory(s: Sys, op: DbOp, actor: nat, id: Text)
    requires AppendStories(s) && id in Step(s.db, op).rows
    ensures AppendStory(Step(s.db, op).rows[id], s.appends + Appended(s.db, op))
  {
    StepMovesRows(s.db, op);
    if id in s.db.rows {
      NextKeepsAppendStory(s, op, actor, id);
    } else {
      AddedHasAppendStory(s, op, Step(s.db, op), id);
    }
  }

  lemma StepKeepsKnown(db: Db, op: DbOp, a: Append)
    requires WellFormed(db) && IsKnown(db, a)
    ensures IsKnown(Step(db, op), a)
  {
    StepMovesRows(db, op);
    var id :| IsOutcomeOf(db, a.outcomeId, id);
    assert IsOutcomeOf(Step(db, op), a.outcomeId, id);
  }

  lemma AppendedKnown(db: Db, op: DbOp)
    requires WellFormed(db) && Admits(db, op)
    ensures IsKnown(Step(db, op), Appended(db, op)[0])
  {
    StepMovesRows(db, op);
    assert Consistent(db.rows[op.id]);
    assert IsOutcomeOf(Step(db, op), op.lease.outcomeId, op.id);
  }

  lemma NextKeepsAppendStories(s: Sys, op: DbOp, actor: nat)
    requires AppendStories(s)
    ensures AppendStories(Next(s, op, actor))
  {
    StepKeepsWellFormed(s.db, op);
    var next := Next(s, op, actor);
    forall id | id in next.db.rows ensures AppendStory(next.db.rows[id], next.appends) {
      NextKeepsEachAppendStory(s, op, actor, id);
    }
    forall i | 0 <= i < |next.appends| ensures IsKnown(next.db, next.appends[i]) {
      if i < |s.appends| {
        StepKeepsKnown(s.db, op, s.appends[i]);
      } else {
        AppendedKnown(s.db, op);
      }
    }
  }

  /**
   * In every run, an outcome is admitted exactly when one message was appended for it, and it records
   * that message's id; every other outcome had none appended.
   */
  lemma {:induction false} AdmittedExactlyOnce(ops: seq<(DbOp, nat)>)
    ensures AppendStories(Reach(ops))
  {
    if ops != [] {
      var last := ops[|ops| - 1];
      AdmittedExactlyOnce(ops[..|ops| - 1]);
      NextKeepsAppendStories(Reach(ops[..|ops| - 1]), last.0, last.1);
    } else {
      assert AppendStories(START);
    }
  }

  /** The admission found the row's thread free, and the row under the lease it presents. */
  predicate FindsItFree(db: Db, op: DbOp) {
    && Admits(db, op)
    && var row := db.rows[op.id]; var threadId := row.Scope().threadId;
       && FenceValid(row, op.lease, op.now) == Success(true)
       && threadId in db.threads && Free(db.threads[threadId])
       && db.threads[threadId].actorRef == row.Scope().actorRef
       && db.threads[threadId].tenantRef == row.Scope().tenantRef
  }

  /** The row's delivery is under the lease `fence`, which has not run out. */
  predicate LeasedUnder(row: Proposal, fence: Fence, now: int) {
    && row.delivery.Some?
    && row.delivery.value.status == Waiting
    && row.delivery.value.generation == fence.generation
    && row.delivery.value.lease.Some?
    && row.delivery.value.lease.value.token == fence.token
    && now < row.delivery.value.lease.value.expiresAt
  }

  /** Just the outcome's message is appended to just its thread. */
  predicate AppendsOnly(db: Db, op: DbOp)
    requires op.DoAdmit? && op.id in db.rows && db.rows[op.id].Scope().threadId in db.threads
  {
    var threadId := db.rows[op.id].Scope().threadId;
    var thread := db.threads[threadId];
    var message := Message(op.messageId, db.rows[op.id].outcome);
    Step(db, op).threads == db.threads[threadId := thread.(messages := thread.messages + [message])]
  }

  /** What an admission that appends must have found, and does. */
  lemma AdmissionNeeds(db: Db, op: DbOp)
    requires Admits(db, op)
    ensures FindsItFree(db, op) && LeasedUnder(db.rows[op.id], op.lease.fence, op.now)
    ensures AppendsOnly(db, op)
  {
    assert FenceValid(db.rows[op.id], op.lease, op.now) == Success(true);
  }

  lemma AppendingAdmits(s: Sys, op: DbOp, actor: nat)
    requires Next(s, op, actor).appends != s.appends
    ensures Admits(s.db, op)
  {
    assert Appended(s.db, op) == [] ==> s.appends + Appended(s.db, op) == s.appends;
  }

  lemma LeasedUnderHighest(row: Proposal, h: seq<Event>, fence: Fence, now: int)
    requires LeasedUnder(row, fence, now) && Linked(DeliveryWork(row), h)
    ensures fence.generation == Issued(h)
  {
  }

  /**
   * An outcome message is appended only to its own thread, while no run holds the thread, and under
   * the unexpired delivery lease of the highest generation issued; and that is all an admission adds.
   */
  lemma AppendedOnlyWhenFree(ops: seq<(DbOp, nat)>, op: DbOp, actor: nat)
    requires Next(Reach(ops), op, actor).appends != Reach(ops).appends
    ensures FindsItFree(Reach(ops).db, op)
    ensures LeasedUnder(Reach(ops).db.rows[op.id], op.lease.fence, op.now)
    ensures op.lease.fence.generation == Issued(Past(Reach(ops).deliveries, op.id))
    ensures AppendsOnly(Reach(ops).db, op)
  {
    var s := Reach(ops);
    ReachStories(ops);
    AppendingAdmits(s, op, actor);
    AdmissionNeeds(s.db, op);
    LeasedUnderHighest(s.db.rows[op.id], Past(s.deliveries, op.id), op.lease.fence, op.now);
  }

  // ----- What stays -----

  /** What was written, decided, settled, admitted or discarded before is so after. */
  predicate KeepsConclusions(before: Proposal, after: Proposal) {
    && after.creation == before.creation && after.createdAt == before.createdAt
    && (before.decision != Pending ==>
          && after.decision == before.decision
          && after.decisionAudit == before.decisionAudit
          && after.supersededBy == before.supersededBy)
    && (IsSettled(before) ==> after.execution == before.execution)
    && (before.outcome.Some? ==> after.outcome == before.outcome)
    && (before.delivery.Some? && before.delivery.value.status != Waiting ==>
          after.delivery == before.delivery)
  }

  lemma StepKeepsConclusions(db: Db, op: DbOp, id: Text)
    requires WellFormed(db) && id in db.rows
    ensures id in Step(db, op).rows && KeepsConclusions(db.rows[id], Step(db, op).rows[id])
  {
    StepMovesRows(db, op);
    var move := MoveOf(db, op, id);
    if move.Some? {
      MoveKeepsConclusions(db.rows[id], move.value);
      MoveKeepsIdentity(db.rows[id], move.value);
    }
  }

  lemma KeepsConclusionsOn(a: Proposal, b: Proposal, c: Proposal)
    requires KeepsConclusions(a, b) && KeepsConclusions(b, c)
    ensures KeepsConclusions(a, c)
  {
  }

  lemma ReachMore(ops: seq<(DbOp, nat)>, more: seq<(DbOp, nat)>)
    requires more != []
    ensures Reach(ops + more).db == Step(Reach(ops + more[..|more| - 1]).db, more[|more| - 1].0)
  {
    assert (ops + more)[..|ops + more| - 1] == ops + more[..|more| - 1];
  }

  /** What a run decided, settled, admitted or discarded, every continuation keeps. */
  lemma {:induction false} ConclusionsAreFinal(ops: seq<(DbOp, nat)>, more: seq<(DbOp, nat)>, id: Text)
    requires id in Reach(ops).db.rows
    ensures id in Reach(ops + more).db.rows
    ensures KeepsConclusions(Reach(ops).db.rows[id], Reach(ops + more).db.rows[id])
  {
    if more == [] {
      assert ops + more == ops;
    } else {
      var front := more[..|more| - 1];
      var before, middle := Reach(ops).db, Reach(ops + front).db;
      ConclusionsAreFinal(ops, front, id);
      ReachStories(ops + front);
      StepKeepsConclusions(middle, more[|more| - 1].0, id);
      ReachMore(ops, more);
      KeepsConclusionsOn(before.rows[id], middle.rows[id], Reach(ops + more).db.rows[id]);
    }
  }

  /** How creation answers when its id is taken. */
  lemma TakenIdAnswers(db: Db, original: Creation, input: Creation, now: int)
    requires input.id == original.id && input.id in db.rows && db.rows[input.id].creation == original
    requires CreationError(input).None?
    ensures Create(db, input, now)
            == (db, Success(Created(
                              if input == original then Same else Clash,
                              if input.scope == original.scope then Some(db.rows[input.id]) else None)))
  {
  }

  lemma CreatedIsStored(db: Db, original: Creation, at: int)
    requires Create(db, original, at).1.Success? && Create(db, original, at).1.value.status == New
    ensures original.id in Create(db, original, at).0.rows
    ensures Create(db, original, at).0.rows[original.id].creation == original
  {
  }

  /**
   * Whatever happened since, replaying a creation answers `unchanged` for the original input and
   * `conflict` for any other under its id, shows the row only to its own scope, and changes nothing.
   */
  lemma CreationReplay(ops: seq<(DbOp, nat)>, original: Creation, at: int, more: seq<(DbOp, nat)>,
                       input: Creation, now: int)
    requires Create(Reach(ops).db, original, at).1.Success?
    requires Create(Reach(ops).db, original, at).1.value.status == New
    requires CreationError(input).None? && input.id == original.id
    ensures var db := Reach(ops + [(DoCreate(original, at), 0)] + more).db;
            && original.id in db.rows
            && Create(db, input, now)
               == (db, Success(Created(
                                 if input == original then Same else Clash,
                                 if input.scope == original.scope then Some(db.rows[original.id])
                                 else None)))
  {
    var created := ops + [(DoCreate(original, at), 0)];
    assert created[..|created| - 1] == ops;
    assert Reach(created).db == Create(Reach(ops).db, original, at).0;
    CreatedIsStored(Reach(ops).db, original, at);
    ConclusionsAreFinal(created, more, original.id);
    TakenIdAnswers(Reach(created + more).db, original, input, now);
  }
}
