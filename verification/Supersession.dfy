/**
 * Replacement of keyed proposals. As long as keyed proposals enter the store only through the
 * replacing create, at most one of them per scope, tool and key is pending, and following
 * `supersededBy` only ever leads to later proposals, ending in one that nothing superseded.
 */
module Supersession {
  import opened Common
  import opened ActionProposals
  import opened ProposalRows
  import opened AgentDb

  /** Keyed proposals are created by replacement, and nothing is superseded any other way. */
  predicate ReplacesOnly(op: DbOp) {
    && !op.DoSupersede?
    && (op.DoCreate? ==> op.input.replacementKey.None?)
  }

  /** Two proposals of which only one may be pending. */
  predicate SameSlot(a: Proposal, b: Proposal) {
    && a.creation.replacementKey.Some?
    && a.creation.replacementKey == b.creation.replacementKey
    && a.Scope() == b.Scope()
    && a.creation.toolName == b.creation.toolName
  }

  predicate BothPending(a: Proposal, b: Proposal) {
    a.decision == Pending && b.decision == Pending && SameSlot(a, b)
  }

  ghost predicate OnePending(db: Db) {
    forall a, b :: a in db.rows && b in db.rows && BothPending(db.rows[a], db.rows[b]) ==> a == b
  }

  /** Where a proposal stands in creation order. */
  function Index(order: seq<Text>, id: Text): (i: nat)
    requires id in order
    ensures i < |order| && order[i] == id
  {
    if order[0] == id then 0 else 1 + Index(order[1..], id)
  }

  lemma {:induction false} IndexAppend(order: seq<Text>, x: Text, id: Text)
    requires id in order
    ensures Index(order + [x], id) == Index(order, id)
  {
    if order[0] != id {
      IndexAppend(order[1..], x, id);
      assert (order + [x])[1..] == order[1..] + [x];
    }
  }

  lemma {:induction false} IndexLast(order: seq<Text>, x: Text)
    requires x !in order
    ensures Index(order + [x], x) == |order|
  {
    if order != [] {
      IndexLast(order[1..], x);
      assert (order + [x])[1..] == order[1..] + [x];
    }
  }

  /** `id` is superseded by a proposal of its own slot, created later. */
  predicate LinksForward(db: Db, id: Text) {
    && id in db.rows
    && (db.rows[id].supersededBy.Some? ==>
          var next := db.rows[id].supersededBy.value;
          && next in db.rows
          && id in db.order && next in db.order
          && Index(db.order, id) < Index(db.order, next)
          && SameSlot(db.rows[id], db.rows[next]))
  }

  ghost predicate Forward(db: Db) {
    forall id :: id in db.rows ==> LinksForward(db, id)
  }

  // ----- What one operation does -----

  lemma MoveKeepsSuperseder(row: Proposal, move: Move)
    requires !move.Apply? || !move.op.OpSupersede?
    ensures Moved(row, move).supersededBy == row.supersededBy
  {
    if move.Apply? {
      match move.op
      case OpDecide(_) =>
      case OpClaim(_, _) =>
      case OpExtend(_, _) =>
      case OpSettle(_) =>
    }
  }

  /** The one row a replacing create adds. */
  predicate IsReplacement(db: Db, op: DbOp) {
    && op.DoCreateReplacing?
    && op.input.id !in db.rows
    && CreationError(op.input).None?
    && Initial(op.input, op.now).Success?
    && CanReplace(db, Initial(op.input, op.now).value, op.at)
  }

  /** A replacing create leaves a row it replaces superseded by the new one, or expired. */
  lemma ReplacedConcludes(db: Db, op: DbOp, id: Text)
    requires IsReplacement(db, op) && id in db.rows && Replaced(db.rows[id], op.input)
    requires db.rows[id].Id() == id
    ensures var after := RowAfter(db, op, id);
            && after.decision in {Superseded, Expired}
            && (after.supersededBy == Some(op.input.id) || after.supersededBy == db.rows[id].supersededBy)
  {
  }

  /** A row's superseder changes only when a replacing create puts its own row there. */
  lemma SupersededByNewRow(db: Db, op: DbOp, id: Text)
    requires WellFormed(db) && ReplacesOnly(op) && id in db.rows
    ensures RowAfter(db, op, id).supersededBy == db.rows[id].supersededBy
            || (IsReplacement(db, op) && Replaced(db.rows[id], op.input)
                && RowAfter(db, op, id).supersededBy == Some(op.input.id))
  {
    if op.DoCreateReplacing? {
      if IsReplacement(db, op) && Replaced(db.rows[id], op.input) {
        ReplacedConcludes(db, op, id);
      }
    } else {
      var move := MoveOf(db, op, id);
      if move.Some? {
        MoveKeepsSuperseder(db.rows[id], move.value);
      }
    }
  }

  lemma RowAfterKeeps(db: Db, op: DbOp, id: Text)
    requires WellFormed(db) && id in db.rows
    ensures var after := RowAfter(db, op, id);
            && after.creation == db.rows[id].creation
            && (after.decision == Pending ==> db.rows[id].decision == Pending)
  {
    var move := MoveOf(db, op, id);
    if move.Some? {
      MoveKeepsIdentity(db.rows[id], move.value);
      MoveKeepsConclusions(db.rows[id], move.value);
    }
  }

  /** The new row of a replacing create is alone pending in its slot. */
  lemma NewRowAlone(db: Db, op: DbOp, id: Text)
    requires WellFormed(db) && ReplacesOnly(op) && id in db.rows && RowAdded(db, op, Step(db, op))
    ensures !BothPending(RowAfter(db, op, id), Step(db, op).rows[op.input.id])
  {
    RowAfterKeeps(db, op, id);
    if op.DoCreateReplacing? {
      if IsReplacement(db, op) && Replaced(db.rows[id], op.input) {
        ReplacedConcludes(db, op, id);
      }
    }
  }

  lemma StepKeepsOnePending(db: Db, op: DbOp)
    requires WellFormed(db) && OnePending(db) && ReplacesOnly(op)
    ensures OnePending(Step(db, op))
  {
    var next := Step(db, op);
    StepMovesRows(db, op);
    forall a, b | a in next.rows && b in next.rows && BothPending(next.rows[a], next.rows[b])
      ensures a == b
    {
      if a in db.rows && b in db.rows {
        RowAfterKeeps(db, op, a);
        RowAfterKeeps(db, op, b);
        assert BothPending(db.rows[a], db.rows[b]);
      } else if a in db.rows {
        NewRowAlone(db, op, a);
      } else if b in db.rows {
        NewRowAlone(db, op, b);
      }
    }
  }

  /** A link that pointed forward still does once the order grows. */
  lemma OldLinkForward(db: Db, op: DbOp, id: Text)
    requires WellFormed(db) && id in db.rows && LinksForward(db, id)
    requires RowAfter(db, op, id).supersededBy == db.rows[id].supersededBy
    ensures LinksForward(Step(db, op), id)
  {
    StepMovesRows(db, op);
    RowAfterKeeps(db, op, id);
    if db.rows[id].supersededBy.Some? {
      var to := db.rows[id].supersededBy.value;
      RowAfterKeeps(db, op, to);
      if Step(db, op).order != db.order {
        IndexAppend(db.order, op.input.id, id);
        IndexAppend(db.order, op.input.id, to);
      }
    }
  }

  lemma NewLinkForward(db: Db, op: DbOp, id: Text)
    requires WellFormed(db) && id in db.rows
    requires IsReplacement(db, op) && Replaced(db.rows[id], op.input)
    requires RowAfter(db, op, id).supersededBy == Some(op.input.id)
    ensures LinksForward(Step(db, op), id)
  {
    StepMovesRows(db, op);
    RowAfterKeeps(db, op, id);
    IndexAppend(db.order, op.input.id, id);
    IndexLast(db.order, op.input.id);
  }

  lemma StepKeepsForward(db: Db, op: DbOp)
    requires WellFormed(db) && Forward(db) && ReplacesOnly(op)
    ensures Forward(Step(db, op))
  {
    StepMovesRows(db, op);
    forall id | id in Step(db, op).rows ensures LinksForward(Step(db, op), id) {
      if id in db.rows {
        SupersededByNewRow(db, op, id);
        if RowAfter(db, op, id).supersededBy == db.rows[id].supersededBy {
          OldLinkForward(db, op, id);
        } else {
          NewLinkForward(db, op, id);
        }
      }
    }
  }

  // ----- Every run -----

  /**
   * In every store such a run reaches, at most one proposal of a slot is pending, and every
   * superseded one points forward in creation order, within its slot.
   */
  lemma {:induction false} ReplacementRuns(ops: seq<DbOp>)
    requires forall i :: 0 <= i < |ops| ==> ReplacesOnly(ops[i])
    ensures WellFormed(Run(ops)) && OnePending(Run(ops)) && Forward(Run(ops))
  {
    RunWellFormed(ops);
    if ops != [] {
      var front, last := ops[..|ops| - 1], ops[|ops| - 1];
      ReplacementRuns(front);
      StepKeepsOnePending(Run(front), last);
      StepKeepsForward(Run(front), last);
    }
  }

  /** The proposals met by following `supersededBy` from `id`. */
  ghost function Chain(db: Db, id: Text): (c: seq<Text>)
    requires WellFormed(db) && Forward(db) && id in db.rows
    decreases |db.order| - Index(db.order, id)
  {
    assert LinksForward(db, id);
    if db.rows[id].supersededBy.None? then [id]
    else [id] + Chain(db, db.rows[id].supersededBy.value)
  }

  /** Each one later than those before it, and of their slot. */
  ghost predicate GoesForward(db: Db, c: seq<Text>)
    requires forall i :: 0 <= i < |c| ==> c[i] in db.rows && c[i] in db.order
  {
    forall i, j :: 0 <= i < j < |c| ==> Precedes(db, c[i], c[j])
  }

  /** `a` stands before `b`, in the same slot. */
  predicate Precedes(db: Db, a: Text, b: Text)
    requires a in db.rows && a in db.order && b in db.rows && b in db.order
  {
    Index(db.order, a) < Index(db.order, b) && SameSlot(db.rows[a], db.rows[b])
  }

  lemma PrecedesTransitive(db: Db, a: Text, b: Text, c: Text)
    requires a in db.rows && a in db.order && b in db.rows && b in db.order && c in db.rows && c in db.order
    requires Precedes(db, a, b) && Precedes(db, b, c)
    ensures Precedes(db, a, c)
  {
  }

  lemma LongerGoesForward(db: Db, id: Text, c: seq<Text>)
    requires forall i :: 0 <= i < |c| ==> c[i] in db.rows && c[i] in db.order
    requires id in db.rows && id in db.order && c != [] && GoesForward(db, c)
    requires Precedes(db, id, c[0])
    ensures GoesForward(db, [id] + c)
  {
    var d := [id] + c;
    forall i, j | 0 <= i < j < |d| ensures Precedes(db, d[i], d[j]) {
      if i == 0 && j > 1 {
        PrecedesTransitive(db, id, c[0], c[j - 1]);
      }
    }
  }

  lemma {:induction false} ChainStored(db: Db, id: Text)
    requires WellFormed(db) && Forward(db) && id in db.rows
    ensures Chain(db, id) != [] && Chain(db, id)[0] == id
    ensures forall x :: x in Chain(db, id) ==> x in db.rows && x in db.order
    decreases |db.order| - Index(db.order, id)
  {
    assert LinksForward(db, id);
    if db.rows[id].supersededBy.Some? {
      ChainStored(db, db.rows[id].supersededBy.value);
    }
  }

  /** Every chain goes strictly forward in creation order, within its slot. */
  lemma {:induction false} ChainGoesForward(db: Db, id: Text)
    requires WellFormed(db) && Forward(db) && id in db.rows
    ensures forall x :: x in Chain(db, id) ==> x in db.rows && x in db.order
    ensures GoesForward(db, Chain(db, id))
    decreases |db.order| - Index(db.order, id)
  {
    ChainStored(db, id);
    assert LinksForward(db, id);
    if db.rows[id].supersededBy.Some? {
      var next := db.rows[id].supersededBy.value;
      ChainGoesForward(db, next);
      ChainStored(db, next);
      LongerGoesForward(db, id, Chain(db, next));
    }
  }

  /** Every chain ends in a proposal that nothing superseded. */
  lemma {:induction false} ChainEnds(db: Db, id: Text)
    requires WellFormed(db) && Forward(db) && id in db.rows
    ensures var c := Chain(db, id);
            && c != [] && c[|c| - 1] in db.rows
            && db.rows[c[|c| - 1]].supersededBy.None?
            && db.rows[c[|c| - 1]].decision != Superseded
    decreases |db.order| - Index(db.order, id)
  {
    assert LinksForward(db, id);
    if db.rows[id].supersededBy.Some? {
      ChainEnds(db, db.rows[id].supersededBy.value);
    }
  }

  // ----- What the direct supersession gives up -----

  /** A proper command that finds both rows, of which the second may replace the first, still pending. */
  predicate Directs(db: Db, op: DbOp)
    requires op.DoSupersede?
  {
    && ProperSupersession(op.supersede, op.now)
    && Find(db, op.scope, op.id).Some?
    && Find(db, op.scope, op.supersede.replacementId).Some?
    && Replaces(db.rows[op.supersede.replacementId], db.rows[op.id])
    && db.rows[op.id].decision == Pending
    && !Due(db.rows[op.id], op.now)
  }

  /** And the replacement was not created after the row. */
  predicate PointsBack(db: Db, op: DbOp)
    requires op.DoSupersede?
  {
    && Directs(db, op)
    && op.id in db.order && op.supersede.replacementId in db.order
    && Index(db.order, op.supersede.replacementId) <= Index(db.order, op.id)
  }

  /** Such a supersession is the one that applies. */
  lemma DirectsWhenApplied(db: Db, op: DbOp)
    requires WellFormed(db) && op.DoSupersede?
    ensures Directs(db, op)
            <==> Find(db, op.scope, op.id).Some?
                 && Find(db, op.scope, op.supersede.replacementId).Some?
                 && IsApplied(db.rows[op.id],
                              OpSupersede(db.rows[op.supersede.replacementId], op.supersede), op.now)
  {
  }

  lemma DirectSuperseder(db: Db, op: DbOp)
    requires WellFormed(db) && op.DoSupersede? && op.id in db.rows
    ensures RowAfter(db, op, op.id).supersededBy
            == (if Directs(db, op) then Some(op.supersede.replacementId) else db.rows[op.id].supersededBy)
    ensures Directs(db, op) ==> SameSlot(db.rows[op.id], db.rows[op.supersede.replacementId])
  {
  }

  lemma DirectLink(db: Db, op: DbOp)
    requires WellFormed(db) && op.DoSupersede? && Directs(db, op)
    ensures LinksForward(Step(db, op), op.id) <==> !PointsBack(db, op)
  {
    StepMovesRows(db, op);
    DirectSuperseder(db, op);
    RowAfterKeeps(db, op, op.id);
    RowAfterKeeps(db, op, op.supersede.replacementId);
  }

  lemma UndirectedLink(db: Db, op: DbOp, id: Text)
    requires WellFormed(db) && op.DoSupersede? && LinksForward(db, id)
    requires id != op.id || !Directs(db, op)
    ensures LinksForward(Step(db, op), id)
  {
    if id == op.id {
      DirectSuperseder(db, op);
    }
    OldLinkForward(db, op, id);
  }

  /** A direct supersession keeps chains going forward exactly when it does not point back. */
  lemma DirectSupersessionForward(db: Db, op: DbOp)
    requires WellFormed(db) && Forward(db) && op.DoSupersede?
    ensures Forward(Step(db, op)) <==> !PointsBack(db, op)
  {
    StepMovesRows(db, op);
    if Directs(db, op) {
      DirectLink(db, op);
    }
    forall id | id in db.rows && (id != op.id || !Directs(db, op)) ensures LinksForward(Step(db, op), id) {
      UndirectedLink(db, op, id);
    }
  }

  lemma RunMore(ops: seq<DbOp>, op: DbOp)
    ensures Run(ops + [op]) == Step(Run(ops), op)
  {
    assert (ops + [op])[..|ops|] == ops;
  }

  /** A pending, unexpired row is superseded by any row of its slot, whatever became of that one. */
  lemma DirectApplies(db: Db, op: DbOp)
    requires WellFormed(db) && op.DoSupersede? && SafeInteger(op.now)
    requires op.supersede.replacementId != [] && op.supersede.actorRef != [] && op.supersede.via != []
    requires op.id in db.rows && op.supersede.replacementId in db.rows
    requires op.id != op.supersede.replacementId && op.scope == db.rows[op.id].Scope()
    requires SameSlot(db.rows[op.id], db.rows[op.supersede.replacementId])
    requires db.rows[op.id].creation.replacementKey != Some([])
    requires db.rows[op.id].decision == Pending && !Due(db.rows[op.id], op.now)
    ensures Step(db, op).rows.Keys == db.rows.Keys
    ensures Step(db, op).rows[op.id].supersededBy == Some(op.supersede.replacementId)
    ensures forall id :: id in db.rows && id != op.id ==> Step(db, op).rows[id] == db.rows[id]
    ensures Step(db, op).rows[op.id].creation == db.rows[op.id].creation
  {
    assert Directs(db, op);
    StepMovesRows(db, op);
    DirectSuperseder(db, op);
    RowAfterKeeps(db, op, op.id);
  }

  /**
   * Any two pending proposals of a slot can be made to supersede each other: the direct supersession
   * never looks at its replacement's own decision.
   */
  lemma DirectSupersessionCycle(ops: seq<DbOp>, a: Text, b: Text, now: int)
    requires SafeInteger(now) && a != b && a != [] && b != []
    requires a in Run(ops).rows && b in Run(ops).rows
    requires BothPending(Run(ops).rows[a], Run(ops).rows[b])
    requires Run(ops).rows[a].creation.replacementKey != Some([])
    requires !Due(Run(ops).rows[a], now) && !Due(Run(ops).rows[b], now)
    ensures var scope := Run(ops).rows[a].Scope();
            var more := ops + [DoSupersede(scope, a, SupersedeCommand(b, [1], [1]), now)]
                        + [DoSupersede(scope, b, SupersedeCommand(a, [1], [1]), now)];
            && a in Run(more).rows && b in Run(more).rows
            && Run(more).rows[a].supersededBy == Some(b)
            && Run(more).rows[b].supersededBy == Some(a)
  {
    var scope := Run(ops).rows[a].Scope();
    var first := DoSupersede(scope, a, SupersedeCommand(b, [1], [1]), now);
    var second := DoSupersede(scope, b, SupersedeCommand(a, [1], [1]), now);
    RunWellFormed(ops);
    RunWellFormed(ops + [first]);
    RunMore(ops, first);
    RunMore(ops + [first], second);
    DirectApplies(Run(ops), first);
    DirectApplies(Run(ops + [first]), second);
  }

  /** Two plain creates leave two pending proposals in one slot. */
  lemma TwoPending() returns (ops: seq<DbOp>, a: Text, b: Text)
    ensures a != b && a != [] && b != [] && a in Run(ops).rows && b in Run(ops).rows
    ensures BothPending(Run(ops).rows[a], Run(ops).rows[b])
    ensures Run(ops).rows[a].creation.replacementKey != Some([])
    ensures !Due(Run(ops).rows[a], 0) && !Due(Run(ops).rows[b], 0)
  {
    var first := Creation([3], Scope(None, [1], [2]), [5], [5], [5], [6], [], [7], [7], [8], None, [9],
                          Some([9]));
    var second := first.(id := [4]);
    a, b := first.id, second.id;
    RunMore([], DoCreate(first, 0));
    RunMore([DoCreate(first, 0)], DoCreate(second, 0));
    ops := [DoCreate(first, 0)] + [DoCreate(second, 0)];
    assert [] + [DoCreate(first, 0)] == [DoCreate(first, 0)];
    assert Run(ops).rows[first.id].creation == first;
    assert first.id != second.id by { assert first.id[0] != second.id[0]; }
  }

  /**
   * So one slot comes to hold two pending proposals, and one run ends with two proposals that
   * supersede each other.
   */
  lemma TwoPendingInASlot()
    ensures exists ops: seq<DbOp>, a: Text, b: Text ::
              && a != b && a in Run(ops).rows && b in Run(ops).rows
              && BothPending(Run(ops).rows[a], Run(ops).rows[b])
    ensures exists ops: seq<DbOp>, a: Text, b: Text ::
              && a in Run(ops).rows && b in Run(ops).rows
              && Run(ops).rows[a].supersededBy == Some(b)
              && Run(ops).rows[b].supersededBy == Some(a)
  {
    var ops, a, b := TwoPending();
    DirectSupersessionCycle(ops, a, b, 0);
  }
}
