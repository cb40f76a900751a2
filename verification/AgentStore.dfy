/**
 * The in-memory store, updated in place. Every method leaves the store in exactly the state the
 * value-level operation of the same name describes, so all that is proved of runs of operations
 * holds of this object; a method that throws has changed nothing unless it says so.
 */
module AgentStore {
  import opened Common
  import opened Sorting
  import opened ActionProposals
  import opened ProposalRows
  import opened AgentDb
  import opened ProposalRuns
  import opened Paging
  import opened Discovery

  /** Records follow the rows that moved one at a time, or all at once: it comes to the same. */
  lemma FollowOneMore(calls: map<Text, ToolCall>, before: map<Text, Proposal>,
                      after: map<Text, Proposal>, id: Text, next: Proposal)
    requires before.Keys <= after.Keys && id in before && after[id] == before[id]
    requires next.Id() == id && next.creation == before[id].creation
    ensures FollowAll(calls, before, after[id := next])
            == Follow(FollowAll(calls, before, after), before[id], next)
  {
    var followed := FollowAll(calls, before, after);
    var target := FollowAll(calls, before, after[id := next]);
    var callId := next.creation.originToolCallId;
    forall c | c in calls ensures target[c] == Follow(followed, before[id], next)[c] {
      if calls[c].proposalId == Some(id) {
        NoUpdateUnmoved(before[id]);
        assert followed[c] == calls[c];
      } else {
        assert target[c] == followed[c];
        assert followed[c].proposalId == calls[c].proposalId;
      }
    }
  }

  lemma NoUpdateUnmoved(row: Proposal)
    ensures TransitionUpdate(row, row).None?
  {
  }

  lemma FollowNothing(calls: map<Text, ToolCall>, before: map<Text, Proposal>, after: map<Text, Proposal>)
    requires before.Keys <= after.Keys && forall id :: id in before ==> after[id] == before[id]
    ensures FollowAll(calls, before, after) == calls
  {
    forall c | c in calls ensures FollowAll(calls, before, after)[c] == calls[c] {
      if calls[c].proposalId.Some? && calls[c].proposalId.value in before {
        NoUpdateUnmoved(before[calls[c].proposalId.value]);
      }
    }
  }

  // ----- Replacing, one row at a time -----

  ghost predicate DifferentIds(rows: seq<Proposal>) {
    forall i, j :: 0 <= i < j < |rows| ==> rows[i].Id() != rows[j].Id()
  }

  /** What `f` makes of each row it makes something of. */
  function Collect(rows: seq<Proposal>, f: Proposal -> Option<Proposal>): seq<Proposal> {
    if rows == [] then []
    else
      var last := f(rows[|rows| - 1]);
      Collect(rows[..|rows| - 1], f) + (if last.Some? then [last.value] else [])
  }

  lemma {:induction false} CollectedFrom(rows: seq<Proposal>, f: Proposal -> Option<Proposal>, r: Proposal)
    requires r in Collect(rows, f)
    ensures exists i :: 0 <= i < |rows| && f(rows[i]) == Some(r)
  {
    var front := rows[..|rows| - 1];
    if r in Collect(front, f) {
      CollectedFrom(front, f, r);
      var i :| 0 <= i < |front| && f(front[i]) == Some(r);
      assert f(rows[i]) == Some(r);
    }
  }

  lemma {:induction false} Collected(rows: seq<Proposal>, f: Proposal -> Option<Proposal>, i: nat)
    requires i < |rows| && f(rows[i]).Some?
    ensures Among(Collect(rows, f), f(rows[i]).value.Id())
  {
    var front := rows[..|rows| - 1];
    var found, all := Collect(front, f), Collect(rows, f);
    if i < |rows| - 1 {
      Collected(front, f, i);
      var k :| 0 <= k < |found| && found[k].Id() == f(rows[i]).value.Id();
      assert all[k] == found[k];
    } else {
      assert all[|found|] == f(rows[i]).value;
    }
  }

  /** `f` keeps ids. */
  ghost predicate KeepsIds(f: Proposal -> Option<Proposal>) {
    forall row :: f(row).Some? ==> f(row).value.Id() == row.Id()
  }

  lemma {:induction false} CollectDiffers(rows: seq<Proposal>, f: Proposal -> Option<Proposal>)
    requires KeepsIds(f) && DifferentIds(rows)
    ensures DifferentIds(Collect(rows, f))
  {
    if rows != [] {
      var front := rows[..|rows| - 1];
      CollectDiffers(front, f);
      var found, all := Collect(front, f), Collect(rows, f);
      forall i, j | 0 <= i < j < |all| ensures all[i].Id() != all[j].Id() {
        if j == |found| {
          assert all[i] == found[i];
          CollectedFrom(front, f, found[i]);
          var k :| 0 <= k < |front| && f(front[k]) == Some(found[i]);
          assert rows[k].Id() != rows[|rows| - 1].Id();
        } else {
          assert all[i] == found[i] && all[j] == found[j];
        }
      }
    }
  }

  /** What superseding by `proposal` makes of a row it replaces. */
  function Replacing(proposal: Proposal, at: Text -> int): Proposal -> Option<Proposal> {
    (row: Proposal) =>
      if Replaced(row, proposal.creation) && ReplacedBy(row, proposal, at(row.Id())).Success?
      then Some(ReplacedBy(row, proposal, at(row.Id())).value.proposal) else None
  }

  /** The replacements computed from the first `n` rows of creation order. */
  function ReplacementsOf(db: Db, proposal: Proposal, at: Text -> int, n: nat): seq<Proposal>
    requires Known(db) && n <= |db.order|
  {
    Collect(Values(db)[..n], Replacing(proposal, at))
  }

  /** Nothing threw so far, and the replacements so far are these. */
  ghost predicate Replacements(db: Db, proposal: Proposal, at: Text -> int, n: nat, found: seq<Proposal>)
    requires Known(db) && n <= |db.order|
  {
    && found == ReplacementsOf(db, proposal, at, n)
    && (forall i :: 0 <= i < n && Replaced(db.rows[db.order[i]], proposal.creation) ==>
          ReplacedBy(db.rows[db.order[i]], proposal, at(db.rows[db.order[i]].Id())).Success?)
  }

  /** The rows once the first `n` replacements are stored. */
  function Stored(rows: map<Text, Proposal>, replacements: seq<Proposal>, n: nat): map<Text, Proposal>
    requires n <= |replacements|
  {
    if n == 0 then rows
    else Stored(rows, replacements, n - 1)[replacements[n - 1].Id() := replacements[n - 1]]
  }

  lemma NotAllReplaced(db: Db, proposal: Proposal, at: Text -> int, id: Text)
    requires WellFormed(db) && id in db.rows && Replaced(db.rows[id], proposal.creation)
    requires proposal.Id() !in db.rows && proposal.creation.scope.actorRef != [] && proposal.Id() != []
    requires ReplacedBy(db.rows[id], proposal, at(id)).Failure?
    ensures !CanReplace(db, proposal, at)
    ensures ReplacedBy(db.rows[id], proposal, at(id)).error == RangeError
  {
  }

  /** A replacement is a stored row's, which is its own only one. */
  predicate IsReplacementOf(db: Db, proposal: Proposal, at: Text -> int, r: Proposal) {
    && r.Id() in db.rows
    && Replaced(db.rows[r.Id()], proposal.creation)
    && ReplacedBy(db.rows[r.Id()], proposal, at(r.Id())).Success?
    && r == ReplacedBy(db.rows[r.Id()], proposal, at(r.Id())).value.proposal
    && r.creation == db.rows[r.Id()].creation
  }

  lemma ReplacementKeepsId(row: Proposal, proposal: Proposal, now: int)
    requires ReplacedBy(row, proposal, now).Success?
    ensures ReplacedBy(row, proposal, now).value.proposal.creation == row.creation
  {
  }

  lemma ReplacingKeepsIds(proposal: Proposal, at: Text -> int)
    ensures KeepsIds(Replacing(proposal, at))
  {
    forall row | Replacing(proposal, at)(row).Some?
      ensures Replacing(proposal, at)(row).value.Id() == row.Id()
    {
      ReplacementKeepsId(row, proposal, at(row.Id()));
    }
  }

  lemma ReplacementIsOf(db: Db, proposal: Proposal, at: Text -> int, n: nat, r: Proposal)
    requires WellFormed(db) && n <= |db.order| && r in ReplacementsOf(db, proposal, at, n)
    ensures IsReplacementOf(db, proposal, at, r)
  {
    var rows := Values(db)[..n];
    CollectedFrom(rows, Replacing(proposal, at), r);
    var i :| 0 <= i < |rows| && Replacing(proposal, at)(rows[i]) == Some(r);
    assert rows[i] == db.rows[db.order[i]];
    ReplacementKeepsId(rows[i], proposal, at(rows[i].Id()));
  }

  lemma ReplacementFound(db: Db, proposal: Proposal, at: Text -> int, n: nat, i: nat)
    requires WellFormed(db) && i < n <= |db.order|
    requires Replaced(db.rows[db.order[i]], proposal.creation)
    requires ReplacedBy(db.rows[db.order[i]], proposal, at(db.order[i])).Success?
    ensures Among(ReplacementsOf(db, proposal, at, n), db.order[i])
  {
    var rows := Values(db)[..n];
    assert rows[i] == db.rows[db.order[i]];
    Collected(rows, Replacing(proposal, at), i);
    ReplacementKeepsId(rows[i], proposal, at(db.order[i]));
  }

  lemma ReplacementsDiffer(db: Db, proposal: Proposal, at: Text -> int, n: nat)
    requires WellFormed(db) && n <= |db.order|
    ensures DifferentIds(ReplacementsOf(db, proposal, at, n))
  {
    ReplacingKeepsIds(proposal, at);
    CollectDiffers(Values(db)[..n], Replacing(proposal, at));
  }

  lemma ReplacementsMore(db: Db, proposal: Proposal, at: Text -> int, n: nat)
    requires Known(db) && n < |db.order|
    ensures var one := Replacing(proposal, at)(db.rows[db.order[n]]);
            ReplacementsOf(db, proposal, at, n + 1)
            == ReplacementsOf(db, proposal, at, n) + (if one.Some? then [one.value] else [])
  {
    var rows := Values(db)[..n + 1];
    assert rows[..|rows| - 1] == Values(db)[..n];
  }

  lemma {:induction false} StoredAt(rows: map<Text, Proposal>, replacements: seq<Proposal>, n: nat, id: Text)
    requires n <= |replacements| && DifferentIds(replacements)
    requires forall i :: 0 <= i < |replacements| ==> replacements[i].Id() in rows
    ensures Stored(rows, replacements, n).Keys == rows.Keys
    ensures forall i :: 0 <= i < n && replacements[i].Id() == id ==>
              Stored(rows, replacements, n)[id] == replacements[i]
    ensures id in rows && (forall i :: 0 <= i < n ==> replacements[i].Id() != id) ==>
              Stored(rows, replacements, n)[id] == rows[id]
  {
    if n > 0 {
      StoredAt(rows, replacements, n - 1, id);
    }
  }

  /** The first `n` replacements are stored beside the new row, and the tool calls follow. */
  ghost predicate Halfway(before: Db, proposal: Proposal, replacements: seq<Proposal>, n: nat,
                          rows: map<Text, Proposal>, calls: map<Text, ToolCall>)
    requires n <= |replacements|
  {
    && rows == Stored(before.rows[proposal.Id() := proposal], replacements, n)
    && before.rows.Keys <= rows.Keys
    && calls == FollowAll(before.calls, before.rows, rows)
  }

  lemma ReplacedInOld(before: Db, proposal: Proposal, at: Text -> int, replacements: seq<Proposal>, i: nat)
    requires WellFormed(before)
    requires replacements == ReplacementsOf(before, proposal, at, |before.order|) && i < |replacements|
    ensures IsReplacementOf(before, proposal, at, replacements[i])
  {
    ReplacementIsOf(before, proposal, at, |before.order|, replacements[i]);
  }

  lemma HalfwayStart(before: Db, proposal: Proposal, replacements: seq<Proposal>)
    requires proposal.Id() !in before.rows
    ensures Halfway(before, proposal, replacements, 0, before.rows[proposal.Id() := proposal], before.calls)
  {
    FollowNothing(before.calls, before.rows, before.rows[proposal.Id() := proposal]);
  }

  lemma HalfwayStep(before: Db, proposal: Proposal, at: Text -> int, replacements: seq<Proposal>, n: nat,
                    rows: map<Text, Proposal>, calls: map<Text, ToolCall>)
    requires WellFormed(before) && proposal.Id() !in before.rows
    requires replacements == ReplacementsOf(before, proposal, at, |before.order|) && n < |replacements|
    requires Halfway(before, proposal, replacements, n, rows, calls)
    ensures var row := replacements[n];
            && row.Id() in rows
            && Halfway(before, proposal, replacements, n + 1, rows[row.Id() := row],
                       Follow(calls, rows[row.Id()], row))
  {
    var row, base := replacements[n], before.rows[proposal.Id() := proposal];
    forall i | 0 <= i < |replacements| ensures replacements[i].Id() in base {
      ReplacedInOld(before, proposal, at, replacements, i);
    }
    ReplacedInOld(before, proposal, at, replacements, n);
    ReplacementsDiffer(before, proposal, at, |before.order|);
    StoredAt(base, replacements, n, row.Id());
    FollowOneMore(before.calls, before.rows, rows, row.Id(), row);
  }

  lemma StoredIsReplaced(before: Db, proposal: Proposal, at: Text -> int, replacements: seq<Proposal>, id: Text)
    requires WellFormed(before) && proposal.Id() !in before.rows && id in before.rows
    requires Replacements(before, proposal, at, |before.order|, replacements)
    ensures var stored := Stored(before.rows[proposal.Id() := proposal], replacements, |replacements|);
            id in stored && stored[id] == ReplaceRows(before.rows, proposal, at)[id]
  {
    var base := before.rows[proposal.Id() := proposal];
    forall i | 0 <= i < |replacements| ensures replacements[i].Id() in base {
      ReplacedInOld(before, proposal, at, replacements, i);
    }
    ReplacementsDiffer(before, proposal, at, |before.order|);
    StoredAt(base, replacements, |replacements|, id);
    if Replaced(before.rows[id], proposal.creation) && ReplacedBy(before.rows[id], proposal, at(id)).Success? {
      var k :| 0 <= k < |before.order| && before.order[k] == id;
      ReplacementFound(before, proposal, at, |before.order|, k);
      var i :| 0 <= i < |replacements| && replacements[i].Id() == id;
      ReplacedInOld(before, proposal, at, replacements, i);
    } else {
      forall i | 0 <= i < |replacements| ensures replacements[i].Id() != id {
        ReplacedInOld(before, proposal, at, replacements, i);
      }
    }
  }

  lemma AllCanReplace(before: Db, proposal: Proposal, at: Text -> int, replacements: seq<Proposal>)
    requires WellFormed(before) && Replacements(before, proposal, at, |before.order|, replacements)
    ensures CanReplace(before, proposal, at)
  {
    forall id | id in before.rows && Replaced(before.rows[id], proposal.creation)
      ensures ReplacedBy(before.rows[id], proposal, at(id)).Success?
    {
      var k :| 0 <= k < |before.order| && before.order[k] == id;
    }
  }

  lemma NewRowStored(before: Db, proposal: Proposal, at: Text -> int, replacements: seq<Proposal>)
    requires WellFormed(before) && proposal.Id() !in before.rows
    requires replacements == ReplacementsOf(before, proposal, at, |before.order|)
    ensures var stored := Stored(before.rows[proposal.Id() := proposal], replacements, |replacements|);
            stored.Keys == before.rows.Keys + {proposal.Id()} && stored[proposal.Id()] == proposal
  {
    var base := before.rows[proposal.Id() := proposal];
    forall i | 0 <= i < |replacements|
      ensures replacements[i].Id() in base && replacements[i].Id() != proposal.Id()
    {
      ReplacedInOld(before, proposal, at, replacements, i);
    }
    ReplacementsDiffer(before, proposal, at, |before.order|);
    StoredAt(base, replacements, |replacements|, proposal.Id());
  }

  lemma RowsAllReplaced(before: Db, proposal: Proposal, at: Text -> int, replacements: seq<Proposal>)
    requires WellFormed(before) && proposal.Id() !in before.rows
    requires Replacements(before, proposal, at, |before.order|, replacements)
    ensures Stored(before.rows[proposal.Id() := proposal], replacements, |replacements|)
            == ReplaceRows(before.rows, proposal, at)[proposal.Id() := proposal]
  {
    NewRowStored(before, proposal, at, replacements);
    forall id | id in before.rows
      ensures Stored(before.rows[proposal.Id() := proposal], replacements, |replacements|)[id]
              == ReplaceRows(before.rows, proposal, at)[id]
    {
      StoredIsReplaced(before, proposal, at, replacements, id);
    }
    OneKeyMore(before.rows, ReplaceRows(before.rows, proposal, at),
               Stored(before.rows[proposal.Id() := proposal], replacements, |replacements|), proposal);
  }

  lemma OneKeyMore(rows: map<Text, Proposal>, fewer: map<Text, Proposal>, more: map<Text, Proposal>,
                   row: Proposal)
    requires fewer.Keys == rows.Keys && more.Keys == rows.Keys + {row.Id()} && row.Id() !in rows
    requires more[row.Id()] == row && forall id :: id in rows ==> more[id] == fewer[id]
    ensures more == fewer[row.Id() := row]
  {
  }

  lemma FollowIgnoresNew(calls: map<Text, ToolCall>, before: map<Text, Proposal>,
                         after: map<Text, Proposal>, id: Text, row: Proposal)
    requires before.Keys <= after.Keys && id !in before
    ensures FollowAll(calls, before, after[id := row]) == FollowAll(calls, before, after)
  {
  }

  /** Once every replacement is stored, the store is what the replacing create describes. */
  lemma AllReplaced(before: Db, input: Creation, now: int, at: Text -> int, replacements: seq<Proposal>,
                    rows: map<Text, Proposal>, calls: map<Text, ToolCall>)
    requires WellFormed(before) && CreationError(input).None? && input.id !in before.rows
    requires Initial(input, now).Success?
    requires Replacements(before, Initial(input, now).value, at, |before.order|, replacements)
    requires Halfway(before, Initial(input, now).value, replacements, |replacements|, rows, calls)
    ensures CreateReplacing(before, input, now, at)
            == (Db(rows, before.order + [input.id], before.threads, calls),
                Success(Created(New, Some(Initial(input, now).value))))
  {
    var proposal := Initial(input, now).value;
    AllCanReplace(before, proposal, at, replacements);
    RowsAllReplaced(before, proposal, at, replacements);
    FollowIgnoresNew(before.calls, before.rows, ReplaceRows(before.rows, proposal, at), input.id, proposal);
  }

  // ----- Specifications of the loops -----

  /** The first row holding the outcome, among the first `n` of creation order. */
  function Holder(db: Db, outcomeId: Text, n: nat): Option<Text>
    requires Known(db) && n <= |db.order|
  {
    if n == 0 then None
    else if Holder(db, outcomeId, n - 1).Some? then Holder(db, outcomeId, n - 1)
    else if HasOutcome(db.rows[db.order[n - 1]], outcomeId) then Some(db.order[n - 1])
    else None
  }

  lemma {:induction false} HolderFirst(db: Db, outcomeId: Text, i: nat, n: nat)
    requires Known(db) && i < n <= |db.order|
    requires Holder(db, outcomeId, i).None? && HasOutcome(db.rows[db.order[i]], outcomeId)
    ensures Holder(db, outcomeId, n) == Some(db.order[i])
  {
    if i < n - 1 {
      HolderFirst(db, outcomeId, i, n - 1);
    }
  }

  lemma {:induction false} HolderFinds(db: Db, lease: OutcomeLease, n: nat)
    requires WellFormed(db) && n <= |db.order|
    ensures Holder(db, lease.outcomeId, n).Some? ==> Finds(db, Holder(db, lease.outcomeId, n).value, lease)
  {
    if n > 0 {
      HolderFinds(db, lease, n - 1);
      assert Consistent(db.rows[db.order[n - 1]]);
    }
  }

  lemma AdmitIsStep(db: Db, id: Text, lease: OutcomeLease, now: int, messageId: Text)
    requires Finds(db, id, lease)
    ensures Step(db, DoAdmit(id, lease, now, messageId)) == AdmitRow(db, id, lease, now, messageId).0
  {
  }

  lemma AdmitKeepsWellFormed(db: Db, id: Text, lease: OutcomeLease, now: int, messageId: Text)
    requires WellFormed(db) && Finds(db, id, lease)
    ensures WellFormed(AdmitRow(db, id, lease, now, messageId).0)
  {
    AdmitIsStep(db, id, lease, now, messageId);
    StepKeepsWellFormed(db, DoAdmit(id, lease, now, messageId));
  }

  /** An outcome has one holder, if any: the proposal whose outcome it is. */
  lemma HolderIsProposal(db: Db, id: Text, n: nat)
    requires WellFormed(db) && n <= |db.order|
    ensures Holder(db, OutcomeId(id), n).Some? ==>
              Holder(db, OutcomeId(id), n).value == id && id in db.rows && db.rows[id].outcome.Some?
  {
    if n > 0 {
      HolderIsProposal(db, id, n - 1);
      var other := db.order[n - 1];
      if Holder(db, OutcomeId(id), n - 1).None? && HasOutcome(db.rows[other], OutcomeId(id)) {
        assert Consistent(db.rows[other]);
        OutcomeIdsDiffer(id, other);
      }
    }
  }

  /** `count` expired before the rest were tried. */
  predicate CountedFrom(all: (Db, Result<nat>), rest: (Db, Result<nat>), count: nat) {
    && all.0 == rest.0
    && all.1 == match rest.1
                case Failure(e) => Failure(e)
                case Success(n) => Success(count + n)
  }

  /** The calls once all but those in `todo` were looked at. */
  function Partly(calls: map<Text, ToolCall>, todo: set<Text>, runId: Text, error: Text): map<Text, ToolCall> {
    map c | c in calls :: if c in todo then calls[c] else FailedIfUnsettled(calls[c], runId, error)
  }

  lemma PartlyMore(calls: map<Text, ToolCall>, todo: set<Text>, c: Text, runId: Text, error: Text)
    requires c in todo && c in calls
    ensures Partly(calls, todo, runId, error)[c := FailedIfUnsettled(calls[c], runId, error)]
            == Partly(calls, todo - {c}, runId, error)
  {
  }

  lemma PartlyAll(db: Db, runId: Text, error: Text)
    ensures Partly(db.calls, db.calls.Keys, runId, error) == db.calls
    ensures db.(calls := Partly(db.calls, {}, runId, error)) == FailUnsettled(db, runId, error)
  {
  }

  lemma TodoLess(mine: set<Text>, todo: set<Text>, c: Text)
    requires c in todo
    ensures |mine * todo| == |mine * (todo - {c})| + if c in mine then 1 else 0
  {
    if c in mine {
      assert mine * todo == mine * (todo - {c}) + {c};
    } else {
      assert mine * todo == mine * (todo - {c});
    }
  }

  lemma ExpireStep(all: (Db, Result<nat>), db: Db, candidates: seq<Proposal>, clock: nat -> int, k: nat,
                   count: nat, next: Db, answer: Result<Mutated>)
    requires candidates != []
    requires CountedFrom(all, TryExpire(db, candidates, clock, k), count)
    requires (next, answer) == Mutate(db, candidates[0].Scope(), candidates[0].Id(), OpDecide(EXPIRES), clock(k + 1))
    ensures answer.Failure? ==> all == (next, Failure(answer.error))
    ensures answer.Success? ==>
              CountedFrom(all, TryExpire(next, candidates[1..], clock, k + 1),
                          if answer.value.status == Applied then count + 1 else count)
  {
  }

  lemma ClaimStep(all: (Db, Result<Option<Proposal>>), db: Db, candidates: seq<Proposal>, command: ClaimCommand,
                  clock: nat -> int, tokens: nat -> Text, k: nat, next: Db, answer: Result<Mutated>)
    requires candidates != []
    requires all == TryClaims(db, candidates, command, clock, tokens, k)
    requires (next, answer)
             == Mutate(db, candidates[0].Scope(), candidates[0].Id(), OpClaim(command, tokens(k)), clock(k + 1))
    ensures answer.Failure? ==> all == (next, Failure(answer.error))
    ensures answer.Success? && answer.value.status == Applied && answer.value.proposal.Some? ==>
              all == (next, Success(answer.value.proposal))
    ensures answer.Success? && !(answer.value.status == Applied && answer.value.proposal.Some?) ==>
              all == TryClaims(next, candidates[1..], command, clock, tokens, k + 1)
  {
  }

  lemma OutcomeStep(db: Db, candidates: seq<Proposal>, command: ClaimCommand, clock: nat -> int,
                    tokens: nat -> Text, k: nat)
    requires candidates != []
    ensures var all := TryOutcomes(db, candidates, command, clock, tokens, k);
            var id := candidates[0].Id();
            if id !in db.rows then all == TryOutcomes(db, candidates[1..], command, clock, tokens, k)
            else
              var next := ClaimOutcome(db.rows[id], command, clock(k + 1), tokens(k));
              if next.Failure? then all == (db, Failure(next.error))
              else if next.value.Some? && IsLeased(next.value.value) then
                all == (db.(rows := db.rows[id := next.value.value]), Success(Some(HandOver(next.value.value))))
              else all == TryOutcomes(db, candidates[1..], command, clock, tokens, k + 1)
  {
  }

  lemma HandedOutSteps(db: Db, command: ClaimCommand, clock: nat -> int, tokens: nat -> Text,
                       id: Text, k: nat, next: Db, handed: Delivered)
    requires HandedOutAt(db, command, clock, tokens, id, k, next, handed)
    ensures next == Step(db, DoDispatch(id, command, clock(k + 1), tokens(k)))
  {
  }

  lemma HandedOutWellFormed(db: Db, command: ClaimCommand, clock: nat -> int, tokens: nat -> Text,
                            next: Db, answer: Result<Option<Delivered>>)
    requires WellFormed(db) && HandedOut(db, command, clock, tokens, next, answer)
    ensures WellFormed(next)
  {
    if answer.Success? && answer.value.Some? {
      var id, k: nat :| HandedOutAt(db, command, clock, tokens, id, k, next, answer.value.value);
      HandedOutSteps(db, command, clock, tokens, id, k, next, answer.value.value);
      StepKeepsWellFormed(db, DoDispatch(id, command, clock(k + 1), tokens(k)));
    }
  }

  lemma StoreStaysWellFormed(db: Db, command: ClaimCommand, clock: nat -> int, tokens: nat -> Text)
    requires WellFormed(db)
    ensures WellFormed(ClaimNextOutcome(db, command, clock, tokens).0)
  {
    ClaimNextOutcomeHandsOut(db, command, clock, tokens);
    var (next, answer) := ClaimNextOutcome(db, command, clock, tokens);
    HandedOutWellFormed(db, command, clock, tokens, next, answer);
  }

  function Unsettled(calls: map<Text, ToolCall>, runId: Text): set<Text> {
    set c | c in calls && calls[c].runId == Some(runId) && calls[c].status == PendingApproval
  }

  function FailedIfUnsettled(call: ToolCall, runId: Text, error: Text): ToolCall {
    if call.runId == Some(runId) && call.status == PendingApproval
    then call.(status := CallFailed, error := Some(error)) else call
  }

  class Store {
    var rows: map<Text, Proposal>
    /** The ids in the order their rows were added, which is how the rows are iterated. */
    var order: seq<Text>
    var threads: map<Text, Thread>
    var calls: map<Text, ToolCall>

    function View(): Db
      reads this
    {
      Db(rows, order, threads, calls)
    }

    ghost predicate Valid()
      reads this
    {
      WellFormed(View())
    }

    constructor ()
      ensures View() == EMPTY && Valid()
    {
      rows, order, threads, calls := map[], [], map[], map[];
    }

    // ----- Proposals -----

    method CreateActionProposal(input: Creation, now: int) returns (answer: Result<Created>)
      requires Valid()
      modifies this
      ensures (View(), answer) == Create(old(View()), input, now)
      ensures Valid()
    {
      StepKeepsWellFormed(View(), DoCreate(input, now));
      var error := CreationError(input);
      if error.Some? {
        return Failure(error.value);
      }
      if input.id in rows {
        var row := rows[input.id];
        if row.Scope() != input.scope {
          return Success(Created(Clash, None));
        }
        return Success(Created(if row.creation == input then Same else Clash, Some(row)));
      }
      var initial := Initial(input, now);
      if initial.Failure? {
        return Failure(initial.error);
      }
      rows, order := rows[input.id := initial.value], order + [input.id];
      answer := Success(Created(New, Some(initial.value)));
    }

    method GetActionProposal(scope: Scope, id: Text) returns (row: Option<Proposal>)
      ensures row == Find(View(), scope, id)
    {
      if id in rows && rows[id].Scope() == scope {
        return Some(rows[id]);
      }
      row := None;
    }

    /** The rows, oldest id first: what iterating the map yields. */
    method Iterate() returns (values: seq<Proposal>)
      requires Valid()
      ensures values == Values(View())
    {
      values := [];
      for i := 0 to |order|
        invariant values == Values(View())[..i]
      {
        values := values + [rows[order[i]]];
      }
    }

    method ListActionProposals(scope: Scope, query: Query) returns (page: Result<seq<Proposal>>)
      requires Valid()
      ensures page == List(View(), scope, query)
    {
      var limit := LimitOf(query);
      if limit.Failure? {
        return Failure(limit.error);
      }
      var values := Iterate();
      var found := Sort(Filter(values, Matching(scope, query.decision, query.after)), RowLess);
      page := Success(Take(found, limit.value));
    }

    method MutateRow(scope: Scope, id: Text, op: ClientOp, now: int) returns (answer: Result<Mutated>)
      requires Valid()
      modifies this
      ensures (View(), answer) == Mutate(old(View()), scope, id, op, now)
      ensures Valid()
    {
      StepKeepsWellFormed(View(), DoMutate(scope, id, op, now));
      answer := Transact(scope, id, op, now);
    }

    /** Decides, claims, extends, settles or supersedes one row, and has its tool call follow. */
    method Transact(scope: Scope, id: Text, op: RowOp, now: int) returns (answer: Result<Mutated>)
      modifies this
      ensures (View(), answer) == Mutate(old(View()), scope, id, op, now)
    {
      if id !in rows || rows[id].Scope() != scope {
        return Success(Mutated(NotFound, None));
      }
      var row := rows[id];
      var result := Transition(row, op, now);
      if result.Failure? {
        return Failure(result.error);
      }
      rows := rows[id := result.value.proposal];
      ProposalChanged(row, result.value.proposal);
      answer := Success(Mutated(result.value.status, Some(result.value.proposal)));
    }

    /** A proposal moved: its tool-call record follows it. */
    method ProposalChanged(previous: Proposal, next: Proposal)
      modifies this`calls
      ensures calls == Follow(old(calls), previous, next)
    {
      var update := TransitionUpdate(previous, next);
      var callId := next.creation.originToolCallId;
      if update.None? || callId !in calls || calls[callId].proposalId != Some(next.Id()) {
        return;
      }
      calls := calls[callId := Updated(calls[callId], update.value)];
    }

    method SupersedeActionProposal(scope: Scope, id: Text, command: SupersedeCommand, now: int)
      returns (answer: Result<Mutated>)
      requires Valid()
      modifies this
      ensures (View(), answer) == AgentDb.Supersede(old(View()), scope, id, command, now)
      ensures Valid()
    {
      StepKeepsWellFormed(View(), DoSupersede(scope, id, command, now));
      var replacement := GetActionProposal(scope, command.replacementId);
      if replacement.None? {
        return Success(Mutated(NotFound, None));
      }
      answer := Transact(scope, id, OpSupersede(replacement.value, command), now);
    }

    /** The pending rows of the new row's slot, as they will be once superseded. */
    method Supersessions(proposal: Proposal, at: Text -> int) returns (found: Result<seq<Proposal>>)
      requires Valid() && proposal.Id() !in rows
      requires proposal.Id() != [] && proposal.creation.scope.actorRef != []
      ensures found.Success? ==> Replacements(View(), proposal, at, |order|, found.value)
      ensures found.Failure? ==> found.error == RangeError && !CanReplace(View(), proposal, at)
    {
      var replacements: seq<Proposal> := [];
      for i := 0 to |order|
        invariant Replacements(View(), proposal, at, i, replacements)
      {
        var row := rows[order[i]];
        ReplacementsMore(View(), proposal, at, i);
        if Replaced(row, proposal.creation) {
          var result := ReplacedBy(row, proposal, at(row.Id()));
          if result.Failure? {
            NotAllReplaced(View(), proposal, at, order[i]);
            return Failure(result.error);
          }
          replacements := replacements + [result.value.proposal];
        }
      }
      found := Success(replacements);
    }

    method StoreReplacement(row: Proposal)
      requires row.Id() in rows
      modifies this`rows, this`calls
      ensures rows == old(rows)[row.Id() := row]
      ensures calls == Follow(old(calls), old(rows)[row.Id()], row)
    {
      var previous := rows[row.Id()];
      rows := rows[row.Id() := row];
      ProposalChanged(previous, row);
    }

    /** Stores the new row, then every replacement. */
    method StoreReplacements(proposal: Proposal, ghost at: Text -> int, replacements: seq<Proposal>)
      requires Valid() && proposal.Id() !in rows
      requires replacements == ReplacementsOf(View(), proposal, at, |order|)
      modifies this
      ensures threads == old(threads) && order == old(order) + [proposal.Id()]
      ensures Halfway(old(View()), proposal, replacements, |replacements|, rows, calls)
    {
      ghost var before := View();
      HalfwayStart(before, proposal, replacements);
      rows, order := rows[proposal.Id() := proposal], order + [proposal.Id()];
      for i := 0 to |replacements|
        invariant threads == before.threads && order == before.order + [proposal.Id()]
        invariant Halfway(before, proposal, replacements, i, rows, calls)
      {
        HalfwayStep(before, proposal, at, replacements, i, rows, calls);
        StoreReplacement(replacements[i]);
      }
    }

    /**
     * Creates a keyed proposal and supersedes the pending ones of its slot: every replacement is
     * computed before anything changes, so a throw leaves the store as it was.
     */
    method CreateReplacingActionProposal(input: Creation, now: int, at: Text -> int)
      returns (answer: Result<Created>)
      requires Valid()
      modifies this
      ensures (View(), answer) == CreateReplacing(old(View()), input, now, at)
      ensures Valid()
    {
      StepKeepsWellFormed(View(), DoCreateReplacing(input, now, at));
      var error := CreationError(input);
      if error.Some? {
        return Failure(error.value);
      }
      if input.id in rows {
        answer := CreateActionProposal(input, now);
        return;
      }
      var initial := Initial(input, now);
      if initial.Failure? {
        return Failure(initial.error);
      }
      var proposal := initial.value;
      var replacements := Supersessions(proposal, at);
      if replacements.Failure? {
        return Failure(replacements.error);
      }
      ghost var before := View();
      StoreReplacements(proposal, at, replacements.value);
      AllReplaced(before, input, now, at, replacements.value, rows, calls);
      answer := Success(Created(New, Some(proposal)));
    }

    // ----- Discovery -----

    method ClaimNextActionProposal(command: ClaimCommand, clock: nat -> int, tokens: nat -> Text)
      returns (claimed: Result<Option<Proposal>>)
      requires Valid()
      modifies this
      ensures (View(), claimed) == ClaimNext(old(View()), command, clock, tokens)
      ensures Valid()
    {
      var error := WorkerClaimError(command, clock(0));
      if error.Some? {
        return Failure(error.value);
      }
      var values := Iterate();
      var candidates := Take(Sort(Filter(values, IsClaimable(clock(0))), RowLess), ATTEMPTS);
      TryClaimsWellFormed(View(), candidates, command, clock, tokens, 0);
      claimed := ClaimFirst(candidates, command, clock, tokens);
    }

    method ClaimFirst(candidates: seq<Proposal>, command: ClaimCommand, clock: nat -> int, tokens: nat -> Text)
      returns (claimed: Result<Option<Proposal>>)
      modifies this
      ensures (View(), claimed) == TryClaims(old(View()), candidates, command, clock, tokens, 0)
    {
      ghost var all := TryClaims(View(), candidates, command, clock, tokens, 0);
      for k := 0 to |candidates|
        invariant all == TryClaims(View(), candidates[k..], command, clock, tokens, k)
      {
        ghost var rest, db := candidates[k..], View();
        var candidate := candidates[k];
        var answer := Transact(candidate.Scope(), candidate.Id(), OpClaim(command, tokens(k)), clock(k + 1));
        ClaimStep(all, db, rest, command, clock, tokens, k, View(), answer);
        if answer.Failure? {
          return Failure(answer.error);
        }
        if answer.value.status == Applied && answer.value.proposal.Some? {
          return Success(answer.value.proposal);
        }
        assert rest[1..] == candidates[k + 1..];
      }
      claimed := Success(None);
    }

    method ExpireActionProposals(limit: int, clock: nat -> int) returns (expired: Result<nat>)
      requires Valid()
      modifies this
      ensures (View(), expired) == ExpireDue(old(View()), limit, clock)
      ensures Valid()
    {
      if !SafeInteger(clock(0)) || limit < 1 || limit > 1000 {
        return Failure(RangeError);
      }
      var values := Iterate();
      var candidates := Take(Sort(Filter(values, IsDue(clock(0))), RowLess), limit);
      TryExpireWellFormed(View(), candidates, clock, 0);
      expired := ExpireEach(candidates, clock);
    }

    method ExpireEach(candidates: seq<Proposal>, clock: nat -> int) returns (expired: Result<nat>)
      modifies this
      ensures (View(), expired) == TryExpire(old(View()), candidates, clock, 0)
    {
      ghost var all := TryExpire(View(), candidates, clock, 0);
      var count := 0;
      for k := 0 to |candidates|
        invariant CountedFrom(all, TryExpire(View(), candidates[k..], clock, k), count)
      {
        ghost var rest, db := candidates[k..], View();
        var candidate := candidates[k];
        var answer := Transact(candidate.Scope(), candidate.Id(), OpDecide(EXPIRES), clock(k + 1));
        ExpireStep(all, db, rest, clock, k, count, View(), answer);
        if answer.Failure? {
          return Failure(answer.error);
        }
        if answer.value.status == Applied {
          count := count + 1;
        }
        assert rest[1..] == candidates[k + 1..];
      }
      expired := Success(count);
    }

    method ClaimNextActionProposalOutcome(command: ClaimCommand, clock: nat -> int, tokens: nat -> Text)
      returns (handed: Result<Option<Delivered>>)
      requires Valid()
      modifies this
      ensures (View(), handed) == ClaimNextOutcome(old(View()), command, clock, tokens)
      ensures Valid()
    {
      StoreStaysWellFormed(View(), command, clock, tokens);
      var error := WorkerClaimError(command, clock(0));
      if error.Some? {
        return Failure(error.value);
      }
      var values := Iterate();
      var candidates := Take(Sort(Filter(values, IsDeliverable(clock(0))), RowLess), ATTEMPTS);
      handed := HandOutFirst(candidates, command, clock, tokens);
    }

    method HandOutFirst(candidates: seq<Proposal>, command: ClaimCommand, clock: nat -> int, tokens: nat -> Text)
      returns (handed: Result<Option<Delivered>>)
      modifies this`rows
      ensures (View(), handed) == TryOutcomes(old(View()), candidates, command, clock, tokens, 0)
    {
      var attempt := 0;
      for i := 0 to |candidates|
        invariant View() == old(View())
        invariant TryOutcomes(View(), candidates, command, clock, tokens, 0)
                  == TryOutcomes(View(), candidates[i..], command, clock, tokens, attempt)
      {
        OutcomeStep(View(), candidates[i..], command, clock, tokens, attempt);
        assert candidates[i..][1..] == candidates[i + 1..];
        var id := candidates[i].Id();
        if id in rows {
          var next := ClaimOutcome(rows[id], command, clock(attempt + 1), tokens(attempt));
          if next.Failure? {
            return Failure(next.error);
          }
          if next.value.Some? && IsLeased(next.value.value) {
            rows := rows[id := next.value.value];
            return Success(Some(HandOver(next.value.value)));
          }
          attempt := attempt + 1;
        }
      }
      handed := Success(None);
    }

    // ----- Delivery -----

    /** The row holding the outcome, if any. */
    method FindHolder(outcomeId: Text) returns (holder: Option<Text>)
      requires Known(View())
      ensures holder == Holder(View(), outcomeId, |order|)
    {
      for i := 0 to |order|
        invariant Holder(View(), outcomeId, i).None?
      {
        if HasOutcome(rows[order[i]], outcomeId) {
          HolderFirst(View(), outcomeId, i, |order|);
          return Some(order[i]);
        }
      }
      holder := None;
    }

    /** Appends the outcome's message to its thread, once, while no run holds the thread. */
    method AdmitActionProposalOutcome(lease: OutcomeLease, now: int, messageId: Text)
      returns (answer: Result<Admission>)
      requires Valid()
      modifies this
      ensures match Holder(old(View()), lease.outcomeId, |old(order)|)
              case None => View() == old(View()) && answer == Success(Admission(Missing, None))
              case Some(id) =>
                id in old(rows) && Finds(old(View()), id, lease)
                && (View(), answer) == AdmitRow(old(View()), id, lease, now, messageId)
      ensures Valid()
    {
      var holder := FindHolder(lease.outcomeId);
      if holder.None? {
        return Success(Admission(Missing, None));
      }
      HolderFinds(View(), lease, |order|);
      AdmitKeepsWellFormed(View(), holder.value, lease, now, messageId);
      answer := AdmitTo(holder.value, lease, now, messageId);
    }

    method AdmitTo(id: Text, lease: OutcomeLease, now: int, messageId: Text)
      returns (answer: Result<Admission>)
      requires Finds(View(), id, lease)
      modifies this
      ensures (View(), answer) == AdmitRow(old(View()), id, lease, now, messageId)
    {
      var row := rows[id];
      var delivery := row.delivery.value;
      if delivery.status == Admitted {
        return Success(Admission(Already, delivery.messageId));
      }
      if delivery.status == Discarded {
        return Success(Admission(Gone, None));
      }
      var fence := FenceValid(row, lease, now);
      if fence.Failure? {
        return Failure(fence.error);
      }
      if !fence.value {
        return Success(Admission(Refused, None));
      }
      var threadId := row.Scope().threadId;
      if threadId !in threads {
        rows := rows[id := Discard(row)];
        return Success(Admission(Gone, None));
      }
      var thread := threads[threadId];
      if thread.actorRef != row.Scope().actorRef || thread.tenantRef != row.Scope().tenantRef {
        return Success(Admission(Refused, None));
      }
      if !Free(thread) {
        return Success(Admission(Busy, None));
      }
      var message := Message(messageId, row.outcome);
      threads := threads[threadId := thread.(messages := thread.messages + [message])];
      rows := rows[id := Admit(row, messageId)];
      answer := Success(Admission(Done, Some(messageId)));
    }

    // ----- Threads -----

    method ClaimActiveStream(threadId: Text, runId: Text, replacing: Option<Text>) returns (claimed: bool)
      modifies this`threads
      ensures (View(), claimed) == ClaimStream(old(View()), threadId, runId, replacing)
    {
      if threadId !in threads {
        return false;
      }
      var holder := threads[threadId].activeStream;
      if holder.Some? && holder != Some(runId) && (replacing.None? || holder != replacing) {
        return false;
      }
      threads := threads[threadId := threads[threadId].(activeStream := Some(runId))];
      claimed := true;
    }

    method ReleaseActiveStream(threadId: Text, runId: Text) returns (released: bool)
      modifies this`threads
      ensures (View(), released) == ReleaseStream(old(View()), threadId, runId)
    {
      if threadId !in threads || threads[threadId].activeStream != Some(runId) {
        return false;
      }
      threads := threads[threadId := threads[threadId].(activeStream := None)];
      released := true;
    }

    // ----- Tool calls -----

    method RecordToolCall(callId: Text, call: ToolCall)
      modifies this`calls
      ensures View() == RecordCall(old(View()), callId, call)
    {
      calls := calls[callId := call];
    }

    /** Fails what a dead run left waiting for approval; proposed calls are not its to fail. */
    method FailUnsettledToolCalls(runId: Text, error: Text) returns (settled: nat)
      modifies this`calls
      ensures View() == FailUnsettled(old(View()), runId, error)
      ensures settled == |Unsettled(old(calls), runId)|
    {
      settled := 0;
      ghost var before, mine := calls, Unsettled(calls, runId);
      PartlyAll(View(), runId, error);
      var todo := calls.Keys;
      assert mine * todo == mine;
      while todo != {}
        invariant todo <= before.Keys
        invariant calls == Partly(before, todo, runId, error)
        invariant settled + |mine * todo| == |mine|
        decreases |todo|
      {
        var c :| c in todo;
        TodoLess(mine, todo, c);
        PartlyMore(before, todo, c, runId, error);
        var call := calls[c];
        if call.runId == Some(runId) && call.status == PendingApproval {
          settled := settled + 1;
        }
        calls := calls[c := FailedIfUnsettled(call, runId, error)];
        todo := todo - {c};
      }
      assert mine * {} == {};
    }
  }
}
