/**
 * What workers are given and pages show, told from the stored rows, the command and the clock alone:
 * when the call throws, which rows it looks at, and which of them it takes.
 */
module DiscoveryAnswers {
  import opened Common
  import opened Sorting
  import opened ActionProposals
  import opened ProposalRows
  import opened AgentDb
  import opened ProposalAnswers
  import opened StoreAnswers
  import opened Paging
  import opened Discovery

  // ----- The order of rows -----

  /** Created earlier, or at the same time under a lesser id. */
  predicate IsOlder(a: Proposal, b: Proposal) {
    a.createdAt < b.createdAt || (a.createdAt == b.createdAt && TextLess(a.creation.id, b.creation.id))
  }

  /**
   * The oldest rows worth keeping, oldest first, as many as `limit`: all of them, or those older than
   * any other.
   */
  ghost predicate AreOldest(db: Db, keep: Proposal -> bool, limit: nat, batch: seq<Proposal>) {
    && |batch| <= limit
    && (forall i, j :: 0 <= i < j < |batch| ==> IsOlder(batch[i], batch[j]))
    && (forall i :: 0 <= i < |batch| ==>
          batch[i].creation.id in db.rows && db.rows[batch[i].creation.id] == batch[i] && keep(batch[i]))
    && (forall id :: id in db.rows && keep(db.rows[id]) ==> IsTaken(db.rows[id], limit, batch))
  }

  predicate IsTaken(row: Proposal, limit: nat, batch: seq<Proposal>) {
    row in batch || (|batch| == limit > 0 && IsOlder(batch[limit - 1], row))
  }

  // ----- What is worth keeping -----

  /** Free for a worker to take. */
  function Free(now: int): (keep: Proposal -> bool) {
    (row: Proposal) => IsFree(row, now)
  }

  /** With an outcome that waits for somebody to deliver it. */
  function Undelivered(now: int): (keep: Proposal -> bool) {
    (row: Proposal) => IsWaiting(row, now)
  }

  /** Pending, and its time is up. */
  function Overdue(now: int): (keep: Proposal -> bool) {
    (row: Proposal) => row.decision == Pending && TimeIsUp(row, now)
  }

  /** In the caller's scope, decided as asked for, and past the cursor. */
  function Listed(scope: Scope, query: Query): (keep: Proposal -> bool) {
    (row: Proposal) => IsListed(row, scope, query)
  }

  predicate IsListed(row: Proposal, scope: Scope, query: Query) {
    && row.creation.scope == scope
    && (match query.decision case None => true case Some(decision) => row.decision == decision)
    && (match query.after
        case None => true
        case Some(cursor) =>
          || cursor.createdAt < row.createdAt
          || (cursor.createdAt == row.createdAt && TextLess(cursor.id, row.creation.id)))
  }

  lemma OlderIsLess(a: Proposal, b: Proposal)
    ensures RowLess(a, b) <==> IsOlder(a, b)
  {
  }

  lemma OldestFound(db: Db, keep: Proposal -> bool, same: Proposal -> bool, limit: nat)
    requires WellFormed(db) && limit > 0
    requires forall id :: id in db.rows ==> keep(db.rows[id]) == same(db.rows[id])
    ensures AreOldest(db, same, limit, Take(Found(db, keep), limit))
  {
    TakeIsPage(db, keep, limit);
    var batch := Take(Found(db, keep), limit);
    forall id | id in db.rows && same(db.rows[id]) ensures IsTaken(db.rows[id], limit, batch) {
      assert IsLeft(db.rows[id], limit, batch);
    }
    forall i, j | 0 <= i < j < |batch| ensures IsOlder(batch[i], batch[j]) {
      OlderIsLess(batch[i], batch[j]);
    }
  }

  // ----- Claiming the next proposal -----

  predicate ProperClaim(command: ClaimCommand, now: int) {
    IsExactLease(command.leaseMs, now) && |command.workerId| > 0
  }

  /** What an improper claim throws. */
  function Thrown(command: ClaimCommand, now: int): Error {
    if IsExact(now) && |command.workerId| == 0 then TypeError else RangeError
  }

  /** The claimed row, under the next generation, and nothing else changed but its call's record. */
  predicate IsTakenBy(db: Db, next: Db, row: Proposal, command: ClaimCommand, now: int, token: Text,
                      taken: Proposal)
  {
    && row.creation.id in db.rows
    && row.execution.Some?
    && var generation := row.execution.value.generation + 1;
       var lease := Lease(token, generation, command.workerId, now + command.leaseMs);
       && taken == row.(execution := Some(Execution(Executing, generation, Some(lease), None, None)),
                        updatedAt := now)
       && OnlyRow(db, next, row.creation.id, taken)
  }

  lemma ClaimOneAnswers(db: Db, row: Proposal, command: ClaimCommand, now: int, token: Text)
    requires WellFormed(db) && row.creation.id in db.rows && db.rows[row.creation.id] == row
    ensures var (next, answer) := Mutate(db, row.Scope(), row.Id(), OpClaim(command, token), now);
            if !(ProperClaim(command, now) && |token| > 0) then
              next == db && answer == Failure(if IsExactLease(command.leaseMs, now) then TypeError else RangeError)
            else
              && answer.Success?
              && (answer.value.status == Applied <==> IsFree(row, now))
              && (!IsFree(row, now) ==> next == db)
              && (IsFree(row, now) ==>
                    answer.value.proposal.Some?
                    && IsTakenBy(db, next, row, command, now, token, answer.value.proposal.value))
  {
    MutateAnswers(db, row.creation.scope, row.creation.id, OpClaim(command, token), now);
    ClaimThrows(row, command, now, token);
    if ProperClaim(command, now) && |token| > 0 {
      ClaimAnswers(row, command, now, token);
      assert db.rows[row.creation.id := row] == db.rows;
    }
  }

  /** An attempt that found its row no longer free, and went on to the next. */
  predicate PassedOver(row: Proposal, command: ClaimCommand, now: int, token: Text) {
    ProperClaim(command, now) && |token| > 0 && !IsFree(row, now)
  }

  /** The attempts from `k` on: those before `n` were passed over, and `n` decides. */
  ghost predicate Tried(db: Db, batch: seq<Proposal>, command: ClaimCommand, clock: nat -> int, tokens: nat -> Text,
                        k: nat, n: nat, next: Db, answer: Result<Option<Proposal>>)
  {
    && n <= |batch|
    && (forall j: nat :: j < n ==> PassedOver(batch[j], command, clock(k + j + 1), tokens(k + j)))
    && if n == |batch| then next == db && answer == Success(None)
       else if !(ProperClaim(command, clock(k + n + 1)) && |tokens(k + n)| > 0) then
         && next == db
         && answer == Failure(if IsExactLease(command.leaseMs, clock(k + n + 1)) then TypeError else RangeError)
       else
         && IsFree(batch[n], clock(k + n + 1))
         && answer.Success? && answer.value.Some?
         && IsTakenBy(db, next, batch[n], command, clock(k + n + 1), tokens(k + n), answer.value.value)
  }

  lemma TriedMore(db: Db, batch: seq<Proposal>, command: ClaimCommand, clock: nat -> int, tokens: nat -> Text,
                  k: nat, n: nat, next: Db, answer: Result<Option<Proposal>>)
    requires batch != [] && PassedOver(batch[0], command, clock(k + 1), tokens(k))
    requires Tried(db, batch[1..], command, clock, tokens, k + 1, n, next, answer)
    ensures Tried(db, batch, command, clock, tokens, k, n + 1, next, answer)
  {
    forall j: nat | j < n + 1 ensures PassedOver(batch[j], command, clock(k + j + 1), tokens(k + j)) {
      if j > 0 {
        assert batch[1..][j - 1] == batch[j] && k + 1 + (j - 1) == k + j;
      }
    }
    assert k + 1 + n == k + (n + 1);
  }

  /** The first attempt decides. */
  lemma TriedNow(db: Db, batch: seq<Proposal>, command: ClaimCommand, clock: nat -> int, tokens: nat -> Text,
                 k: nat, next: Db, answer: Result<Option<Proposal>>)
    requires batch != [] && !PassedOver(batch[0], command, clock(k + 1), tokens(k))
    requires if !(ProperClaim(command, clock(k + 1)) && |tokens(k)| > 0) then
               && next == db
               && answer == Failure(if IsExactLease(command.leaseMs, clock(k + 1)) then TypeError else RangeError)
             else
               && answer.Success? && answer.value.Some?
               && IsTakenBy(db, next, batch[0], command, clock(k + 1), tokens(k), answer.value.value)
    ensures Tried(db, batch, command, clock, tokens, k, 0, next, answer)
  {
    assert k + 0 + 1 == k + 1 && k + 0 == k;
  }

  predicate AreStored(db: Db, batch: seq<Proposal>) {
    forall i :: 0 <= i < |batch| ==> batch[i].creation.id in db.rows && db.rows[batch[i].creation.id] == batch[i]
  }

  lemma TryClaimsFirst(db: Db, candidates: seq<Proposal>, command: ClaimCommand, clock: nat -> int,
                       tokens: nat -> Text, k: nat)
    requires candidates != []
    ensures var (next, answer) :=
              Mutate(db, candidates[0].Scope(), candidates[0].Id(), OpClaim(command, tokens(k)), clock(k + 1));
            TryClaims(db, candidates, command, clock, tokens, k)
            == if answer.Failure? then (next, Failure(answer.error))
               else if answer.value.status == Applied && answer.value.proposal.Some?
               then (next, Success(answer.value.proposal))
               else TryClaims(next, candidates[1..], command, clock, tokens, k + 1)
  {
  }

  lemma {:induction false} TryClaimsTries(db: Db, batch: seq<Proposal>, command: ClaimCommand, clock: nat -> int,
                                          tokens: nat -> Text, k: nat)
    returns (n: nat)
    requires WellFormed(db) && AreStored(db, batch)
    ensures var (next, answer) := TryClaims(db, batch, command, clock, tokens, k);
            Tried(db, batch, command, clock, tokens, k, n, next, answer)
    decreases |batch|
  {
    n := 0;
    if batch != [] {
      TryClaimsFirst(db, batch, command, clock, tokens, k);
      ClaimOneAnswers(db, batch[0], command, clock(k + 1), tokens(k));
      if PassedOver(batch[0], command, clock(k + 1), tokens(k)) {
        assert AreStored(db, batch[1..]);
        n := TryClaimsTries(db, batch[1..], command, clock, tokens, k + 1);
        var (next, answer) := TryClaims(db, batch[1..], command, clock, tokens, k + 1);
        TriedMore(db, batch, command, clock, tokens, k, n, next, answer);
        n := n + 1;
      } else {
        var (next, answer) := TryClaims(db, batch, command, clock, tokens, k);
        TriedNow(db, batch, command, clock, tokens, k, next, answer);
      }
    }
  }

  lemma FreeFound(db: Db, now: int)
    requires WellFormed(db)
    ensures AreOldest(db, Free(now), 32, Take(Found(db, IsClaimable(now)), ATTEMPTS))
  {
    forall id | id in db.rows ensures IsClaimable(now)(db.rows[id]) == Free(now)(db.rows[id]) {
    }
    OldestFound(db, IsClaimable(now), Free(now), 32);
  }

  lemma BatchStored(db: Db, keep: Proposal -> bool, limit: nat, batch: seq<Proposal>)
    requires AreOldest(db, keep, limit, batch)
    ensures AreStored(db, batch)
  {
  }

  /**
   * Claiming the next proposal throws at once on an improper command or clock. Otherwise it tries the
   * oldest free proposals, 32 at most, in turn, each at its own reading of the clock: the first still
   * free then is claimed, and none only if all of them were taken meanwhile.
   */
  lemma ClaimNextAnswers(db: Db, command: ClaimCommand, clock: nat -> int, tokens: nat -> Text)
    returns (batch: seq<Proposal>, n: nat)
    requires WellFormed(db)
    ensures var (next, answer) := ClaimNext(db, command, clock, tokens);
            if !ProperClaim(command, clock(0)) then next == db && answer == Failure(Thrown(command, clock(0)))
            else
              && AreOldest(db, Free(clock(0)), 32, batch)
              && Tried(db, batch, command, clock, tokens, 0, n, next, answer)
  {
    batch, n := Take(Found(db, IsClaimable(clock(0))), ATTEMPTS), 0;
    if ProperClaim(command, clock(0)) {
      FreeFound(db, clock(0));
      BatchStored(db, Free(clock(0)), 32, batch);
      n := TryClaimsTries(db, batch, command, clock, tokens, 0);
    }
  }

  /**
   * While the clock stands still, a proper claim takes the oldest free proposal, and none only where
   * none is free.
   */
  lemma OldestIsClaimed(db: Db, command: ClaimCommand, clock: nat -> int, tokens: nat -> Text)
    requires WellFormed(db) && clock(1) == clock(0) && |tokens(0)| > 0
    ensures var (next, answer) := ClaimNext(db, command, clock, tokens);
            && (answer.Success? <==> ProperClaim(command, clock(0)))
            && (answer.Success? ==>
                  (answer.value.None? <==> forall id :: id in db.rows ==> !IsFree(db.rows[id], clock(0))))
            && (answer.Success? && answer.value.Some? ==>
                  var id := answer.value.value.creation.id;
                  && id in db.rows && IsFree(db.rows[id], clock(0))
                  && IsTakenBy(db, next, db.rows[id], command, clock(0), tokens(0), answer.value.value)
                  && forall other :: other in db.rows && IsFree(db.rows[other], clock(0)) ==>
                       other == id || IsOlder(db.rows[id], db.rows[other]))
  {
    var batch, n := ClaimNextAnswers(db, command, clock, tokens);
    if ProperClaim(command, clock(0)) {
      var keep := Free(clock(0));
      if batch == [] {
        NoneTaken(db, keep, batch);
        assert forall id :: id in db.rows ==> !keep(db.rows[id]);
      } else {
        OldestFirst(db, keep, 32, batch);
        assert keep(batch[0]);
        assert !PassedOver(batch[0], command, clock(0 + 0 + 1), tokens(0 + 0));
      }
    }
  }

  lemma NoneTaken(db: Db, keep: Proposal -> bool, batch: seq<Proposal>)
    requires AreOldest(db, keep, 32, batch) && batch == []
    ensures forall id :: id in db.rows ==> !keep(db.rows[id])
  {
    forall id | id in db.rows ensures !keep(db.rows[id]) {
      assert !IsTaken(db.rows[id], 32, batch);
    }
  }

  lemma OldestFirst(db: Db, keep: Proposal -> bool, limit: nat, batch: seq<Proposal>)
    requires WellFormed(db) && AreOldest(db, keep, limit, batch) && batch != []
    ensures forall id :: id in db.rows && keep(db.rows[id]) ==>
              id == batch[0].creation.id || IsOlder(batch[0], db.rows[id])
  {
    forall id | id in db.rows && keep(db.rows[id])
      ensures id == batch[0].creation.id || IsOlder(batch[0], db.rows[id])
    {
      assert IsTaken(db.rows[id], limit, batch) && db.rows[id].creation.id == id;
      if db.rows[id] in batch {
        var i :| 0 <= i < |batch| && batch[i] == db.rows[id];
      } else if limit > 1 {
        assert IsOlder(batch[0], batch[limit - 1]);
        OlderStill(batch[0], batch[limit - 1], db.rows[id]);
      }
    }
  }

  lemma OlderStill(a: Proposal, b: Proposal, c: Proposal)
    requires IsOlder(a, b) && IsOlder(b, c)
    ensures IsOlder(a, c)
  {
    if a.createdAt == b.createdAt && b.createdAt == c.createdAt {
      TextLessTransitive(a.creation.id, b.creation.id, c.creation.id);
    }
  }

  // ----- Claiming the next outcome -----

  /** The outcome is handed out under the next generation, with the lease it is to be admitted under. */
  predicate IsHandedOut(db: Db, next: Db, row: Proposal, command: ClaimCommand, now: int, token: Text,
                        handed: Delivered)
  {
    && row.creation.id in db.rows && row.outcome.Some? && row.delivery.Some?
    && var generation := row.delivery.value.generation + 1;
       var lease := Lease(token, generation, command.workerId, now + command.leaseMs);
       && next == db.(rows := db.rows[row.creation.id :=
                   row.(delivery := Some(Delivery(Waiting, generation, Some(lease), None)))])
       && handed.outcome == row.outcome.value
       && handed.lease == OutcomeLease(row.outcome.value.id, Fence(token, generation))
  }

  predicate OutcomePassedOver(row: Proposal, command: ClaimCommand, now: int) {
    ProperClaim(command, now) && !IsWaiting(row, now)
  }

  ghost predicate OutcomesTried(db: Db, batch: seq<Proposal>, command: ClaimCommand, clock: nat -> int,
                                tokens: nat -> Text, k: nat, n: nat, next: Db, answer: Result<Option<Delivered>>)
  {
    && n <= |batch|
    && (forall j: nat :: j < n ==> OutcomePassedOver(batch[j], command, clock(k + j + 1)))
    && if n == |batch| then next == db && answer == Success(None)
       else if !ProperClaim(command, clock(k + n + 1)) then
         next == db && answer == Failure(Thrown(command, clock(k + n + 1)))
       else
         && IsWaiting(batch[n], clock(k + n + 1))
         && answer.Success? && answer.value.Some?
         && IsHandedOut(db, next, batch[n], command, clock(k + n + 1), tokens(k + n), answer.value.value)
  }

  lemma OutcomesTriedMore(db: Db, batch: seq<Proposal>, command: ClaimCommand, clock: nat -> int,
                          tokens: nat -> Text, k: nat, n: nat, next: Db, answer: Result<Option<Delivered>>)
    requires batch != [] && OutcomePassedOver(batch[0], command, clock(k + 1))
    requires OutcomesTried(db, batch[1..], command, clock, tokens, k + 1, n, next, answer)
    ensures OutcomesTried(db, batch, command, clock, tokens, k, n + 1, next, answer)
  {
    forall j: nat | j < n + 1 ensures OutcomePassedOver(batch[j], command, clock(k + j + 1)) {
      if j > 0 {
        assert batch[1..][j - 1] == batch[j] && k + 1 + (j - 1) == k + j;
      }
    }
    assert k + 1 + n == k + (n + 1);
  }

  lemma TryOutcomesFirst(db: Db, candidates: seq<Proposal>, command: ClaimCommand, clock: nat -> int,
                         tokens: nat -> Text, k: nat)
    requires WellFormed(db) && AreStored(db, candidates) && candidates != []
    ensures var (next, answer) := TryOutcomes(db, candidates, command, clock, tokens, k);
            if !ProperClaim(command, clock(k + 1)) then
              next == db && answer == Failure(Thrown(command, clock(k + 1)))
            else if IsWaiting(candidates[0], clock(k + 1)) then
              && answer.Success? && answer.value.Some?
              && IsHandedOut(db, next, candidates[0], command, clock(k + 1), tokens(k), answer.value.value)
            else (next, answer) == TryOutcomes(db, candidates[1..], command, clock, tokens, k + 1)
  {
    var row := candidates[0];
    assert row.creation.id in db.rows && db.rows[row.creation.id] == row;
    OutcomeClaimThrows(row, command, clock(k + 1), tokens(k));
    if ProperClaim(command, clock(k + 1)) {
      OutcomeClaimAnswers(row, command, clock(k + 1), tokens(k));
    }
  }

  lemma {:induction false} TryOutcomesTries(db: Db, batch: seq<Proposal>, command: ClaimCommand,
                                            clock: nat -> int, tokens: nat -> Text, k: nat)
    returns (n: nat)
    requires WellFormed(db) && AreStored(db, batch)
    ensures var (next, answer) := TryOutcomes(db, batch, command, clock, tokens, k);
            OutcomesTried(db, batch, command, clock, tokens, k, n, next, answer)
    decreases |batch|
  {
    n := 0;
    if batch != [] {
      TryOutcomesFirst(db, batch, command, clock, tokens, k);
      if OutcomePassedOver(batch[0], command, clock(k + 1)) {
        assert AreStored(db, batch[1..]);
        n := TryOutcomesTries(db, batch[1..], command, clock, tokens, k + 1);
        var (next, answer) := TryOutcomes(db, batch[1..], command, clock, tokens, k + 1);
        OutcomesTriedMore(db, batch, command, clock, tokens, k, n, next, answer);
        n := n + 1;
      }
    }
  }

  lemma DeliverableWaits(row: Proposal, now: int)
    requires Consistent(row)
    ensures IsDeliverable(now)(row) == Undelivered(now)(row)
  {
  }

  lemma UndeliveredFound(db: Db, now: int)
    requires WellFormed(db)
    ensures AreOldest(db, Undelivered(now), 32, Take(Found(db, IsDeliverable(now)), ATTEMPTS))
  {
    forall id | id in db.rows ensures IsDeliverable(now)(db.rows[id]) == Undelivered(now)(db.rows[id]) {
      DeliverableWaits(db.rows[id], now);
    }
    OldestFound(db, IsDeliverable(now), Undelivered(now), 32);
  }

  /**
   * Claiming the next outcome throws at once on an improper command or clock. Otherwise it tries the
   * outcomes of the oldest rows that wait, 32 at most, in turn, each at its own reading of the clock.
   */
  lemma ClaimNextOutcomeAnswers(db: Db, command: ClaimCommand, clock: nat -> int, tokens: nat -> Text)
    returns (batch: seq<Proposal>, n: nat)
    requires WellFormed(db)
    ensures var (next, answer) := ClaimNextOutcome(db, command, clock, tokens);
            if !ProperClaim(command, clock(0)) then next == db && answer == Failure(Thrown(command, clock(0)))
            else
              && AreOldest(db, Undelivered(clock(0)), 32, batch)
              && OutcomesTried(db, batch, command, clock, tokens, 0, n, next, answer)
  {
    batch, n := Take(Found(db, IsDeliverable(clock(0))), ATTEMPTS), 0;
    if ProperClaim(command, clock(0)) {
      UndeliveredFound(db, clock(0));
      BatchStored(db, Undelivered(clock(0)), 32, batch);
      n := TryOutcomesTries(db, batch, command, clock, tokens, 0);
    }
  }

  // ----- Expiring -----

  /** A row whose time was up, concluded as expired in the system's name. */
  predicate HasExpired(row: Proposal, next: Proposal, now: int) {
    IsConcluded(row.(decision := Expired, updatedAt := now,
                     decisionAudit := Some(Audit(Ascii("system"), Ascii("expiry"), now, None, None, None))),
                next)
  }

  /** Exactly the batch expired; the other rows, their order and the threads are as before. */
  ghost predicate OnlyExpired(db: Db, next: Db, batch: seq<Proposal>, now: int) {
    && next.rows.Keys == db.rows.Keys
    && (forall id :: id in db.rows ==>
          if db.rows[id] in batch then HasExpired(db.rows[id], next.rows[id], now)
          else next.rows[id] == db.rows[id])
  }

  /**
   * While the clock stands still, expiring throws exactly on an improper clock or a limit outside 1 to
   * 1000; otherwise exactly the oldest pending rows whose time is up expire, as many as the limit, and
   * are counted.
   */
  lemma ExpireAnswers(db: Db, limit: int, clock: nat -> int) returns (batch: seq<Proposal>)
    requires WellFormed(db) && forall i: nat :: i > 0 ==> clock(i) == clock(0)
    ensures var (next, count) := ExpireDue(db, limit, clock);
            if !IsExact(clock(0)) || limit < 1 || limit > 1000 then next == db && count == Failure(RangeError)
            else
              && AreOldest(db, Overdue(clock(0)), limit, batch)
              && count == Success(|batch|)
              && OnlyExpired(db, next, batch, clock(0))
  {
    batch := [];
    if IsExact(clock(0)) && 1 <= limit <= 1000 {
      var now := clock(0);
      batch := Take(Found(db, IsDue(now)), limit);
      OverdueFound(db, now, limit);
      ExpiresOldestDue(db, limit, clock);
      BatchExpired(db, ExpireDue(db, limit, clock).0, batch, now, limit);
    }
  }

  lemma OverdueFound(db: Db, now: int, limit: nat)
    requires WellFormed(db) && limit > 0
    ensures AreOldest(db, Overdue(now), limit, Take(Found(db, IsDue(now)), limit))
  {
    forall id | id in db.rows ensures IsDue(now)(db.rows[id]) == Overdue(now)(db.rows[id]) {
    }
    OldestFound(db, IsDue(now), Overdue(now), limit);
  }

  lemma BatchExpired(db: Db, next: Db, batch: seq<Proposal>, now: int, limit: nat)
    requires WellFormed(db) && Lapses(db, next, batch, now) && AreOldest(db, Overdue(now), limit, batch)
    ensures OnlyExpired(db, next, batch, now)
  {
    forall id | id in db.rows
      ensures if db.rows[id] in batch then HasExpired(db.rows[id], next.rows[id], now)
              else next.rows[id] == db.rows[id]
    {
      assert db.rows[id].creation.id == id && Consistent(db.rows[id]);
      AmongIsIn(db, batch, id);
    }
  }

  lemma AmongIsIn(db: Db, batch: seq<Proposal>, id: Text)
    requires WellFormed(db) && AreStored(db, batch) && id in db.rows
    ensures Among(batch, id) <==> db.rows[id] in batch
  {
    if Among(batch, id) {
      var i :| 0 <= i < |batch| && batch[i].Id() == id;
      assert batch[i] == db.rows[id];
    }
    if db.rows[id] in batch {
      var i :| 0 <= i < |batch| && batch[i] == db.rows[id];
      assert batch[i].Id() == id;
    }
  }

  // ----- Listing -----

  /** What a listing accepts: 1 to 1000 rows, and a cursor that can be one. */
  predicate ProperQuery(query: Query) {
    && (match query.limit case None => true case Some(limit) => 1 <= limit <= 1000)
    && (match query.after
        case None => true
        case Some(cursor) => IsExact(cursor.createdAt) && 1 <= |cursor.id| <= 255)
  }

  /** The limit and the cursor's time can be ones: what is wrong is the cursor's id. */
  predicate OnlyIdImproper(query: Query) {
    && (match query.limit case None => true case Some(limit) => 1 <= limit <= 1000)
    && (match query.after case None => false case Some(cursor) => IsExact(cursor.createdAt))
  }

  /** A listing throws exactly on an improper query; it shows the oldest rows asked for, 100 unless told. */
  lemma ListAnswers(db: Db, scope: Scope, query: Query)
    requires WellFormed(db)
    ensures var answer := List(db, scope, query);
            && (answer.Failure? <==> !ProperQuery(query))
            && (answer.Failure? ==> answer.error == if OnlyIdImproper(query) then TypeError else RangeError)
            && (answer.Success? ==>
                  var limit := match query.limit case None => 100 case Some(limit) => limit;
                  AreOldest(db, Listed(scope, query), limit, answer.value))
  {
    if ProperQuery(query) {
      var limit: nat := match query.limit case None => 100 case Some(limit) => limit;
      var keep, same := Matching(scope, query.decision, query.after), Listed(scope, query);
      forall id | id in db.rows ensures keep(db.rows[id]) == same(db.rows[id]) {
      }
      OldestFound(db, keep, same, limit);
    }
  }
}
