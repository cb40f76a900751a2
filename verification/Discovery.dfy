/**
 * How workers find something to do: the oldest claimable proposals, pending ones whose time is up,
 * and outcomes waiting for delivery are tried in turn. The clock is read once to look and once more
 * per attempt: `clock(0)` is the first reading, `clock(k + 1)` the one for attempt `k`.
 */
module Discovery {
  import opened Common
  import opened Sorting
  import opened ActionProposals
  import opened ProposalRows
  import opened AgentDb
  import opened Paging

  const ATTEMPTS := 32

  predicate Known(db: Db) {
    forall id :: id in db.order ==> id in db.rows
  }

  function IsClaimable(now: int): Proposal -> bool {
    (row: Proposal) => Claimable(row, now)
  }

  function IsDue(now: int): Proposal -> bool {
    (row: Proposal) => row.decision == Pending && Due(row, now)
  }

  function IsDeliverable(now: int): Proposal -> bool {
    (row: Proposal) => row.delivery.Some? && row.delivery.value.status == Waiting
           && (row.delivery.value.lease.None? || now >= row.delivery.value.lease.value.expiresAt)
  }

  // ----- Claiming the next proposal -----

  /** Tries to claim each of `candidates`, from attempt `k` on, until one is claimed. */
  function TryClaims(db: Db, candidates: seq<Proposal>, command: ClaimCommand,
                     clock: nat -> int, tokens: nat -> Text, k: nat)
    : (Db, Result<Option<Proposal>>)
    decreases |candidates|
  {
    if candidates == [] then (db, Success(None))
    else
      var c := candidates[0];
      var (next, answer) := Mutate(db, c.Scope(), c.Id(), OpClaim(command, tokens(k)), clock(k + 1));
      match answer
      case Failure(e) => (next, Failure(e))
      case Success(m) =>
        if m.status == Applied && m.proposal.Some? then (next, Success(m.proposal))
        else TryClaims(next, candidates[1..], command, clock, tokens, k + 1)
  }

  function ClaimNext(db: Db, command: ClaimCommand, clock: nat -> int, tokens: nat -> Text)
    : (Db, Result<Option<Proposal>>)
    requires Known(db)
  {
    var error := WorkerClaimError(command, clock(0));
    if error.Some? then (db, Failure(error.value))
    else
      TryClaims(db, Take(Found(db, IsClaimable(clock(0))), ATTEMPTS), command, clock, tokens, 0)
  }

  /** The claim found nothing, threw, or made exactly one attempt's claim of exactly one row. */
  ghost predicate ClaimedOne(db: Db, command: ClaimCommand, clock: nat -> int, tokens: nat -> Text,
                             next: Db, answer: Result<Option<Proposal>>)
  {
    if answer.Success? && answer.value.Some? then
      && answer.value.value.Id() in db.rows
      && exists k: nat :: ClaimedAt(db, command, clock, tokens, k, next, answer.value.value)
    else next == db
  }

  predicate ClaimedAt(db: Db, command: ClaimCommand, clock: nat -> int, tokens: nat -> Text, k: nat,
                      next: Db, claimed: Proposal)
  {
    && claimed.Id() in db.rows
    && var row := db.rows[claimed.Id()];
       && Claimable(row, clock(k + 1))
       && row.execution.Some?
       && next == Mutate(db, row.Scope(), row.Id(), OpClaim(command, tokens(k)), clock(k + 1)).0
       && claimed.execution
          == Some(Execution(Executing, row.execution.value.generation + 1,
                            Some(Lease(tokens(k), row.execution.value.generation + 1, command.workerId,
                                       clock(k + 1) + command.leaseMs)),
                            None, None))
  }

  lemma OneClaim(db: Db, c: Proposal, command: ClaimCommand, now: int, token: Text)
    requires WellFormed(db)
    ensures var (next, answer) := Mutate(db, c.Scope(), c.Id(), OpClaim(command, token), now);
            if answer.Success? && answer.value.status == Applied
            then && c.Id() in db.rows && Claimable(db.rows[c.Id()], now)
                 && db.rows[c.Id()].Scope() == c.Scope() && answer.value.proposal.Some?
                 && answer.value.proposal.value.Id() == c.Id()
                 && answer.value.proposal.value.execution
                    == Some(Execution(
                              Executing, db.rows[c.Id()].execution.value.generation + 1,
                              Some(Lease(token, db.rows[c.Id()].execution.value.generation + 1,
                                         command.workerId, now + command.leaseMs)),
                              None, None))
            else next == db
  {
    if Find(db, c.Scope(), c.Id()).Some? {
      assert db.rows[c.Id() := db.rows[c.Id()]] == db.rows;
    }
  }

  lemma {:induction false} TryClaimsOne(db: Db, candidates: seq<Proposal>, command: ClaimCommand,
                                        clock: nat -> int, tokens: nat -> Text, k: nat)
    requires WellFormed(db)
    ensures var (next, answer) := TryClaims(db, candidates, command, clock, tokens, k);
            ClaimedOne(db, command, clock, tokens, next, answer)
  {
    if candidates != [] {
      var c := candidates[0];
      OneClaim(db, c, command, clock(k + 1), tokens(k));
      var (next, answer) := Mutate(db, c.Scope(), c.Id(), OpClaim(command, tokens(k)), clock(k + 1));
      if answer.Success? {
        if answer.value.status == Applied {
          assert ClaimedAt(db, command, clock, tokens, k, next, answer.value.proposal.value);
        } else {
          TryClaimsOne(db, candidates[1..], command, clock, tokens, k + 1);
        }
      }
    }
  }

  /** However the clock moves meanwhile, claiming the next proposal claims one row, or changes nothing. */
  lemma ClaimNextClaimsOne(db: Db, command: ClaimCommand, clock: nat -> int, tokens: nat -> Text)
    requires WellFormed(db)
    ensures var (next, answer) := ClaimNext(db, command, clock, tokens);
            ClaimedOne(db, command, clock, tokens, next, answer)
  {
    if WorkerClaimError(command, clock(0)).None? {
      TryClaimsOne(db, Take(Found(db, IsClaimable(clock(0))), ATTEMPTS), command, clock, tokens, 0);
    }
  }

  /** Of all that are worth keeping, the oldest is `id`. */
  ghost predicate IsOldest(db: Db, keep: Proposal -> bool, id: Text) {
    && id in db.rows
    && keep(db.rows[id])
    && (forall other :: other in db.rows && keep(db.rows[other]) ==>
          other == id || RowLess(db.rows[id], db.rows[other]))
  }

  lemma HeadClaimed(db: Db, candidates: seq<Proposal>, command: ClaimCommand,
                    clock: nat -> int, tokens: nat -> Text)
    requires candidates != [] && candidates[0].Id() in db.rows
    requires db.rows[candidates[0].Id()] == candidates[0]
    requires Claimable(candidates[0], clock(1)) && tokens(0) != []
    requires WorkerClaimError(command, clock(1)).None?
    ensures var answer := TryClaims(db, candidates, command, clock, tokens, 0).1;
            answer.Success? && answer.value.Some? && answer.value.value.Id() == candidates[0].Id()
  {
  }

  /**
   * While the clock stands still, the oldest claimable proposal is claimed; nothing is only when
   * nothing is claimable.
   */
  lemma ClaimNextTakesOldest(db: Db, command: ClaimCommand, clock: nat -> int, tokens: nat -> Text)
    requires WellFormed(db) && WorkerClaimError(command, clock(0)).None?
    requires clock(1) == clock(0) && tokens(0) != []
    ensures var answer := ClaimNext(db, command, clock, tokens).1;
            && answer.Success?
            && (answer.value.None? <==>
                  forall id :: id in db.rows ==> !Claimable(db.rows[id], clock(0)))
            && (answer.value.Some? ==> IsOldest(db, IsClaimable(clock(0)), answer.value.value.Id()))
  {
    var found := Found(db, IsClaimable(clock(0)));
    if found == [] {
      NothingFound(db, IsClaimable(clock(0)));
      assert forall id :: id in db.rows ==> !IsClaimable(clock(0))(db.rows[id]);
    } else {
      FirstIsOldest(db, IsClaimable(clock(0)));
      HeadClaimed(db, Take(found, ATTEMPTS), command, clock, tokens);
      assert Claimable(db.rows[found[0].Id()], clock(0));
    }
  }

  lemma NothingFound(db: Db, keep: Proposal -> bool)
    requires WellFormed(db) && Found(db, keep) == []
    ensures forall id :: id in db.rows ==> !keep(db.rows[id])
  {
    FoundAll(db, keep);
    forall id | id in db.rows ensures !keep(db.rows[id]) {
      assert db.rows[id].Id() == id;
      assert db.rows[id] !in Found(db, keep);
    }
  }

  lemma FirstIsOldest(db: Db, keep: Proposal -> bool)
    requires WellFormed(db) && Found(db, keep) != []
    ensures IsOldest(db, keep, Found(db, keep)[0].Id())
    ensures db.rows[Found(db, keep)[0].Id()] == Found(db, keep)[0]
  {
    var found := Found(db, keep);
    FoundAll(db, keep);
    assert found[0] in found;
    forall id | id in db.rows && keep(db.rows[id])
      ensures id == found[0].Id() || RowLess(found[0], db.rows[id])
    {
      assert db.rows[id].Id() == id;
      assert db.rows[id] in found;
      var i :| 0 <= i < |found| && found[i] == db.rows[id];
    }
  }

  // ----- Expiring -----

  const EXPIRES := DecisionCommand(Expired, SYSTEM, EXPIRY, None, None)

  /** Expires each of `candidates` in turn; the count is of those whose time was up. */
  function TryExpire(db: Db, candidates: seq<Proposal>, clock: nat -> int, k: nat): (Db, Result<nat>)
    decreases |candidates|
  {
    if candidates == [] then (db, Success(0))
    else
      var c := candidates[0];
      var (next, answer) := Mutate(db, c.Scope(), c.Id(), OpDecide(EXPIRES), clock(k + 1));
      match answer
      case Failure(e) => (next, Failure(e))
      case Success(m) =>
        var (last, rest) := TryExpire(next, candidates[1..], clock, k + 1);
        match rest
        case Failure(e) => (last, Failure(e))
        case Success(n) => (last, Success(if m.status == Applied then n + 1 else n))
  }

  function ExpireDue(db: Db, limit: int, clock: nat -> int): (Db, Result<nat>)
    requires Known(db)
  {
    if !SafeInteger(clock(0)) || limit < 1 || limit > 1000 then (db, Failure(RangeError))
    else TryExpire(db, Take(Found(db, IsDue(clock(0))), limit), clock, 0)
  }

  /** Stored, all different, and all with their time up. */
  ghost predicate AllDue(db: Db, candidates: seq<Proposal>, now: int) {
    && (forall i :: 0 <= i < |candidates| ==>
          && candidates[i].Id() in db.rows && db.rows[candidates[i].Id()] == candidates[i]
          && candidates[i].decision == Pending && Due(candidates[i], now))
    && (forall i, j :: 0 <= i < j < |candidates| ==> candidates[i].Id() != candidates[j].Id())
  }

  predicate Among(candidates: seq<Proposal>, id: Text) {
    exists i :: 0 <= i < |candidates| && candidates[i].Id() == id
  }

  /** Exactly the candidates were expired, and nothing else moved. */
  ghost predicate Lapses(db: Db, next: Db, candidates: seq<Proposal>, now: int) {
    && next.rows.Keys == db.rows.Keys
    && (forall id :: id in db.rows ==>
          next.rows[id] == if Among(candidates, id) then Expire(db.rows[id], now) else db.rows[id])
  }

  lemma OneExpired(db: Db, c: Proposal, now: int)
    requires c.Id() in db.rows && db.rows[c.Id()] == c && c.decision == Pending && Due(c, now)
    requires SafeInteger(now)
    ensures var (next, answer) := Mutate(db, c.Scope(), c.Id(), OpDecide(EXPIRES), now);
            && answer.Success? && answer.value.status == Applied
            && next.rows == db.rows[c.Id() := Expire(c, now)]
  {
  }

  lemma AmongCons(c: Proposal, rest: seq<Proposal>, id: Text)
    ensures Among([c] + rest, id) <==> id == c.Id() || Among(rest, id)
  {
    var candidates := [c] + rest;
    assert candidates[0] == c;
    if Among(rest, id) {
      var i :| 0 <= i < |rest| && rest[i].Id() == id;
      assert candidates[i + 1].Id() == id;
    }
    if Among(candidates, id) && id != c.Id() {
      var i :| 0 <= i < |candidates| && candidates[i].Id() == id;
      assert rest[i - 1].Id() == id;
    }
  }

  lemma LapsesOneMore(db: Db, next: Db, last: Db, c: Proposal, rest: seq<Proposal>, now: int)
    requires c.Id() in db.rows && db.rows[c.Id()] == c && !Among(rest, c.Id())
    requires next.rows == db.rows[c.Id() := Expire(c, now)]
    requires Lapses(next, last, rest, now)
    ensures Lapses(db, last, [c] + rest, now)
  {
    forall id | id in db.rows
      ensures last.rows[id] == if Among([c] + rest, id) then Expire(db.rows[id], now) else db.rows[id]
    {
      AmongCons(c, rest, id);
    }
  }

  lemma AllDueTail(db: Db, next: Db, candidates: seq<Proposal>, now: int)
    requires AllDue(db, candidates, now) && candidates != []
    requires next.rows == db.rows[candidates[0].Id() := Expire(candidates[0], now)]
    ensures AllDue(next, candidates[1..], now) && !Among(candidates[1..], candidates[0].Id())
  {
    var rest := candidates[1..];
    forall i | 0 <= i < |rest|
      ensures rest[i].Id() != candidates[0].Id()
      ensures rest[i].Id() in next.rows && next.rows[rest[i].Id()] == rest[i]
    {
      assert rest[i] == candidates[i + 1];
    }
  }

  lemma {:induction false} TryExpireAll(db: Db, candidates: seq<Proposal>, clock: nat -> int, k: nat, now: int)
    requires AllDue(db, candidates, now) && SafeInteger(now)
    requires forall i: nat :: i > k ==> clock(i) == now
    ensures var (next, answer) := TryExpire(db, candidates, clock, k);
            answer == Success(|candidates|) && Lapses(db, next, candidates, now)
    decreases |candidates|
  {
    if candidates != [] {
      var c, rest := candidates[0], candidates[1..];
      OneExpired(db, c, now);
      var next := Mutate(db, c.Scope(), c.Id(), OpDecide(EXPIRES), now).0;
      AllDueTail(db, next, candidates, now);
      TryExpireAll(next, rest, clock, k + 1, now);
      LapsesOneMore(db, next, TryExpire(next, rest, clock, k + 1).0, c, rest, now);
      assert [c] + rest == candidates;
    }
  }

  lemma IncreasingIds(rows: seq<Proposal>)
    requires Increasing(rows)
    ensures forall i, j :: 0 <= i < j < |rows| ==>
              rows[i].Id() != rows[j].Id() || rows[i].createdAt != rows[j].createdAt
  {
    forall i, j | 0 <= i < j < |rows|
      ensures rows[i].Id() != rows[j].Id() || rows[i].createdAt != rows[j].createdAt
    {
      KeyLessIrreflexive(KeyOf(rows[i]));
      assert RowLess(rows[i], rows[j]);
    }
  }

  lemma FoundIsDue(db: Db, now: int, i: nat)
    requires WellFormed(db) && i < |Found(db, IsDue(now))|
    ensures var row := Found(db, IsDue(now))[i];
            && row.Id() in db.rows && db.rows[row.Id()] == row && row.decision == Pending && Due(row, now)
  {
    FoundAll(db, IsDue(now));
    var row := Found(db, IsDue(now))[i];
    assert row in Found(db, IsDue(now));
    assert IsDue(now)(row);
  }

  lemma BatchIsStored(db: Db, now: int, limit: nat, i: nat)
    requires WellFormed(db) && i < |Take(Found(db, IsDue(now)), limit)|
    ensures var row := Take(Found(db, IsDue(now)), limit)[i];
            && row.Id() in db.rows && db.rows[row.Id()] == row && row.decision == Pending && Due(row, now)
  {
    FoundIsDue(db, now, i);
  }

  lemma BatchDiffers(db: Db, now: int, limit: nat, i: nat, j: nat)
    requires WellFormed(db) && i < j < |Take(Found(db, IsDue(now)), limit)|
    ensures var batch := Take(Found(db, IsDue(now)), limit); batch[i].Id() != batch[j].Id()
  {
    FoundAll(db, IsDue(now));
    IncreasingIds(Found(db, IsDue(now)));
    BatchIsStored(db, now, limit, i);
    BatchIsStored(db, now, limit, j);
  }

  lemma BatchIsDue(db: Db, now: int, limit: nat)
    requires WellFormed(db)
    ensures AllDue(db, Take(Found(db, IsDue(now)), limit), now)
  {
    var batch := Take(Found(db, IsDue(now)), limit);
    forall i | 0 <= i < |batch|
      ensures batch[i].Id() in db.rows && db.rows[batch[i].Id()] == batch[i]
      ensures batch[i].decision == Pending && Due(batch[i], now)
    {
      BatchIsStored(db, now, limit, i);
    }
    forall i, j | 0 <= i < j < |batch| ensures batch[i].Id() != batch[j].Id() {
      BatchDiffers(db, now, limit, i, j);
    }
  }

  lemma NoneLeftDue(db: Db, next: Db, now: int)
    requires WellFormed(db) && Lapses(db, next, Found(db, IsDue(now)), now)
    ensures forall id :: id in next.rows ==> !IsDue(now)(next.rows[id])
  {
    var found := Found(db, IsDue(now));
    FoundAll(db, IsDue(now));
    forall id | id in next.rows ensures !IsDue(now)(next.rows[id]) {
      if IsDue(now)(db.rows[id]) {
        assert db.rows[id].Id() == id && db.rows[id] in found;
        assert Among(found, id);
      }
    }
  }

  /** The batch was expired and counted; with fewer than asked for, none is left that is due. */
  ghost predicate ExpiresBatch(db: Db, now: int, limit: nat, batch: seq<Proposal>, next: Db, count: Result<nat>) {
    && count == Success(|batch|)
    && Lapses(db, next, batch, now)
    && (|batch| < limit ==> forall id :: id in next.rows ==> !IsDue(now)(next.rows[id]))
  }

  /**
   * While the clock stands still, a batch expires exactly the oldest pending proposals whose time is
   * up, as many as asked for, and counts them; with fewer than asked for, it left none behind.
   */
  lemma ExpiresOldestDue(db: Db, limit: int, clock: nat -> int)
    requires WellFormed(db) && SafeInteger(clock(0)) && 1 <= limit <= 1000
    requires forall i: nat :: i > 0 ==> clock(i) == clock(0)
    ensures var (next, count) := ExpireDue(db, limit, clock);
            ExpiresBatch(db, clock(0), limit, Take(Found(db, IsDue(clock(0))), limit), next, count)
  {
    var found, now := Found(db, IsDue(clock(0))), clock(0);
    BatchIsDue(db, now, limit);
    TryExpireAll(db, Take(found, limit), clock, 0, now);
    var next := TryExpire(db, Take(found, limit), clock, 0).0;
    if |Take(found, limit)| < limit {
      NoneLeftDue(db, next, now);
    }
  }

  function StepAll(db: Db, ops: seq<DbOp>): Db
    decreases |ops|
  {
    if ops == [] then db else StepAll(Step(db, ops[0]), ops[1..])
  }

  /** However the clock moves meanwhile, a batch is a run of plain decisions. */
  lemma {:induction false} TryExpireIsRun(db: Db, candidates: seq<Proposal>, clock: nat -> int, k: nat)
    returns (ops: seq<DbOp>)
    ensures TryExpire(db, candidates, clock, k).0 == StepAll(db, ops)
    ensures forall i :: 0 <= i < |ops| ==> ops[i].DoMutate? && ops[i].op == OpDecide(EXPIRES)
    decreases |candidates|
  {
    ops := [];
    if candidates != [] {
      var c := candidates[0];
      var op := DoMutate(c.Scope(), c.Id(), OpDecide(EXPIRES), clock(k + 1));
      var (next, answer) := Mutate(db, c.Scope(), c.Id(), OpDecide(EXPIRES), clock(k + 1));
      if answer.Success? {
        ops := TryExpireIsRun(next, candidates[1..], clock, k + 1);
      }
      assert ([op] + ops)[1..] == ops;
      ops := [op] + ops;
    }
  }

  lemma {:induction false} TryExpireWellFormed(db: Db, candidates: seq<Proposal>, clock: nat -> int, k: nat)
    requires WellFormed(db)
    ensures WellFormed(TryExpire(db, candidates, clock, k).0)
    decreases |candidates|
  {
    if candidates != [] {
      var c := candidates[0];
      var (next, answer) := Mutate(db, c.Scope(), c.Id(), OpDecide(EXPIRES), clock(k + 1));
      StepKeepsWellFormed(db, DoMutate(c.Scope(), c.Id(), OpDecide(EXPIRES), clock(k + 1)));
      if answer.Success? {
        TryExpireWellFormed(next, candidates[1..], clock, k + 1);
      }
    }
  }

  lemma {:induction false} TryClaimsWellFormed(db: Db, candidates: seq<Proposal>, command: ClaimCommand,
                                               clock: nat -> int, tokens: nat -> Text, k: nat)
    requires WellFormed(db)
    ensures WellFormed(TryClaims(db, candidates, command, clock, tokens, k).0)
    decreases |candidates|
  {
    if candidates != [] {
      var c := candidates[0];
      var (next, answer) := Mutate(db, c.Scope(), c.Id(), OpClaim(command, tokens(k)), clock(k + 1));
      StepKeepsWellFormed(db, DoMutate(c.Scope(), c.Id(), OpClaim(command, tokens(k)), clock(k + 1)));
      if answer.Success? {
        TryClaimsWellFormed(next, candidates[1..], command, clock, tokens, k + 1);
      }
    }
  }

  // ----- Claiming the next outcome -----

  datatype Delivered = Delivered(outcome: Outcome, lease: OutcomeLease)

  predicate IsLeased(row: Proposal) {
    row.outcome.Some? && row.delivery.Some? && row.delivery.value.lease.Some?
  }

  /** What the worker is handed: the outcome, and the lease to admit it under. */
  function HandOver(row: Proposal): Delivered
    requires IsLeased(row)
  {
    Delivered(row.outcome.value,
              OutcomeLease(row.outcome.value.id,
                           Fence(row.delivery.value.lease.value.token, row.delivery.value.generation)))
  }

  function TryOutcomes(db: Db, candidates: seq<Proposal>, command: ClaimCommand,
                       clock: nat -> int, tokens: nat -> Text, k: nat)
    : (Db, Result<Option<Delivered>>)
    decreases |candidates|
  {
    if candidates == [] then (db, Success(None))
    else
      var id := candidates[0].Id();
      if id !in db.rows then TryOutcomes(db, candidates[1..], command, clock, tokens, k)
      else
        match ClaimOutcome(db.rows[id], command, clock(k + 1), tokens(k))
        case Failure(e) => (db, Failure(e))
        case Success(None) => TryOutcomes(db, candidates[1..], command, clock, tokens, k + 1)
        case Success(Some(row)) =>
          if IsLeased(row) then (db.(rows := db.rows[id := row]), Success(Some(HandOver(row))))
          else TryOutcomes(db, candidates[1..], command, clock, tokens, k + 1)
  }

  function ClaimNextOutcome(db: Db, command: ClaimCommand, clock: nat -> int, tokens: nat -> Text)
    : (Db, Result<Option<Delivered>>)
    requires Known(db)
  {
    var error := WorkerClaimError(command, clock(0));
    if error.Some? then (db, Failure(error.value))
    else
      TryOutcomes(db, Take(Found(db, IsDeliverable(clock(0))), ATTEMPTS), command, clock, tokens, 0)
  }

  /** The lease an outcome was handed out under is one that admits it, until it runs out. */
  ghost predicate HandedOut(db: Db, command: ClaimCommand, clock: nat -> int, tokens: nat -> Text,
                            next: Db, answer: Result<Option<Delivered>>)
  {
    if answer.Success? && answer.value.Some? then
      exists id, k: nat :: HandedOutAt(db, command, clock, tokens, id, k, next, answer.value.value)
    else next == db
  }

  predicate HandedOutAt(db: Db, command: ClaimCommand, clock: nat -> int, tokens: nat -> Text,
                        id: Text, k: nat, next: Db, handed: Delivered)
  {
    && id in db.rows
    && Deliverable(db.rows[id], clock(k + 1))
    && next == DispatchOutcome(db, id, command, clock(k + 1), tokens(k))
    && id in next.rows
    && Some(handed.outcome) == db.rows[id].outcome
    && (tokens(k) != [] && SafeInteger(handed.lease.fence.generation) ==>
          FenceValid(next.rows[id], handed.lease, clock(k + 1)) == Success(true))
  }

  lemma {:induction false} TryOutcomesOne(db: Db, candidates: seq<Proposal>, command: ClaimCommand,
                                          clock: nat -> int, tokens: nat -> Text, k: nat)
    requires WellFormed(db)
    ensures var (next, answer) := TryOutcomes(db, candidates, command, clock, tokens, k);
            HandedOut(db, command, clock, tokens, next, answer)
  {
    if candidates != [] {
      var id := candidates[0].Id();
      if id !in db.rows {
        TryOutcomesOne(db, candidates[1..], command, clock, tokens, k);
      } else {
        match ClaimOutcome(db.rows[id], command, clock(k + 1), tokens(k))
        case Failure(_) =>
        case Success(None) => TryOutcomesOne(db, candidates[1..], command, clock, tokens, k + 1);
        case Success(Some(row)) =>
          assert Consistent(db.rows[id]);
          var (next, answer) := TryOutcomes(db, candidates, command, clock, tokens, k);
          assert HandedOutAt(db, command, clock, tokens, id, k, next, answer.value.value);
      }
    }
  }

  /** Claiming the next outcome dispatches one outcome under a valid lease, or changes nothing. */
  lemma ClaimNextOutcomeHandsOut(db: Db, command: ClaimCommand, clock: nat -> int, tokens: nat -> Text)
    requires WellFormed(db)
    ensures var (next, answer) := ClaimNextOutcome(db, command, clock, tokens);
            HandedOut(db, command, clock, tokens, next, answer)
  {
    if WorkerClaimError(command, clock(0)).None? {
      TryOutcomesOne(db, Take(Found(db, IsDeliverable(clock(0))), ATTEMPTS), command, clock, tokens, 0);
    }
  }
}
