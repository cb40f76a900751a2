/**
 * Any number of workers over one store. A worker takes a proposal up by claiming it, renews its
 * lease on a timer while its executor runs, and settles only if no renewal was ever refused. It may
 * crash at any point, its calls interleave with everyone else's, and others may do anything at all.
 */
module ProposalWorkers {
  import opened Common
  import opened ActionProposals
  import opened ProposalRows
  import opened LeaseProtocol
  import opened AgentDb
  import opened ProposalRuns

  /** The executor is running; it returned and the settlement is due; or nothing is left to do. */
  datatype Phase = Running | Returned | Over

  /**
   * One `execute` of a worker: the claim it holds, whether every renewal so far was applied, and the
   * answer of the renewal in flight, if there is one.
   */
  datatype Attempt = Attempt(
    scope: Scope, id: Text, fence: Fence, fenced: bool, renewing: Option<bool>, phase: Phase)

  /** Everything asked of the store so far, and by which attempt; and the attempts. */
  datatype Fleet = Fleet(ops: seq<(DbOp, nat)>, attempts: map<nat, Attempt>)
  {
    function Db(): Db { Reach(ops).db }
  }

  datatype Action =
    | Other(op: DbOp)
    | TakeUp(attempt: nat, scope: Scope, id: Text, claim: ClaimCommand, now: int, token: Text)
    | SendRenewal(attempt: nat, leaseMs: int, now: int)
    | ReceiveRenewal(attempt: nat, threw: bool)
    | Execute(attempt: nat, threw: bool)
    | SettleIfFenced(attempt: nat, status: WorkStatus, result: Option<Text>, error: Option<Text>,
                     ui: Option<Text>, text: Option<Text>, now: int)
    | Crash(attempt: nat)

  /** Attempts act on the store as themselves; actor 0 is everyone else. */
  function Actor(attempt: nat): nat {
    attempt + 1
  }

  predicate AppliedTo(db: Db, scope: Scope, id: Text, op: RowOp, now: int) {
    Find(db, scope, id).Some? && IsApplied(db.rows[id], op, now)
  }

  /** What the action asks of the store, if anything. */
  function Asked(f: Fleet, action: Action): seq<(DbOp, nat)> {
    match action
    case Other(op) => [(op, 0)]
    case TakeUp(a, scope, id, claim, now, token) =>
      if a in f.attempts then []
      else [(DoMutate(scope, id, OpClaim(claim, token), now), Actor(a))]
    case SendRenewal(a, leaseMs, now) =>
      if a in f.attempts && f.attempts[a].phase == Running && f.attempts[a].fenced
         && f.attempts[a].renewing.None?
      then
        var t := f.attempts[a];
        [(DoMutate(t.scope, t.id, OpExtend(t.fence, leaseMs), now), Actor(a))]
      else []
    case SettleIfFenced(a, status, result, error, ui, text, now) =>
      if a in f.attempts && f.attempts[a].phase == Returned && f.attempts[a].renewing.None?
         && f.attempts[a].fenced
      then
        var t := f.attempts[a];
        [(DoMutate(t.scope, t.id, OpSettle(SettleCommand(t.fence, status, result, error, ui, text)), now),
          Actor(a))]
      else []
    case _ => []
  }

  /** What becomes of the attempts. */
  function Tracked(f: Fleet, action: Action): map<nat, Attempt> {
    match action
    case Other(_) => f.attempts
    case TakeUp(a, scope, id, claim, now, token) =>
      if a in f.attempts || !AppliedTo(f.Db(), scope, id, OpClaim(claim, token), now) then f.attempts
      else
        var work := f.Db().rows[id].execution.value;
        f.attempts[a := Attempt(scope, id, Fence(token, work.generation + 1), true, None, Running)]
    case SendRenewal(a, leaseMs, now) =>
      if Asked(f, action) == [] then f.attempts
      else
        var t := f.attempts[a];
        var applied := AppliedTo(f.Db(), t.scope, t.id, OpExtend(t.fence, leaseMs), now);
        f.attempts[a := t.(renewing := Some(applied))]
    case ReceiveRenewal(a, threw) =>
      if a in f.attempts && f.attempts[a].renewing.Some? then
        var t := f.attempts[a];
        f.attempts[a := t.(renewing := None, fenced := t.fenced && t.renewing.value && !threw)]
      else f.attempts
    case Execute(a, threw) =>
      if a in f.attempts && f.attempts[a].phase == Running
      then f.attempts[a := f.attempts[a].(phase := if threw then Over else Returned)]
      else f.attempts
    case SettleIfFenced(a, _, _, _, _, _, _) =>
      if a in f.attempts && f.attempts[a].phase == Returned && f.attempts[a].renewing.None?
      then f.attempts[a := f.attempts[a].(phase := Over)]
      else f.attempts
    case Crash(a) =>
      if a in f.attempts then f.attempts[a := f.attempts[a].(phase := Over)] else f.attempts
  }

  function Act(f: Fleet, action: Action): Fleet {
    Fleet(f.ops + Asked(f, action), Tracked(f, action))
  }

  /** The fleet after any interleaving of actions, from an empty store. */
  function Fleeting(actions: seq<Action>): Fleet {
    if actions == [] then Fleet([], map[])
    else Act(Fleeting(actions[..|actions| - 1]), actions[|actions| - 1])
  }

  // ----- What each action does -----

  /** The action asked one thing of the store, as this attempt. */
  ghost predicate Asks(f: Fleet, next: Fleet, op: DbOp, attempt: nat) {
    next.ops == f.ops + [(op, attempt + 1)]
  }

  /** Exactly this attempt is another. */
  ghost predicate Leaves(f: Fleet, next: Fleet, attempt: nat, t: Attempt) {
    && next.attempts.Keys == f.attempts.Keys + {attempt} && next.attempts[attempt] == t
    && forall other :: other in f.attempts && other != attempt ==> next.attempts[other] == f.attempts[other]
  }

  /** An attempt begins with the claim that is applied for it, under the generation the claim issues. */
  lemma TakeUpSays(f: Fleet, a: nat, scope: Scope, id: Text, claim: ClaimCommand, now: int, token: Text)
    ensures var next := Act(f, TakeUp(a, scope, id, claim, now, token));
            var rows := f.Db().rows;
            if a in f.attempts then next == f
            else
              && Asks(f, next, DoMutate(scope, id, OpClaim(claim, token), now), a)
              && if id in rows && rows[id].creation.scope == scope && rows[id].execution.Some?
                    && Claim(rows[id], claim, now, token).Success?
                    && Claim(rows[id], claim, now, token).value.status == Applied
                 then
                   var fence := Fence(token, rows[id].execution.value.generation + 1);
                   Leaves(f, next, a, Attempt(scope, id, fence, true, None, Running))
                 else next.attempts == f.attempts
  {
    var rows := f.Db().rows;
    if id in rows && rows[id].execution.None? {
      assert !IsApplied(rows[id], OpClaim(claim, token), now);
    }
  }

  /**
   * What an attempt under way does. It renews one at a time while its executor runs and no renewal was
   * refused; a refused or failed renewal is the end of its fence; once the executor returned and no
   * renewal is in flight it settles under its fence, if it still has it, and is over either way.
   */
  lemma AttemptSays(f: Fleet, a: nat, action: Action)
    requires a in f.attempts && !action.Other? && !action.TakeUp? && action.attempt == a
    ensures var next, t := Act(f, action), f.attempts[a];
            var rows := f.Db().rows;
            match action
            case SendRenewal(_, leaseMs, now) =>
              if t.phase == Running && t.fenced && t.renewing == None then
                var applied := t.id in rows && rows[t.id].creation.scope == t.scope
                               && Extend(rows[t.id], t.fence, leaseMs, now).Success?
                               && Extend(rows[t.id], t.fence, leaseMs, now).value.status == Applied;
                && Asks(f, next, DoMutate(t.scope, t.id, OpExtend(t.fence, leaseMs), now), a)
                && Leaves(f, next, a, t.(renewing := Some(applied)))
              else next == f
            case ReceiveRenewal(_, threw) =>
              next.ops == f.ops
              && (match t.renewing
                  case None => next.attempts == f.attempts
                  case Some(applied) =>
                    Leaves(f, next, a, Attempt(t.scope, t.id, t.fence, t.fenced && applied && !threw, None, t.phase)))
            case Execute(_, threw) =>
              next.ops == f.ops
              && if t.phase == Running then Leaves(f, next, a, t.(phase := if threw then Over else Returned))
                 else next.attempts == f.attempts
            case SettleIfFenced(_, status, result, error, ui, text, now) =>
              if t.phase == Returned && t.renewing == None then
                && Leaves(f, next, a, t.(phase := Over))
                && if t.fenced then
                     Asks(f, next, DoMutate(t.scope, t.id, OpSettle(SettleCommand(t.fence, status, result, error,
                                                                                 ui, text)), now), a)
                   else next.ops == f.ops
              else next == f
            case Crash(_) => next.ops == f.ops && Leaves(f, next, a, t.(phase := Over))
            case _ => true
  {
    assert f.ops + [] == f.ops;
  }

  /** What others do goes to the store as it is; nothing happens to an attempt that never began. */
  lemma OthersSay(f: Fleet, action: Action)
    ensures action.Other? ==> Act(f, action) == Fleet(f.ops + [(action.op, 0)], f.attempts)
    ensures !action.Other? && !action.TakeUp? && action.attempt !in f.attempts ==> Act(f, action) == f
  {
    assert f.ops + [] == f.ops;
  }

  function History(f: Fleet, id: Text): seq<Event> {
    Past(Reach(f.ops).executions, id)
  }

  // ----- What an attempt can leave in a history -----

  /** The event is the attempt's own: on its proposal, under its generation and token. */
  predicate Own(attempts: map<nat, Attempt>, id: Text, e: Event) {
    && !e.Opened?
    && (e.actor > 0 ==>
          && e.actor - 1 in attempts
          && var t := attempts[e.actor - 1];
             && t.id == id
             && e.generation == t.fence.generation
             && e.token == t.fence.token
             && (e.Settled? ==> t.fenced && t.phase == Over && t.renewing.None?))
  }

  ghost predicate AllOwn(attempts: map<nat, Attempt>, id: Text, h: seq<Event>) {
    forall e :: e in h && !e.Opened? ==> Own(attempts, id, e)
  }

  ghost predicate Attributed(f: Fleet) {
    forall id :: AllOwn(f.attempts, id, History(f, id))
  }

  lemma EventsByActor(db: Db, op: DbOp, actor: nat, id: Text, e: Event)
    requires e in ExecutionEvents(db, op, actor, id) && !e.Opened?
    ensures e.actor == actor
  {
  }

  /** A claim, renewal or settlement asked of one row happens to that row only, if it is applied. */
  lemma MutationEvents(db: Db, scope: Scope, target: Text, op: RowOp, now: int, actor: nat, id: Text,
                       e: Event)
    requires op.OpClaim? || op.OpExtend? || op.OpSettle?
    requires e in ExecutionEvents(db, DoMutate(scope, target, op, now), actor, id)
    ensures id == target && AppliedTo(db, scope, id, op, now)
    ensures op.OpClaim? ==> e.Claimed? && e.token == op.token
                            && e.generation == db.rows[id].execution.value.generation + 1
    ensures op.OpExtend? ==> e.Renewed? && e.token == op.fence.token
                             && e.generation == op.fence.generation
    ensures op.OpSettle? ==> e.Settled? && e.token == op.settle.fence.token
                             && e.generation == op.settle.fence.generation
  {
  }

  lemma AskedIsOwn(f: Fleet, action: Action, id: Text, e: Event)
    requires Asked(f, action) != [] && !e.Opened?
    requires e in ExecutionEvents(f.Db(), Asked(f, action)[0].0, Asked(f, action)[0].1, id)
    ensures Own(Tracked(f, action), id, e)
  {
    EventsByActor(f.Db(), Asked(f, action)[0].0, Asked(f, action)[0].1, id, e);
    if !action.Other? {
      var op := Asked(f, action)[0].0;
      MutationEvents(f.Db(), op.scope, op.id, op.op, op.now, Actor(action.attempt), id, e);
    }
  }

  lemma OwnStays(f: Fleet, action: Action, id: Text, e: Event)
    requires Own(f.attempts, id, e)
    ensures Own(Tracked(f, action), id, e)
  {
  }

  lemma AskedAtMostOnce(f: Fleet, action: Action, id: Text)
    ensures |Asked(f, action)| <= 1
    ensures History(Act(f, action), id)
            == History(f, id)
               + (if Asked(f, action) == [] then []
                  else ExecutionEvents(f.Db(), Asked(f, action)[0].0, Asked(f, action)[0].1, id))
  {
    ReachStories(f.ops);
    var more := Asked(f, action);
    if more == [] {
      assert f.ops + more == f.ops;
    } else {
      assert (f.ops + more)[..|f.ops + more| - 1] == f.ops;
      NextHistory(Reach(f.ops), more[0].0, more[0].1, id);
    }
  }

  lemma NextHistory(s: Sys, op: DbOp, actor: nat, id: Text)
    requires Stories(s)
    ensures Past(Next(s, op, actor).executions, id)
            == Past(s.executions, id) + ExecutionEvents(s.db, op, actor, id)
  {
    StepMovesRows(s.db, op);
    if id in Step(s.db, op).rows {
      PastAfter(s, op, actor, id);
    }
  }

  lemma ActKeepsOwn(f: Fleet, action: Action, id: Text)
    requires AllOwn(f.attempts, id, History(f, id))
    ensures AllOwn(Tracked(f, action), id, History(Act(f, action), id))
  {
    AskedAtMostOnce(f, action, id);
    forall e | e in History(Act(f, action), id) && !e.Opened?
      ensures Own(Tracked(f, action), id, e)
    {
      if e in History(f, id) {
        OwnStays(f, action, id, e);
      } else {
        AskedIsOwn(f, action, id, e);
      }
    }
  }

  /** Whatever the interleaving, an attempt's events carry its own generation and token. */
  lemma {:induction false} FleetAttributed(actions: seq<Action>)
    ensures Attributed(Fleeting(actions))
  {
    if actions != [] {
      var f := Fleeting(actions[..|actions| - 1]);
      FleetAttributed(actions[..|actions| - 1]);
      forall id ensures AllOwn(Fleeting(actions).attempts, id, History(Fleeting(actions), id)) {
        ActKeepsOwn(f, actions[|actions| - 1], id);
      }
    }
  }

  lemma EventIsOwn(actions: seq<Action>, id: Text, i: nat)
    requires i < |History(Fleeting(actions), id)| && !History(Fleeting(actions), id)[i].Opened?
    ensures Own(Fleeting(actions).attempts, id, History(Fleeting(actions), id)[i])
  {
    FleetAttributed(actions);
    var h := History(Fleeting(actions), id);
    assert AllOwn(Fleeting(actions).attempts, id, h) && h[i] in h;
  }

  lemma HistoriesAreOfRows(ops: seq<(DbOp, nat)>, id: Text)
    ensures WellFormed(Reach(ops).db)
    ensures Past(Reach(ops).executions, id) != [] ==> id in Reach(ops).db.rows
  {
    ReachStories(ops);
  }

  /** The attempt is over, on this proposal, and every renewal it was answered had been applied. */
  predicate NeverRefused(attempts: map<nat, Attempt>, a: nat, id: Text, generation: int) {
    && a in attempts
    && attempts[a].id == id
    && attempts[a].fence.generation == generation
    && attempts[a].fenced
    && attempts[a].phase == Over
    && attempts[a].renewing.None?
  }

  lemma OwnSettlement(attempts: map<nat, Attempt>, id: Text, e: Event, a: nat)
    requires Own(attempts, id, e) && e.Settled? && e.actor == Actor(a)
    ensures NeverRefused(attempts, a, id, e.generation)
  {
  }

  /** A worker's settlement means that every renewal it was answered had been applied. */
  lemma SettledMeansFenced(actions: seq<Action>, id: Text, i: nat, a: nat)
    requires i < |History(Fleeting(actions), id)|
    requires History(Fleeting(actions), id)[i].Settled?
    requires History(Fleeting(actions), id)[i].actor == Actor(a)
    ensures NeverRefused(Fleeting(actions).attempts, a, id, History(Fleeting(actions), id)[i].generation)
  {
    EventIsOwn(actions, id, i);
    OwnSettlement(Fleeting(actions).attempts, id, History(Fleeting(actions), id)[i], a);
  }

  /** A fleet settles a proposal once, by an attempt holding the highest generation ever issued. */
  lemma FleetSettledOnce(f: Fleet, id: Text, i: nat)
    requires i < |History(f, id)| && History(f, id)[i].Settled?
    ensures SettledAt(History(f, id), i)
  {
    HistoriesAreOfRows(f.ops, id);
    SettledOnceByHighestGeneration(f.ops, id, i);
  }

  // ----- Takeover -----

  predicate OutgrownBy(db: Db, id: Text, generation: int) {
    && id in db.rows
    && db.rows[id].execution.Some?
    && db.rows[id].execution.value.generation > generation
  }

  /** The attempt's proposal has since been claimed under a higher generation. */
  predicate TakenOver(f: Fleet, a: nat) {
    a in f.attempts && OutgrownBy(f.Db(), f.attempts[a].id, f.attempts[a].fence.generation)
  }

  lemma MoveKeepsGeneration(row: Proposal, move: Move)
    requires Consistent(row) && row.execution.Some?
    ensures Moved(row, move).execution.Some?
    ensures Moved(row, move).execution.value.generation >= row.execution.value.generation
  {
    if move.Apply? {
      match move.op
      case OpDecide(_) =>
      case OpClaim(_, _) =>
      case OpExtend(_, _) =>
      case OpSettle(_) =>
      case OpSupersede(_, _) =>
    }
  }

  lemma StepKeepsOutgrown(db: Db, op: DbOp, id: Text, generation: int)
    requires WellFormed(db) && OutgrownBy(db, id, generation)
    ensures OutgrownBy(Step(db, op), id, generation)
  {
    StepMovesRows(db, op);
    var move := MoveOf(db, op, id);
    if move.Some? {
      MoveKeepsGeneration(db.rows[id], move.value);
    }
  }

  lemma ActSteps(f: Fleet, action: Action)
    ensures Act(f, action).Db()
            == (if Asked(f, action) == [] then f.Db() else Step(f.Db(), Asked(f, action)[0].0))
  {
    var more := Asked(f, action);
    if more == [] {
      assert f.ops + more == f.ops;
    } else {
      assert (f.ops + more)[..|f.ops + more| - 1] == f.ops;
    }
  }

  lemma TrackedKeepsIdentity(f: Fleet, action: Action, a: nat)
    requires a in f.attempts
    ensures a in Tracked(f, action)
    ensures Tracked(f, action)[a].id == f.attempts[a].id
    ensures Tracked(f, action)[a].fence == f.attempts[a].fence
  {
  }

  lemma ActKeepsTakenOver(f: Fleet, action: Action, a: nat)
    requires TakenOver(f, a)
    ensures TakenOver(Act(f, action), a)
  {
    var t := f.attempts[a];
    HistoriesAreOfRows(f.ops, t.id);
    TrackedKeepsIdentity(f, action, a);
    ActSteps(f, action);
    if Asked(f, action) != [] {
      StepKeepsOutgrown(f.Db(), Asked(f, action)[0].0, t.id, t.fence.generation);
    }
  }

  lemma FleetingMore(actions: seq<Action>, more: seq<Action>)
    requires more != []
    ensures Fleeting(actions + more)
            == Act(Fleeting(actions + more[..|more| - 1]), more[|more| - 1])
  {
    assert (actions + more)[..|actions + more| - 1] == actions + more[..|more| - 1];
  }

  /** A lease taken over is never got back. */
  lemma {:induction false} TakenOverForGood(actions: seq<Action>, more: seq<Action>, a: nat)
    requires TakenOver(Fleeting(actions), a)
    ensures TakenOver(Fleeting(actions + more), a)
  {
    if more == [] {
      assert actions + more == actions;
    } else {
      TakenOverForGood(actions, more[..|more| - 1], a);
      ActKeepsTakenOver(Fleeting(actions + more[..|more| - 1]), more[|more| - 1], a);
      FleetingMore(actions, more);
    }
  }

  predicate IsActionOf(action: Action, a: nat) {
    !action.Other? && action.attempt == a
  }

  lemma RefusedChangesNothing(db: Db, scope: Scope, id: Text, op: RowOp, now: int)
    requires op.OpExtend? || op.OpSettle?
    requires id in db.rows
    requires !Holds(db.rows[id], if op.OpExtend? then op.fence else op.settle.fence)
    ensures Step(db, DoMutate(scope, id, op, now)) == db
  {
    assert db.rows[id := db.rows[id]] == db.rows;
  }

  /**
   * Once an attempt is taken over, nothing it ever does again, however late its calls arrive, changes
   * the store: not the row, not the tool call that follows it.
   */
  lemma TakenOverChangesNothing(actions: seq<Action>, more: seq<Action>, action: Action, a: nat)
    requires TakenOver(Fleeting(actions), a) && IsActionOf(action, a)
    ensures Act(Fleeting(actions + more), action).Db() == Fleeting(actions + more).Db()
  {
    TakenOverForGood(actions, more, a);
    var f := Fleeting(actions + more);
    ActSteps(f, action);
    var t := f.attempts[a];
    if Asked(f, action) != [] {
      var op := Asked(f, action)[0].0;
      RefusedChangesNothing(f.Db(), op.scope, op.id, op.op, op.now);
    }
  }

  /** So no settlement is the work of an attempt that was taken over. */
  lemma SettlerWasNeverTakenOver(actions: seq<Action>, id: Text, i: nat, a: nat)
    requires i < |History(Fleeting(actions), id)|
    requires History(Fleeting(actions), id)[i].Settled?
    requires History(Fleeting(actions), id)[i].actor == Actor(a)
    ensures !TakenOver(Fleeting(actions), a)
  {
    SettledMeansFenced(actions, id, i, a);
    NotOutgrown(Fleeting(actions), id, i);
  }

  lemma NotOutgrown(f: Fleet, id: Text, i: nat)
    requires i < |History(f, id)| && History(f, id)[i].Settled?
    ensures !OutgrownBy(f.Db(), id, History(f, id)[i].generation)
  {
    ReachStories(f.ops);
    if id in f.Db().rows {
      SettledGeneration(f.Db().rows[id], History(f, id), i);
    }
  }

  lemma SettledGeneration(row: Proposal, h: seq<Event>, i: nat)
    requires Linked(ExecutionWork(row), h) && Numbered(h) && SettledLast(h)
    requires i < |h| && h[i].Settled?
    ensures row.execution.Some? && row.execution.value.generation == h[i].generation
  {
    assert h[..|h|] == h;
  }

  // ----- Lease windows -----

  /** The clock reading an operation on a row carries. */
  function Reading(op: DbOp): Option<int> {
    match op
    case DoMutate(_, _, _, now) => Some(now)
    case DoDispatch(_, _, now, _) => Some(now)
    case DoAdmit(_, _, now, _) => Some(now)
    case _ => None
  }

  /** The store's clock never went back from one operation to the next. */
  ghost predicate ClockOrdered(ops: seq<(DbOp, nat)>) {
    forall i, j :: 0 <= i < j < |ops| && Reading(ops[i].0).Some? && Reading(ops[j].0).Some? ==>
      Reading(ops[i].0).value <= Reading(ops[j].0).value
  }

  ghost predicate ReadBy(ops: seq<(DbOp, nat)>, e: Event) {
    exists k :: 0 <= k < |ops| && Reading(ops[k].0) == Some(e.at)
  }

  /** Every lease event happened when some operation read the clock, in order. */
  ghost predicate Timed(ops: seq<(DbOp, nat)>, h: seq<Event>) {
    && ClockForward(h)
    && (forall i :: 0 <= i < |h| && !h[i].Opened? ==> ReadBy(ops, h[i]))
  }

  lemma EventReading(db: Db, op: DbOp, actor: nat, id: Text, e: Event)
    requires e in ExecutionEvents(db, op, actor, id) || e in DeliveryEvents(db, op, actor, id)
    requires !e.Opened?
    ensures Reading(op) == Some(e.at)
  {
  }

  lemma FewEvents(db: Db, op: DbOp, actor: nat, id: Text)
    ensures |ExecutionEvents(db, op, actor, id)| <= 1 && |DeliveryEvents(db, op, actor, id)| <= 1
  {
  }

  lemma AppendTimed(ops: seq<(DbOp, nat)>, op: (DbOp, nat), h: seq<Event>, es: seq<Event>)
    requires Timed(ops, h) && ClockOrdered(ops + [op]) && |es| <= 1
    requires forall e :: e in es && !e.Opened? ==> Reading(op.0) == Some(e.at)
    ensures Timed(ops + [op], h + es)
  {
    var more, g := ops + [op], h + es;
    assert more[|ops|] == op;
    forall i | 0 <= i < |g| && !g[i].Opened? ensures ReadBy(more, g[i]) {
      if i < |h| {
        var k :| 0 <= k < |ops| && Reading(ops[k].0) == Some(h[i].at);
        assert more[k] == ops[k];
      } else {
        assert g[i] in es;
      }
    }
    forall i, j | 0 <= i < j < |g| && !g[i].Opened? && !g[j].Opened? ensures g[i].at <= g[j].at {
      if j == |h| {
        assert g[j] in es;
        assert ReadBy(ops, h[i]);
        var k :| 0 <= k < |ops| && Reading(ops[k].0) == Some(h[i].at);
        assert more[k] == ops[k];
      }
    }
  }

  lemma NextTimed(ops: seq<(DbOp, nat)>, op: (DbOp, nat), id: Text)
    requires ClockOrdered(ops + [op])
    requires Timed(ops, Past(Reach(ops).executions, id)) && Timed(ops, Past(Reach(ops).deliveries, id))
    ensures Timed(ops + [op], Past(Next(Reach(ops), op.0, op.1).executions, id))
    ensures Timed(ops + [op], Past(Next(Reach(ops), op.0, op.1).deliveries, id))
  {
    var s := Reach(ops);
    if id in Step(s.db, op.0).rows {
      PastAfter(s, op.0, op.1, id);
      FewEvents(s.db, op.0, op.1, id);
      forall e | e in ExecutionEvents(s.db, op.0, op.1, id) + DeliveryEvents(s.db, op.0, op.1, id)
                 && !e.Opened?
        ensures Reading(op.0) == Some(e.at)
      {
        EventReading(s.db, op.0, op.1, id, e);
      }
      AppendTimed(ops, op, Past(s.executions, id), ExecutionEvents(s.db, op.0, op.1, id));
      AppendTimed(ops, op, Past(s.deliveries, id), DeliveryEvents(s.db, op.0, op.1, id));
    }
  }

  lemma {:induction false} RunTimed(ops: seq<(DbOp, nat)>, id: Text)
    requires ClockOrdered(ops)
    ensures Timed(ops, Past(Reach(ops).executions, id))
    ensures Timed(ops, Past(Reach(ops).deliveries, id))
  {
    if ops != [] {
      var front, last := ops[..|ops| - 1], ops[|ops| - 1];
      assert front + [last] == ops;
      RunTimed(front, id);
      NextTimed(front, last, id);
    }
  }

  /** No lease of one generation is still running when a later generation's begins. */
  ghost predicate WindowsApart(h: seq<Event>) {
    forall i, j | 0 <= i < |h| && 0 <= j < |h| && UnderLease(h[i]) && UnderLease(h[j])
                  && h[i].generation < h[j].generation ::
      h[i].until <= h[j].at
  }

  lemma SafeWindowsApart(h: seq<Event>)
    requires SafeHistory(h) && ClockForward(h)
    ensures WindowsApart(h)
  {
    forall i, j | 0 <= i < |h| && 0 <= j < |h| && UnderLease(h[i]) && UnderLease(h[j])
                  && h[i].generation < h[j].generation
      ensures h[i].until <= h[j].at
    {
      WindowsDisjoint(h, i, j);
    }
  }

  /**
   * While the store's clock never goes back, the lease windows of different generations never
   * overlap: neither those of an execution nor those of an outcome's delivery.
   */
  lemma LeaseWindowsApart(ops: seq<(DbOp, nat)>, id: Text)
    requires ClockOrdered(ops)
    ensures WindowsApart(Past(Reach(ops).executions, id))
    ensures WindowsApart(Past(Reach(ops).deliveries, id))
  {
    RunTimed(ops, id);
    HistoriesSafe(ops, id);
    SafeWindowsApart(Past(Reach(ops).executions, id));
    SafeWindowsApart(Past(Reach(ops).deliveries, id));
  }

  lemma HistoriesSafe(ops: seq<(DbOp, nat)>, id: Text)
    ensures SafeHistory(Past(Reach(ops).executions, id))
    ensures SafeHistory(Past(Reach(ops).deliveries, id))
  {
    ReachStories(ops);
    if id !in Reach(ops).db.rows {
      NothingIsSafe();
    }
  }

  lemma NothingIsSafe()
    ensures SafeHistory([])
  {
  }
}
