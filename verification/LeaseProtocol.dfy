/**
 * One fenced lease over one piece of work, as a machine with a history. The execution of an approved
 * proposal is such a piece of work, and so is the delivery of its outcome: a holder takes it under a
 * generation one above the last, may extend its lease, and finishes it at most once. Nothing here
 * assumes that tokens are unique, and only `WindowsDisjoint` assumes anything about the clock.
 */
module LeaseProtocol {
  import opened Common
  import opened ActionProposals

  /** Not yet there to take; there to take (under the current lease, if any); or done. */
  datatype Work =
    | Absent
    | Open(generation: int, lease: Option<Lease>)
    | Finished(generation: int)

  /** What happened to the work. `actor` is whoever asked. */
  datatype Event =
    | Opened(at: int)
    | Claimed(actor: nat, generation: int, token: Text, at: int, until: int)
    | Renewed(actor: nat, generation: int, token: Text, at: int, until: int)
    | Settled(actor: nat, generation: int, token: Text, at: int)

  datatype LeaseStep =
    | Stay
    | Start(at: int)
    | Take(actor: nat, token: Text, workerId: Text, at: int, until: int)
    | Renew(actor: nat, fence: Fence, at: int, until: int)
    | Finish(actor: nat, fence: Fence, at: int)

  /** The lease under `fence` is the current one and has not run out. */
  predicate Live(w: Work, fence: Fence, now: int) {
    && w.Open?
    && w.generation == fence.generation
    && w.lease.Some?
    && w.lease.value.token == fence.token
    && w.lease.value.generation == fence.generation
    && now < w.lease.value.expiresAt
  }

  predicate Takeable(w: Work, now: int) {
    w.Open? && (w.lease.Some? ==> now >= w.lease.value.expiresAt)
  }

  predicate Enabled(w: Work, s: LeaseStep) {
    match s
    case Stay => true
    case Start(_) => w.Absent?
    case Take(_, _, _, at, until) => Takeable(w, at)
    case Renew(_, fence, at, until) => Live(w, fence, at) && w.lease.value.expiresAt <= until
    case Finish(_, fence, at) => Live(w, fence, at)
  }

  function After(w: Work, s: LeaseStep): Work
    requires Enabled(w, s)
  {
    match s
    case Stay => w
    case Start(_) => Open(0, None)
    case Take(_, token, workerId, at, until) =>
      Open(w.generation + 1, Some(Lease(token, w.generation + 1, workerId, until)))
    case Renew(_, _, _, until) => w.(lease := Some(w.lease.value.(expiresAt := until)))
    case Finish(_, _, _) => Finished(w.generation)
  }

  function Happened(w: Work, s: LeaseStep): seq<Event>
    requires Enabled(w, s)
  {
    match s
    case Stay => []
    case Start(at) => [Opened(at)]
    case Take(actor, token, _, at, until) => [Claimed(actor, w.generation + 1, token, at, until)]
    case Renew(actor, fence, at, until) => [Renewed(actor, fence.generation, fence.token, at, until)]
    case Finish(actor, fence, at) => [Settled(actor, fence.generation, fence.token, at)]
  }

  // ----- What a history must look like -----

  /** How many generations a history has issued. */
  function Issued(h: seq<Event>): nat {
    if h == [] then 0
    else Issued(h[..|h| - 1]) + (if h[|h| - 1].Claimed? then 1 else 0)
  }

  predicate UnderLease(e: Event) {
    e.Claimed? || e.Renewed?
  }

  /** A claim issues the next generation; everything else happens under the highest one issued. */
  ghost predicate Numbered(h: seq<Event>) {
    forall j :: 0 <= j < |h| && !h[j].Opened? ==> h[j].generation == Issued(h[..j + 1])
  }

  /** The claim before `j` that was issued `h[j]`'s generation, with `h[j]`'s token. */
  predicate IsClaimOf(h: seq<Event>, i: int, j: int)
    requires 0 <= i < |h| && 0 <= j < |h| && !h[j].Opened?
  {
    i <= j && h[i].Claimed? && h[i].generation == h[j].generation && h[i].token == h[j].token
  }

  ghost predicate HasClaim(h: seq<Event>, j: int)
    requires 0 <= j < |h| && !h[j].Opened?
  {
    exists i :: 0 <= i < |h| && IsClaimOf(h, i, j)
  }

  /** Whoever renews or settles presents the token its generation was issued with. */
  ghost predicate ActedByHolder(h: seq<Event>) {
    forall j {:trigger HasClaim(h, j)} :: 0 <= j < |h| && !h[j].Opened? ==> HasClaim(h, j)
  }

  /** Nothing happens after a settlement. */
  ghost predicate SettledLast(h: seq<Event>) {
    forall i :: 0 <= i < |h| && h[i].Settled? ==> i == |h| - 1
  }

  /** The work was opened before anything else, once. */
  ghost predicate OpenedFirst(h: seq<Event>) {
    && (h != [] ==> h[0].Opened?)
    && (forall i :: 0 < i < |h| ==> !h[i].Opened?)
  }

  predicate TakesOver(later: Event, earlier: Event)
    requires UnderLease(earlier)
  {
    later.Claimed? && later.generation == earlier.generation + 1
  }

  /** A takeover waits for every lease of the generation before it to run out. */
  ghost predicate TakenAfterExpiry(h: seq<Event>) {
    forall i, j :: 0 <= i < j < |h| && UnderLease(h[i]) && TakesOver(h[j], h[i]) ==>
      h[i].until <= h[j].at
  }

  ghost predicate SafeHistory(h: seq<Event>) {
    Numbered(h) && ActedByHolder(h) && SettledLast(h) && OpenedFirst(h) && TakenAfterExpiry(h)
  }

  /** The current lease is the one its generation was issued, and outlasts all it was extended to. */
  ghost predicate LeaseLinked(lease: Lease, h: seq<Event>) {
    && lease.generation == Issued(h)
    && (exists i :: 0 <= i < |h| && h[i].Claimed? && h[i].generation == lease.generation
                    && h[i].token == lease.token)
    && (forall i :: 0 <= i < |h| && UnderLease(h[i]) && h[i].generation == lease.generation ==>
          h[i].until <= lease.expiresAt)
  }

  /** The history and the current state tell the same story. */
  ghost predicate Linked(w: Work, h: seq<Event>) {
    match w
    case Absent => h == []
    case Open(generation, lease) =>
      && h != []
      && generation == Issued(h)
      && (lease.None? <==> generation == 0)
      && (forall i :: 0 <= i < |h| ==> !h[i].Settled?)
      && (lease.Some? ==> LeaseLinked(lease.value, h))
    case Finished(generation) =>
      h != [] && h[|h| - 1].Settled? && generation == Issued(h)
  }

  // ----- Counting -----

  lemma IssuedAppend(h: seq<Event>, e: Event)
    ensures Issued(h + [e]) == Issued(h) + (if e.Claimed? then 1 else 0)
  {
    assert (h + [e])[..|h + [e]| - 1] == h;
  }

  lemma IssuedNext(h: seq<Event>, j: nat)
    requires j < |h|
    ensures Issued(h[..j + 1]) == Issued(h[..j]) + (if h[j].Claimed? then 1 else 0)
  {
    assert h[..j + 1] == h[..j] + [h[j]];
    IssuedAppend(h[..j], h[j]);
  }

  lemma {:induction false} IssuedMonotone(h: seq<Event>, i: nat, j: nat)
    requires i <= j <= |h|
    ensures Issued(h[..i]) <= Issued(h[..j])
  {
    if i < j {
      IssuedMonotone(h, i, j - 1);
      IssuedNext(h, j - 1);
    }
  }

  /** No event carries a generation that was not yet issued. */
  lemma IssuedCoversAll(h: seq<Event>)
    requires Numbered(h)
    ensures forall i :: 0 <= i < |h| && !h[i].Opened? ==> h[i].generation <= Issued(h)
  {
    assert h[..|h|] == h;
    forall i | 0 <= i < |h| && !h[i].Opened? ensures h[i].generation <= Issued(h) {
      IssuedMonotone(h, i + 1, |h|);
    }
  }

  // ----- One more event -----

  lemma AppendNumbered(h: seq<Event>, e: Event)
    requires Numbered(h)
    requires !e.Opened? ==> e.generation == Issued(h + [e])
    ensures Numbered(h + [e])
  {
    var g := h + [e];
    assert g[..|g|] == g;
    forall j | 0 <= j < |g| && !g[j].Opened? ensures g[j].generation == Issued(g[..j + 1]) {
      if j < |h| {
        assert g[..j + 1] == h[..j + 1];
      }
    }
  }

  lemma AppendActed(h: seq<Event>, e: Event, c: nat)
    requires ActedByHolder(h)
    requires c <= |h|
    requires !e.Opened? ==> IsClaimOf(h + [e], c, |h|)
    ensures ActedByHolder(h + [e])
  {
    var g := h + [e];
    forall j | 0 <= j < |g| && !g[j].Opened? ensures HasClaim(g, j) {
      if j < |h| {
        assert HasClaim(h, j);
        var i :| 0 <= i < |h| && IsClaimOf(h, i, j);
        assert IsClaimOf(g, i, j);
      } else {
        assert IsClaimOf(g, c, j);
      }
    }
  }

  lemma AppendLeaseLinked(h: seq<Event>, e: Event, lease: Lease, c: nat)
    requires e.Claimed? || e.Renewed?
    requires lease.generation == Issued(h + [e])
    requires c <= |h|
    requires e.generation == lease.generation && e.until <= lease.expiresAt
    requires (h + [e])[c].Claimed? && (h + [e])[c].generation == lease.generation
    requires (h + [e])[c].token == lease.token
    requires forall i :: 0 <= i < |h| && UnderLease(h[i]) && h[i].generation == lease.generation ==>
               h[i].until <= lease.expiresAt
    ensures LeaseLinked(lease, h + [e])
  {
  }

  /** Every enabled step keeps the history safe, and in step with the state. */
  lemma StepKeepsHistory(w: Work, h: seq<Event>, s: LeaseStep)
    requires Linked(w, h) && SafeHistory(h) && Enabled(w, s)
    ensures SafeHistory(h + Happened(w, s))
    ensures Linked(After(w, s), h + Happened(w, s))
  {
    match s
    case Stay => assert h + [] == h;
    case Start(at) => StartKeepsHistory(h, at);
    case Take(_, _, _, _, _) => TakeKeepsHistory(w, h, s);
    case Renew(_, _, _, _) => RenewKeepsHistory(w, h, s);
    case Finish(_, _, _) => FinishKeepsHistory(w, h, s);
  }

  lemma StartKeepsHistory(h: seq<Event>, at: int)
    requires h == []
    ensures SafeHistory(h + [Opened(at)]) && Linked(Open(0, None), h + [Opened(at)])
  {
    IssuedAppend(h, Opened(at));
  }

  lemma AppendSafe(h: seq<Event>, e: Event, c: nat)
    requires SafeHistory(h) && h != [] && !e.Opened?
    requires forall i :: 0 <= i < |h| ==> !h[i].Settled?
    requires e.generation == Issued(h + [e])
    requires c <= |h| && IsClaimOf(h + [e], c, |h|)
    requires forall i :: 0 <= i < |h| && UnderLease(h[i]) && TakesOver(e, h[i]) ==>
               h[i].until <= e.at
    ensures SafeHistory(h + [e])
  {
    AppendNumbered(h, e);
    AppendActed(h, e, c);
  }

  /** Generations start at one. */
  lemma GenerationPositive(h: seq<Event>, i: nat)
    requires Numbered(h) && ActedByHolder(h) && i < |h| && !h[i].Opened?
    ensures h[i].generation >= 1
  {
    assert HasClaim(h, i);
    var c :| 0 <= c < |h| && IsClaimOf(h, c, i);
    IssuedNext(h, c);
  }

  lemma TakeWaited(w: Work, h: seq<Event>, now: int)
    requires Linked(w, h) && Numbered(h) && ActedByHolder(h) && Takeable(w, now)
    ensures forall i :: 0 <= i < |h| && UnderLease(h[i]) && h[i].generation == w.generation ==>
              h[i].until <= now
  {
    forall i | 0 <= i < |h| && UnderLease(h[i]) && h[i].generation == w.generation
      ensures h[i].until <= now
    {
      GenerationPositive(h, i);
    }
  }

  lemma TakeKeepsHistory(w: Work, h: seq<Event>, s: LeaseStep)
    requires Linked(w, h) && SafeHistory(h) && s.Take? && Enabled(w, s)
    ensures SafeHistory(h + Happened(w, s)) && Linked(After(w, s), h + Happened(w, s))
  {
    var e := Claimed(s.actor, w.generation + 1, s.token, s.at, s.until);
    assert Happened(w, s) == [e];
    IssuedAppend(h, e);
    IssuedCoversAll(h);
    TakeWaited(w, h, s.at);
    AppendClaim(h, e, Lease(s.token, w.generation + 1, s.workerId, s.until));
  }

  lemma AppendClaim(h: seq<Event>, e: Event, lease: Lease)
    requires SafeHistory(h) && h != [] && e.Claimed? && e.generation == Issued(h) + 1
    requires forall i :: 0 <= i < |h| ==> !h[i].Settled?
    requires forall i :: 0 <= i < |h| && !h[i].Opened? ==> h[i].generation <= Issued(h)
    requires forall i :: 0 <= i < |h| && UnderLease(h[i]) && h[i].generation == Issued(h) ==>
               h[i].until <= e.at
    requires lease.token == e.token && lease.generation == e.generation
    requires lease.expiresAt == e.until
    ensures SafeHistory(h + [e]) && LeaseLinked(lease, h + [e])
  {
    IssuedAppend(h, e);
    assert (h + [e])[|h|] == e;
    AppendSafe(h, e, |h|);
    AppendLeaseLinked(h, e, lease, |h|);
  }

  lemma RenewKeepsHistory(w: Work, h: seq<Event>, s: LeaseStep)
    requires Linked(w, h) && SafeHistory(h) && s.Renew? && Enabled(w, s)
    ensures SafeHistory(h + Happened(w, s)) && Linked(After(w, s), h + Happened(w, s))
  {
    var e := Renewed(s.actor, s.fence.generation, s.fence.token, s.at, s.until);
    assert Happened(w, s) == [e];
    var c :| 0 <= c < |h| && h[c].Claimed? && h[c].generation == w.lease.value.generation
             && h[c].token == w.lease.value.token;
    IssuedAppend(h, e);
    assert (h + [e])[c] == h[c];
    assert IsClaimOf(h + [e], c, |h|);
    AppendSafe(h, e, c);
    AppendLeaseLinked(h, e, w.lease.value.(expiresAt := s.until), c);
  }

  lemma FinishKeepsHistory(w: Work, h: seq<Event>, s: LeaseStep)
    requires Linked(w, h) && SafeHistory(h) && s.Finish? && Enabled(w, s)
    ensures SafeHistory(h + Happened(w, s)) && Linked(After(w, s), h + Happened(w, s))
  {
    var e := Settled(s.actor, s.fence.generation, s.fence.token, s.at);
    assert Happened(w, s) == [e];
    var c :| 0 <= c < |h| && h[c].Claimed? && h[c].generation == w.lease.value.generation
             && h[c].token == w.lease.value.token;
    IssuedAppend(h, e);
    assert (h + [e])[c] == h[c];
    assert IsClaimOf(h + [e], c, |h|);
    AppendSafe(h, e, c);
  }

  // ----- What a safe history means -----

  /** The work is settled at most once. */
  lemma SettledAtMostOnce(h: seq<Event>, i: nat, j: nat)
    requires SafeHistory(h)
    requires i < |h| && j < |h| && h[i].Settled? && h[j].Settled?
    ensures i == j
  {
  }

  /** A settlement is the last event, by the holder of the highest generation, under its token. */
  lemma SettledByHighest(h: seq<Event>, i: nat)
    requires SafeHistory(h) && i < |h| && h[i].Settled?
    ensures i == |h| - 1 && h[0].Opened?
    ensures exists c :: 0 <= c < |h| && IsClaimOf(h, c, i)
    ensures forall k :: 0 <= k < |h| && !h[k].Opened? ==> h[k].generation <= h[i].generation
  {
    IssuedCoversAll(h);
    assert HasClaim(h, i);
    assert h[..|h|] == h;
  }

  /** After a takeover, nothing is ever done again under the generation taken over. */
  lemma TakenOverIsFenced(h: seq<Event>, i: nat, k: nat)
    requires Numbered(h)
    requires i < k < |h| && !h[i].Opened? && !h[k].Opened?
    ensures h[k].generation >= h[i].generation
    ensures h[k].Claimed? ==> h[k].generation > h[i].generation
  {
    IssuedMonotone(h, i + 1, k);
    IssuedNext(h, k);
  }

  lemma {:induction false} ClaimOfGeneration(h: seq<Event>, n: nat, g: int) returns (i: nat)
    requires Numbered(h) && n <= |h|
    requires 1 <= g <= Issued(h[..n])
    ensures i < n && h[i].Claimed? && h[i].generation == g
  {
    IssuedNext(h, n - 1);
    if g <= Issued(h[..n - 1]) {
      i := ClaimOfGeneration(h, n - 1, g);
    } else {
      i := n - 1;
    }
  }

  /** Between two generations stands the claim that took the first one over. */
  lemma TakeoverBetween(h: seq<Event>, i: nat, j: nat) returns (k: nat)
    requires Numbered(h)
    requires i < |h| && j < |h| && UnderLease(h[i]) && UnderLease(h[j])
    requires h[i].generation < h[j].generation
    ensures i < k <= j && TakesOver(h[k], h[i])
  {
    if j < i {
      TakenOverIsFenced(h, j, i);
    }
    k := ClaimOfGeneration(h, j + 1, h[i].generation + 1);
    if k < i {
      TakenOverIsFenced(h, k, i);
    }
  }

  /** Claims, renewals and settlements in order of a clock that never goes back. */
  ghost predicate ClockForward(h: seq<Event>) {
    forall i, j :: 0 <= i < j < |h| && !h[i].Opened? && !h[j].Opened? ==> h[i].at <= h[j].at
  }

  /** With a clock that never goes back, the lease windows of different generations do not overlap. */
  lemma WindowsDisjoint(h: seq<Event>, i: nat, j: nat)
    requires SafeHistory(h) && ClockForward(h)
    requires i < |h| && j < |h| && UnderLease(h[i]) && UnderLease(h[j])
    requires h[i].generation < h[j].generation
    ensures i < j && h[i].until <= h[j].at
  {
    var k := TakeoverBetween(h, i, j);
    assert h[i].until <= h[k].at;
  }
}
