/**
 * Listing proposals a page at a time. The cursor is the (createdAt, id) of the last row seen; pages
 * may be read from ever newer states of the store.
 */
module Paging {
  import opened Common
  import opened Sorting
  import opened ActionProposals
  import opened ProposalRows
  import opened AgentDb

  datatype Cursor = Cursor(createdAt: int, id: Text)

  datatype Query = Query(decision: Option<Decision>, after: Option<Cursor>, limit: Option<int>)

  const DEFAULT_LIMIT := 100
  const MAX_LIMIT := 1000

  function KeyOf(row: Proposal): Cursor {
    Cursor(row.createdAt, row.Id())
  }

  predicate KeyLess(a: Cursor, b: Cursor) {
    a.createdAt < b.createdAt || (a.createdAt == b.createdAt && TextLess(a.id, b.id))
  }

  predicate RowLess(a: Proposal, b: Proposal) {
    KeyLess(KeyOf(a), KeyOf(b))
  }

  predicate IsPast(after: Option<Cursor>, row: Proposal) {
    after.Some? ==> KeyLess(after.value, KeyOf(row))
  }

  predicate Matches(row: Proposal, scope: Scope, decision: Option<Decision>, after: Option<Cursor>) {
    && row.Scope() == scope
    && (decision.Some? ==> row.decision == decision.value)
    && IsPast(after, row)
  }

  /** The rows in creation order. */
  function Values(db: Db): (rows: seq<Proposal>)
    requires forall id :: id in db.order ==> id in db.rows
  {
    seq(|db.order|, i requires 0 <= i < |db.order| => db.rows[db.order[i]])
  }

  function LimitOf(query: Query): Result<nat> {
    var limit := if query.limit.None? then DEFAULT_LIMIT else query.limit.value;
    if limit < 1 || limit > MAX_LIMIT then Failure(RangeError)
    else if query.after.Some? && !SafeInteger(query.after.value.createdAt) then Failure(RangeError)
    else if query.after.Some? && (query.after.value.id == [] || |query.after.value.id| > 255) then
      Failure(TypeError)
    else Success(limit)
  }

  /** The rows worth keeping, oldest first. */
  function Found(db: Db, keep: Proposal -> bool): seq<Proposal>
    requires forall id :: id in db.order ==> id in db.rows
  {
    Sort(Filter(Values(db), keep), RowLess)
  }

  function Matching(scope: Scope, decision: Option<Decision>, after: Option<Cursor>): Proposal -> bool {
    row => Matches(row, scope, decision, after)
  }

  function Page(db: Db, scope: Scope, decision: Option<Decision>, after: Option<Cursor>, limit: nat)
    : seq<Proposal>
    requires forall id :: id in db.order ==> id in db.rows
  {
    Take(Found(db, Matching(scope, decision, after)), limit)
  }

  function List(db: Db, scope: Scope, query: Query): Result<seq<Proposal>>
    requires forall id :: id in db.order ==> id in db.rows
  {
    match LimitOf(query)
    case Failure(e) => Failure(e)
    case Success(limit) => Success(Page(db, scope, query.decision, query.after, limit))
  }

  // ----- The order -----

  lemma KeyLessTotal(a: Cursor, b: Cursor)
    ensures a == b || KeyLess(a, b) || KeyLess(b, a)
  {
    TextLessTotal(a.id, b.id);
  }

  lemma KeyLessTransitive(a: Cursor, b: Cursor, c: Cursor)
    requires KeyLess(a, b) && KeyLess(b, c)
    ensures KeyLess(a, c)
  {
    if a.createdAt == b.createdAt && b.createdAt == c.createdAt {
      TextLessTransitive(a.id, b.id, c.id);
    }
  }

  lemma KeyLessIrreflexive(a: Cursor)
    ensures !KeyLess(a, a)
  {
    TextLessIrreflexive(a.id);
  }

  lemma RowLessStrictWeak()
    ensures StrictWeakOrder(RowLess)
  {
    forall x ensures !RowLess(x, x) {
      KeyLessIrreflexive(KeyOf(x));
    }
    forall x, y, z | RowLess(x, y) && RowLess(y, z) ensures RowLess(x, z) {
      KeyLessTransitive(KeyOf(x), KeyOf(y), KeyOf(z));
    }
    forall x, y, z | !RowLess(x, y) && !RowLess(y, z) ensures !RowLess(x, z) {
      if RowLess(x, z) {
        KeyLessTotal(KeyOf(x), KeyOf(y));
        KeyLessTotal(KeyOf(y), KeyOf(z));
        if RowLess(y, x) && RowLess(z, y) {
          KeyLessTransitive(KeyOf(z), KeyOf(y), KeyOf(x));
          KeyLessTransitive(KeyOf(x), KeyOf(z), KeyOf(x));
          KeyLessIrreflexive(KeyOf(x));
        }
      }
    }
  }

  // ----- One page -----

  ghost predicate Increasing(rows: seq<Proposal>) {
    forall i, j :: 0 <= i < j < |rows| ==> RowLess(rows[i], rows[j])
  }

  /** A page of `limit` rows: increasing, all matching, and missing only what lies beyond its end. */
  ghost predicate IsPage(db: Db, keep: Proposal -> bool, limit: nat, page: seq<Proposal>) {
    && |page| <= limit
    && Increasing(page)
    && (forall i :: 0 <= i < |page| ==>
          page[i].Id() in db.rows && db.rows[page[i].Id()] == page[i] && keep(page[i]))
    && (forall id :: id in db.rows && keep(db.rows[id]) ==> IsLeft(db.rows[id], limit, page))
  }

  /** The row is on the page, or the page is full and the row lies beyond its end. */
  predicate IsLeft(row: Proposal, limit: nat, page: seq<Proposal>) {
    row in page || (|page| == limit > 0 && RowLess(page[limit - 1], row))
  }

  lemma ValuesDistinct(db: Db)
    requires WellFormed(db)
    ensures Distinct(Values(db))
    ensures forall id :: id in db.rows ==> db.rows[id] in Values(db)
    ensures forall row :: row in Values(db) ==> row.Id() in db.rows && db.rows[row.Id()] == row
  {
    var values := Values(db);
    forall id | id in db.rows ensures db.rows[id] in values {
      var i :| 0 <= i < |db.order| && db.order[i] == id;
      assert values[i] == db.rows[id];
    }
    forall i, j | 0 <= i < j < |values| ensures values[i] != values[j] {
      assert db.order[i] != db.order[j];
      assert values[i].Id() == db.order[i] && values[j].Id() == db.order[j];
    }
  }

  /** Distinct rows sort strictly. */
  lemma SortStrict(s: seq<Proposal>)
    requires Distinct(s)
    requires forall x, y :: x in s && y in s && x.Id() == y.Id() ==> x == y
    ensures Increasing(Sort(s, RowLess))
  {
    var t := Sort(s, RowLess);
    RowLessStrictWeak();
    SortSorted(s, RowLess);
    SortDistinct(s, RowLess);
    SameElements(s, t);
    forall i, j | 0 <= i < j < |t| ensures RowLess(t[i], t[j]) {
      assert t[i] in s && t[j] in s && t[i] != t[j];
      KeyLessTotal(KeyOf(t[i]), KeyOf(t[j]));
    }
  }

  lemma TakePage(sorted: seq<Proposal>, limit: nat, row: Proposal)
    requires limit > 0 && row in sorted
    requires Increasing(sorted)
    ensures var page := Take(sorted, limit);
            row in page || (|page| == limit && RowLess(page[limit - 1], row))
  {
    var page := Take(sorted, limit);
    var i :| 0 <= i < |sorted| && sorted[i] == row;
    if i < limit {
      assert page[i] == row;
    }
  }

  lemma FoundAll(db: Db, keep: Proposal -> bool)
    requires WellFormed(db)
    ensures Increasing(Found(db, keep))
    ensures forall row :: row in Found(db, keep) <==>
              row.Id() in db.rows && db.rows[row.Id()] == row && keep(row)
  {
    ValuesDistinct(db);
    var found := Filter(Values(db), keep);
    FilterDistinct(Values(db), keep);
    SortStrict(found);
    SameElements(found, Sort(found, RowLess));
  }

  lemma TakeIsPage(db: Db, keep: Proposal -> bool, limit: nat)
    requires WellFormed(db) && limit > 0
    ensures IsPage(db, keep, limit, Take(Found(db, keep), limit))
  {
    var sorted := Found(db, keep);
    var page := Take(sorted, limit);
    FoundAll(db, keep);
    assert forall i :: 0 <= i < |page| ==> page[i] == sorted[i] && sorted[i] in sorted;
    forall id | id in db.rows && keep(db.rows[id]) ensures IsLeft(db.rows[id], limit, page) {
      assert db.rows[id].Id() == id;
      TakePage(sorted, limit, db.rows[id]);
    }
  }

  /** What a list query returns is such a page. */
  lemma PageIsPage(db: Db, scope: Scope, decision: Option<Decision>, after: Option<Cursor>, limit: nat)
    requires WellFormed(db) && limit > 0
    ensures IsPage(db, Matching(scope, decision, after), limit, Page(db, scope, decision, after, limit))
  {
    TakeIsPage(db, Matching(scope, decision, after), limit);
  }

  // ----- A walk over the pages -----

  /** A later state of the store: rows may have moved and been added, but none lost or renamed. */
  ghost predicate Extends(db: Db, later: Db) {
    forall id :: id in db.rows ==>
      id in later.rows && later.rows[id].creation == db.rows[id].creation
      && later.rows[id].createdAt == db.rows[id].createdAt
  }

  /** Every operation only extends the store. */
  lemma StepExtends(db: Db, op: DbOp)
    requires WellFormed(db)
    ensures Extends(db, Step(db, op))
  {
    StepMovesRows(db, op);
    forall id | id in db.rows
      ensures id in Step(db, op).rows && Step(db, op).rows[id].creation == db.rows[id].creation
      ensures Step(db, op).rows[id].createdAt == db.rows[id].createdAt
    {
      var move := MoveOf(db, op, id);
      if move.Some? {
        MoveKeepsIdentity(db.rows[id], move.value);
      }
    }
  }

  lemma ExtendsTransitive(a: Db, b: Db, c: Db)
    requires Extends(a, b) && Extends(b, c)
    ensures Extends(a, c)
  {
  }

  lemma RunMore(ops: seq<DbOp>, more: seq<DbOp>)
    requires more != []
    ensures Run(ops + more) == Step(Run(ops + more[..|more| - 1]), more[|more| - 1])
  {
    assert (ops + more)[..|ops + more| - 1] == ops + more[..|more| - 1];
  }

  /** Whatever happens between two pages, the store they are read from is only extended. */
  lemma {:induction false} RunExtends(ops: seq<DbOp>, more: seq<DbOp>)
    ensures Extends(Run(ops), Run(ops + more))
  {
    if more == [] {
      assert ops + more == ops;
    } else {
      var front := more[..|more| - 1];
      RunExtends(ops, front);
      RunWellFormed(ops + front);
      StepExtends(Run(ops + front), more[|more| - 1]);
      RunMore(ops, more);
      ExtendsTransitive(Run(ops), Run(ops + front), Run(ops + more));
    }
  }

  function Flatten<T>(pages: seq<seq<T>>): seq<T> {
    if pages == [] then [] else pages[0] + Flatten(pages[1..])
  }

  /** The cursor the next page is asked with. */
  function CursorAfter(page: seq<Proposal>): Cursor
    requires page != []
  {
    KeyOf(page[|page| - 1])
  }

  /**
   * A client reads page after page, each from whatever state the store is in by then, until one
   * comes back short.
   */
  ghost predicate IsWalk(dbs: seq<Db>, pages: seq<seq<Proposal>>, scope: Scope, after: Option<Cursor>,
                         limit: nat)
  {
    && |dbs| == |pages| > 0
    && WellFormed(dbs[0])
    && pages[0] == Page(dbs[0], scope, None, after, limit)
    && (if |pages| == 1 then |pages[0]| < limit
        else
          && |pages[0]| == limit > 0
          && Extends(dbs[0], dbs[1])
          && IsWalk(dbs[1..], pages[1..], scope, Some(CursorAfter(pages[0])), limit))
  }

  predicate Shows(rows: seq<Proposal>, id: Text) {
    exists i :: 0 <= i < |rows| && rows[i].Id() == id
  }

  lemma AppendIncreasing(page: seq<Proposal>, rest: seq<Proposal>)
    requires Increasing(page) && Increasing(rest)
    requires page != [] && forall i :: 0 <= i < |rest| ==> RowLess(page[|page| - 1], rest[i])
    ensures Increasing(page + rest)
  {
    var all := page + rest;
    forall i, j | 0 <= i < j < |all| ensures RowLess(all[i], all[j]) {
      if i < |page| <= j && i < |page| - 1 {
        KeyLessTransitive(KeyOf(page[i]), KeyOf(page[|page| - 1]), KeyOf(rest[j - |page|]));
      }
    }
  }

  lemma ShowsMore(page: seq<Proposal>, rest: seq<Proposal>, id: Text)
    requires Shows(page, id) || Shows(rest, id)
    ensures Shows(page + rest, id)
  {
    if Shows(page, id) {
      var i :| 0 <= i < |page| && page[i].Id() == id;
      assert (page + rest)[i] == page[i];
    } else {
      var i :| 0 <= i < |rest| && rest[i].Id() == id;
      assert (page + rest)[|page| + i] == rest[i];
    }
  }

  /** What a page leaves out is beyond its last row. */
  lemma LeftForLater(db: Db, scope: Scope, after: Option<Cursor>, limit: nat, page: seq<Proposal>, id: Text)
    requires IsPage(db, Matching(scope, None, after), limit, page)
    requires id in db.rows && Matches(db.rows[id], scope, None, after) && db.rows[id].Id() == id
    ensures Shows(page, id) || (|page| == limit > 0 && RowLess(page[limit - 1], db.rows[id]))
  {
    assert IsLeft(db.rows[id], limit, page);
    if db.rows[id] in page {
      var i :| 0 <= i < |page| && page[i] == db.rows[id];
      assert page[i].Id() == id;
    }
  }

  /** Every row shown is of the scope and past the cursor. */
  ghost predicate AllMatch(rows: seq<Proposal>, scope: Scope, after: Option<Cursor>) {
    forall i :: 0 <= i < |rows| ==> Matches(rows[i], scope, None, after)
  }

  lemma AppendMatches(page: seq<Proposal>, rest: seq<Proposal>, scope: Scope, after: Option<Cursor>)
    requires page != [] && AllMatch(page, scope, after)
    requires AllMatch(rest, scope, Some(CursorAfter(page)))
    ensures AllMatch(page + rest, scope, after)
  {
    forall i | 0 <= i < |page + rest| ensures Matches((page + rest)[i], scope, None, after) {
      if i >= |page| {
        assert Matches(page[|page| - 1], scope, None, after);
        if after.Some? {
          KeyLessTransitive(after.value, CursorAfter(page), KeyOf(rest[i - |page|]));
        }
      }
    }
  }

  /** The rows of a whole walk come in strictly increasing order. */
  lemma {:induction false} WalkIncreases(dbs: seq<Db>, pages: seq<seq<Proposal>>, scope: Scope,
                                         after: Option<Cursor>, limit: nat)
    requires limit > 0 && IsWalk(dbs, pages, scope, after, limit)
    ensures Increasing(Flatten(pages)) && AllMatch(Flatten(pages), scope, after)
  {
    var page := pages[0];
    PageIsPage(dbs[0], scope, None, after, limit);
    assert Increasing(page) && AllMatch(page, scope, after);
    if |pages| == 1 {
      assert pages[1..] == [];
      assert Flatten(pages) == page;
    } else {
      var rest := Flatten(pages[1..]);
      WalkIncreases(dbs[1..], pages[1..], scope, Some(CursorAfter(page)), limit);
      forall i | 0 <= i < |rest| ensures RowLess(page[|page| - 1], rest[i]) {
        assert Matches(rest[i], scope, None, Some(CursorAfter(page)));
      }
      AppendIncreasing(page, rest);
      AppendMatches(page, rest, scope, after);
    }
  }

  /** Every row there at the start, and past the cursor, is shown. */
  lemma {:induction false} WalkShows(dbs: seq<Db>, pages: seq<seq<Proposal>>, scope: Scope,
                                     after: Option<Cursor>, limit: nat, id: Text)
    requires limit > 0 && IsWalk(dbs, pages, scope, after, limit)
    requires id in dbs[0].rows && Matches(dbs[0].rows[id], scope, None, after)
    ensures Shows(Flatten(pages), id)
  {
    var page := pages[0];
    PageIsPage(dbs[0], scope, None, after, limit);
    LeftForLater(dbs[0], scope, after, limit, page, id);
    if |pages| == 1 {
      assert pages[1..] == [];
      assert Flatten(pages) == page;
    } else {
      if !Shows(page, id) {
        assert Matches(dbs[1].rows[id], scope, None, Some(CursorAfter(page)));
        WalkShows(dbs[1..], pages[1..], scope, Some(CursorAfter(page)), limit, id);
      }
      ShowsMore(page, Flatten(pages[1..]), id);
    }
  }

  /** Every row shown is there at the end, created when it was shown to be. */
  ghost predicate AllStored(rows: seq<Proposal>, db: Db) {
    forall i :: 0 <= i < |rows| ==>
      rows[i].Id() in db.rows && db.rows[rows[i].Id()].createdAt == rows[i].createdAt
  }

  lemma PageStored(db: Db, scope: Scope, after: Option<Cursor>, limit: nat, later: Db)
    requires WellFormed(db) && limit > 0 && Extends(db, later)
    ensures AllStored(Page(db, scope, None, after, limit), later)
  {
    PageIsPage(db, scope, None, after, limit);
  }

  lemma AppendStored(page: seq<Proposal>, rest: seq<Proposal>, db: Db)
    requires AllStored(page, db) && AllStored(rest, db)
    ensures AllStored(page + rest, db)
  {
  }

  lemma {:induction false} WalkExtends(dbs: seq<Db>, pages: seq<seq<Proposal>>, scope: Scope,
                                       after: Option<Cursor>, limit: nat)
    requires IsWalk(dbs, pages, scope, after, limit)
    ensures Extends(dbs[0], dbs[|dbs| - 1])
  {
    if |pages| > 1 {
      WalkExtends(dbs[1..], pages[1..], scope, Some(CursorAfter(pages[0])), limit);
      ExtendsTransitive(dbs[0], dbs[1], dbs[|dbs| - 1]);
    }
  }

  lemma FirstPageStored(dbs: seq<Db>, pages: seq<seq<Proposal>>, scope: Scope, after: Option<Cursor>, limit: nat)
    requires limit > 0 && IsWalk(dbs, pages, scope, after, limit) && pages != []
    ensures AllStored(pages[0], dbs[|dbs| - 1])
  {
    WalkExtends(dbs, pages, scope, after, limit);
    PageStored(dbs[0], scope, after, limit, dbs[|dbs| - 1]);
  }

  lemma {:induction false} WalkPageStored(dbs: seq<Db>, pages: seq<seq<Proposal>>, scope: Scope,
                                          after: Option<Cursor>, limit: nat, k: nat)
    requires limit > 0 && IsWalk(dbs, pages, scope, after, limit) && k < |pages|
    ensures AllStored(pages[k], dbs[|dbs| - 1])
  {
    if k == 0 {
      FirstPageStored(dbs, pages, scope, after, limit);
    } else {
      assert IsWalk(dbs[1..], pages[1..], scope, Some(CursorAfter(pages[0])), limit);
      WalkPageStored(dbs[1..], pages[1..], scope, Some(CursorAfter(pages[0])), limit, k - 1);
      assert pages[1..][k - 1] == pages[k] && dbs[1..][|dbs| - 2] == dbs[|dbs| - 1];
    }
  }

  lemma {:induction false} FlattenStored(pages: seq<seq<Proposal>>, db: Db)
    requires forall k :: 0 <= k < |pages| ==> AllStored(pages[k], db)
    ensures AllStored(Flatten(pages), db)
  {
    if pages != [] {
      FlattenStored(pages[1..], db);
      AppendStored(pages[0], Flatten(pages[1..]), db);
    }
  }

  lemma WalkStored(dbs: seq<Db>, pages: seq<seq<Proposal>>, scope: Scope,
                   after: Option<Cursor>, limit: nat)
    requires limit > 0 && IsWalk(dbs, pages, scope, after, limit)
    ensures AllStored(Flatten(pages), dbs[|dbs| - 1])
  {
    forall k | 0 <= k < |pages| ensures AllStored(pages[k], dbs[|dbs| - 1]) {
      WalkPageStored(dbs, pages, scope, after, limit, k);
    }
    FlattenStored(pages, dbs[|dbs| - 1]);
  }

  /** How many times a row is shown. */
  function Showings(rows: seq<Proposal>, id: Text): nat {
    if rows == [] then 0 else (if rows[0].Id() == id then 1 else 0) + Showings(rows[1..], id)
  }

  lemma {:induction false} IncreasingShowsOnce(rows: seq<Proposal>, id: Text)
    requires forall i, j :: 0 <= i < j < |rows| ==> rows[i].Id() != rows[j].Id()
    ensures Showings(rows, id) == if Shows(rows, id) then 1 else 0
  {
    if rows != [] {
      IncreasingShowsOnce(rows[1..], id);
      if Shows(rows[1..], id) {
        var i :| 0 <= i < |rows[1..]| && rows[1..][i].Id() == id;
        assert rows[i + 1].Id() == id;
      }
      if rows[0].Id() != id && Shows(rows, id) {
        var i :| 0 <= i < |rows| && rows[i].Id() == id;
        assert rows[1..][i - 1].Id() == id;
      }
    }
  }

  /**
   * A walk from the first page to a short one, with any transitions and creations in between, shows
   * rows in strictly increasing order, no proposal twice, and each of the scope's proposals that was
   * there at the start exactly once.
   */
  lemma WalkShowsEachOnce(dbs: seq<Db>, pages: seq<seq<Proposal>>, scope: Scope, limit: nat)
    requires 0 < limit <= MAX_LIMIT && IsWalk(dbs, pages, scope, None, limit)
    ensures Increasing(Flatten(pages))
    ensures forall id :: Showings(Flatten(pages), id) <= 1
    ensures forall id :: id in dbs[0].rows && dbs[0].rows[id].Scope() == scope ==>
              Showings(Flatten(pages), id) == 1
  {
    WalkIncreases(dbs, pages, scope, None, limit);
    WalkStored(dbs, pages, scope, None, limit);
    var rows := Flatten(pages);
    forall i, j | 0 <= i < j < |rows| ensures rows[i].Id() != rows[j].Id() {
      KeyLessIrreflexive(KeyOf(rows[i]));
      assert RowLess(rows[i], rows[j]);
    }
    forall id ensures Showings(rows, id) == (if Shows(rows, id) then 1 else 0) {
      IncreasingShowsOnce(rows, id);
    }
    forall id | id in dbs[0].rows && dbs[0].rows[id].Scope() == scope ensures Shows(rows, id) {
      WalkShows(dbs, pages, scope, None, limit, id);
    }
  }
}
