/**
 * What the assistant is shown of its memories: one entry per key, answered by the most specific scope
 * with the values it beat beside it, as many as the ceiling allows, pinned ones first.
 */
module Memory {
  import opened Common
  import opened Sorting

  datatype Record = Record(
    id: Text, key: Text, text: Text, scope: Text, author: Text, updatedAt: Text, pinned: bool)

  datatype Overridden = Overridden(scope: Text, text: Text, author: Text)

  /** The record that answers a key, whether any record of the key is pinned, and what it beat. */
  datatype Entry = Entry(record: Record, pinned: bool, overrides: seq<Overridden>)

  datatype Digest = Digest(entries: seq<Entry>, omitted: int, pinnedOmitted: int)

  const DEFAULT_MAX := 20

  // ----- Scopes -----

  /** The place of a scope in the list, most specific first; its last one if it is listed twice. */
  function Rank(scopes: seq<Text>, scope: Text): (i: nat)
    ensures scope in scopes ==> i < |scopes| && scopes[i] == scope
  {
    if scopes == [] then 0
    else if scopes[|scopes| - 1] == scope then |scopes| - 1
    else
      assert scopes == scopes[..|scopes| - 1] + [scopes[|scopes| - 1]];
      Rank(scopes[..|scopes| - 1], scope)
  }

  function InScopes(scopes: seq<Text>): Record -> bool {
    (r: Record) => r.scope in scopes
  }

  function OfKey(key: Text): Record -> bool {
    (r: Record) => r.key == key
  }

  function ByRank(scopes: seq<Text>): (Record, Record) -> bool {
    (a: Record, b: Record) => Rank(scopes, a.scope) < Rank(scopes, b.scope)
  }

  // ----- One entry per key -----

  /** The keys, in the order they are first met. */
  function Keys(records: seq<Record>): (keys: seq<Text>)
    ensures forall k :: k in keys <==> exists i :: 0 <= i < |records| && records[i].key == k
    ensures Distinct(keys)
  {
    if records == [] then []
    else
      var front := Keys(records[..|records| - 1]);
      var key := records[|records| - 1].key;
      assert records == records[..|records| - 1] + [records[|records| - 1]];
      if key in front then front else front + [key]
  }

  function Beaten(r: Record): Overridden {
    Overridden(r.scope, r.text, r.author)
  }

  function Overrides(ordered: seq<Record>): (o: seq<Overridden>)
    requires |ordered| > 0
    ensures |o| == |ordered| - 1 && forall i :: 0 <= i < |o| ==> o[i] == Beaten(ordered[i + 1])
  {
    seq(|ordered| - 1, i requires 0 <= i < |ordered| - 1 => Beaten(ordered[i + 1]))
  }

  predicate AnyPinned(records: seq<Record>) {
    exists i :: 0 <= i < |records| && records[i].pinned
  }

  function EntryFor(candidates: seq<Record>, scopes: seq<Text>): Entry
    requires |candidates| > 0
  {
    var ordered := Sort(candidates, ByRank(scopes));
    Entry(ordered[0], AnyPinned(ordered), Overrides(ordered))
  }

  function Kept(records: seq<Record>, scopes: seq<Text>): seq<Record> {
    Filter(records, InScopes(scopes))
  }

  function Candidates(records: seq<Record>, key: Text): seq<Record> {
    Filter(records, OfKey(key))
  }

  lemma KeyHasCandidates(records: seq<Record>, key: Text)
    requires key in Keys(records)
    ensures |Candidates(records, key)| > 0
  {
    var i :| 0 <= i < |records| && records[i].key == key;
    assert records[i] in Candidates(records, key);
  }

  /** The entry of each key of the kept records, in the order the keys were met. */
  function EntriesOf(kept: seq<Record>, keys: seq<Text>, scopes: seq<Text>): (entries: seq<Entry>)
    requires forall k :: k in keys ==> k in Keys(kept)
    ensures |entries| == |keys|
  {
    if keys == [] then []
    else
      KeyHasCandidates(kept, keys[0]);
      [EntryFor(Candidates(kept, keys[0]), scopes)] + EntriesOf(kept, keys[1..], scopes)
  }

  function Resolved(records: seq<Record>, scopes: seq<Text>): seq<Entry> {
    var kept := Kept(records, scopes);
    EntriesOf(kept, Keys(kept), scopes)
  }

  // ----- Choosing and arranging -----

  function PinRank(e: Entry): int {
    if e.pinned then 0 else 1
  }

  predicate PrecedenceLess(scopes: seq<Text>, a: Record, b: Record) {
    var i, j := Rank(scopes, a.scope), Rank(scopes, b.scope);
    i < j || (i == j && (TextLess(b.updatedAt, a.updatedAt)
                         || (a.updatedAt == b.updatedAt && TextLess(a.key, b.key))))
  }

  /** Pinned first; then narrowest scope, newest, key. */
  function Plainly(scopes: seq<Text>): (Entry, Entry) -> bool {
    (a: Entry, b: Entry) =>
      PinRank(a) < PinRank(b) || (PinRank(a) == PinRank(b) && PrecedenceLess(scopes, a.record, b.record))
  }

  datatype Placed = Placed(entry: Entry, index: nat)

  /** Pinned first; the others as the search ranked them. */
  function ByRelevance(scopes: seq<Text>): (Placed, Placed) -> bool {
    (a: Placed, b: Placed) =>
      PinRank(a.entry) < PinRank(b.entry)
      || (PinRank(a.entry) == PinRank(b.entry)
          && if a.entry.pinned then PrecedenceLess(scopes, a.entry.record, b.entry.record)
             else a.index < b.index)
  }

  predicate RenderedBefore(scopes: seq<Text>, a: Record, b: Record) {
    var i, j := Rank(scopes, a.scope), Rank(scopes, b.scope);
    i < j || (i == j && TextLess(a.key, b.key))
  }

  /** How the block is laid out: pinned first, then by scope and key. */
  function AsRendered(scopes: seq<Text>): (Entry, Entry) -> bool {
    (a: Entry, b: Entry) =>
      PinRank(a) < PinRank(b) || (PinRank(a) == PinRank(b) && RenderedBefore(scopes, a.record, b.record))
  }

  function WithIndex(entries: seq<Entry>): (r: seq<Placed>)
    ensures |r| == |entries| && forall i :: 0 <= i < |r| ==> r[i] == Placed(entries[i], i)
  {
    seq(|entries|, i requires 0 <= i < |entries| => Placed(entries[i], i))
  }

  function EntriesIn(placed: seq<Placed>): (r: seq<Entry>)
    ensures |r| == |placed| && forall i :: 0 <= i < |r| ==> r[i] == placed[i].entry
  {
    seq(|placed|, i requires 0 <= i < |placed| => placed[i].entry)
  }

  /** All entries in the order they are chosen. */
  function Chosen(resolved: seq<Entry>, scopes: seq<Text>, ranked: bool): seq<Entry> {
    if ranked then EntriesIn(Sort(WithIndex(resolved), ByRelevance(scopes)))
    else Sort(resolved, Plainly(scopes))
  }

  /** `slice(0, n)`: a negative end counts from the back. */
  function Slice<T>(s: seq<T>, n: int): seq<T> {
    if n >= 0 then Take(s, n) else s[..Max(0, |s| + n)]
  }

  function PinnedIn(entries: seq<Entry>): nat {
    if entries == [] then 0 else (if entries[0].pinned then 1 else 0) + PinnedIn(entries[1..])
  }

  function Resolve(records: seq<Record>, scopes: seq<Text>, max: int, ranked: bool): Digest {
    var resolved := Resolved(records, scopes);
    var selected := Slice(Chosen(resolved, scopes, ranked), max);
    Digest(Sort(selected, AsRendered(scopes)),
           Max(0, |resolved| - max),
           PinnedIn(resolved) - PinnedIn(selected))
  }

  // ----- The orders are orders -----

  lemma NotLessTransitive(a: Text, b: Text, c: Text)
    requires !TextLess(a, b) && !TextLess(b, c)
    ensures !TextLess(a, c)
  {
    TextLessTotal(a, b);
    TextLessTotal(b, c);
    if TextLess(b, a) && TextLess(c, b) {
      TextLessTransitive(c, b, a);
    }
  }

  lemma PrecedenceTransitive(scopes: seq<Text>, a: Record, b: Record, c: Record)
    ensures !PrecedenceLess(scopes, a, a)
    ensures PrecedenceLess(scopes, a, b) && PrecedenceLess(scopes, b, c) ==> PrecedenceLess(scopes, a, c)
  {
    TextLessIrreflexive(a.updatedAt);
    TextLessIrreflexive(a.key);
    if TextLess(b.updatedAt, a.updatedAt) && TextLess(c.updatedAt, b.updatedAt) {
      TextLessTransitive(c.updatedAt, b.updatedAt, a.updatedAt);
    }
    if TextLess(a.key, b.key) && TextLess(b.key, c.key) {
      TextLessTransitive(a.key, b.key, c.key);
    }
  }

  lemma PrecedenceNotLess(scopes: seq<Text>, a: Record, b: Record, c: Record)
    requires !PrecedenceLess(scopes, a, b) && !PrecedenceLess(scopes, b, c)
    ensures !PrecedenceLess(scopes, a, c)
  {
    TextLessTotal(a.updatedAt, b.updatedAt);
    TextLessTotal(b.updatedAt, c.updatedAt);
    if !TextLess(b.updatedAt, a.updatedAt) && !TextLess(c.updatedAt, b.updatedAt) {
      NotLessTransitive(c.updatedAt, b.updatedAt, a.updatedAt);
    }
    if !TextLess(a.key, b.key) && !TextLess(b.key, c.key) {
      NotLessTransitive(a.key, b.key, c.key);
    }
    if TextLess(a.updatedAt, b.updatedAt) {
      if TextLess(b.updatedAt, c.updatedAt) {
        TextLessTransitive(a.updatedAt, b.updatedAt, c.updatedAt);
        TextLessIrreflexive(a.updatedAt);
      }
    }
  }

  lemma PlainlyStrictWeak(scopes: seq<Text>)
    ensures StrictWeakOrder(Plainly(scopes))
  {
    var less := Plainly(scopes);
    forall x ensures !less(x, x) {
      PrecedenceTransitive(scopes, x.record, x.record, x.record);
    }
    forall x, y, z | less(x, y) && less(y, z) ensures less(x, z) {
      PrecedenceTransitive(scopes, x.record, y.record, z.record);
    }
    forall x, y, z | !less(x, y) && !less(y, z) ensures !less(x, z) {
      if PinRank(x) == PinRank(y) == PinRank(z) {
        PrecedenceNotLess(scopes, x.record, y.record, z.record);
      }
    }
  }

  lemma ByRelevanceStrictWeak(scopes: seq<Text>)
    ensures StrictWeakOrder(ByRelevance(scopes))
  {
    var less := ByRelevance(scopes);
    forall x ensures !less(x, x) {
      PrecedenceTransitive(scopes, x.entry.record, x.entry.record, x.entry.record);
    }
    forall x, y, z | less(x, y) && less(y, z) ensures less(x, z) {
      PrecedenceTransitive(scopes, x.entry.record, y.entry.record, z.entry.record);
    }
    forall x, y, z | !less(x, y) && !less(y, z) ensures !less(x, z) {
      if x.entry.pinned && y.entry.pinned && z.entry.pinned {
        PrecedenceNotLess(scopes, x.entry.record, y.entry.record, z.entry.record);
      }
    }
  }

  // ----- Each entry -----

  /** A key is answered at a scope once. */
  ghost predicate OncePerScope(records: seq<Record>) {
    forall i, j :: 0 <= i < j < |records| ==>
      records[i].key != records[j].key || records[i].scope != records[j].scope
  }

  lemma CandidatesDiffer(kept: seq<Record>, key: Text, scopes: seq<Text>)
    requires OncePerScope(kept) && forall r :: r in kept ==> r.scope in scopes
    ensures NoTies(Candidates(kept, key), ByRank(scopes))
    ensures Distinct(Candidates(kept, key))
  {
    var candidates := Candidates(kept, key);
    assert Distinct(kept);
    FilterDistinct(kept, OfKey(key));
    forall x, y | x in candidates && y in candidates && x != y
      ensures ByRank(scopes)(x, y) || ByRank(scopes)(y, x)
    {
      var i :| 0 <= i < |kept| && kept[i] == x;
      var j :| 0 <= j < |kept| && kept[j] == y;
      assert x.scope != y.scope;
      assert scopes[Rank(scopes, x.scope)] == x.scope && scopes[Rank(scopes, y.scope)] == y.scope;
    }
  }

  /** The records of one key, from the most specific scope to the least. */
  ghost predicate InScopeOrder(ordered: seq<Record>, scopes: seq<Text>) {
    forall i, j :: 0 <= i < j < |ordered| ==> Rank(scopes, ordered[i].scope) < Rank(scopes, ordered[j].scope)
  }

  /** What an entry says: who won, and everything it beat, nearest scope first. */
  ghost predicate Answers(e: Entry, candidates: seq<Record>, scopes: seq<Text>) {
    exists ordered: seq<Record> :: AnswersBy(e, candidates, scopes, ordered)
  }

  ghost predicate AnswersBy(e: Entry, candidates: seq<Record>, scopes: seq<Text>, ordered: seq<Record>) {
    && |ordered| > 0
    && multiset(ordered) == multiset(candidates)
    && InScopeOrder(ordered, scopes)
    && e.record == ordered[0]
    && |e.overrides| == |ordered| - 1
    && (forall i :: 0 <= i < |e.overrides| ==>
          e.overrides[i] == Overridden(ordered[i + 1].scope, ordered[i + 1].text, ordered[i + 1].author))
    && (e.pinned <==> exists r :: r in candidates && r.pinned)
  }

  lemma SamePins(s: seq<Record>, t: seq<Record>)
    requires multiset(s) == multiset(t)
    ensures AnyPinned(s) <==> AnyPinned(t)
  {
    SameElements(s, t);
    if AnyPinned(s) {
      var i :| 0 <= i < |s| && s[i].pinned;
      assert s[i] in t;
    }
    if AnyPinned(t) {
      var i :| 0 <= i < |t| && t[i].pinned;
      assert t[i] in s;
    }
  }

  lemma CandidatesInOrder(kept: seq<Record>, key: Text, scopes: seq<Text>)
    requires OncePerScope(kept) && forall r :: r in kept ==> r.scope in scopes
    ensures InScopeOrder(Sort(Candidates(kept, key), ByRank(scopes)), scopes)
  {
    var candidates := Candidates(kept, key);
    var ordered := Sort(candidates, ByRank(scopes));
    CandidatesDiffer(kept, key, scopes);
    SortSorted(candidates, ByRank(scopes));
    SortDistinct(candidates, ByRank(scopes));
    SameElements(candidates, ordered);
    forall i, j | 0 <= i < j < |ordered|
      ensures Rank(scopes, ordered[i].scope) < Rank(scopes, ordered[j].scope)
    {
      assert ordered[i] in candidates && ordered[j] in candidates && ordered[i] != ordered[j];
      assert !ByRank(scopes)(ordered[j], ordered[i]);
    }
  }

  /** A key is won by its most specific scope; every value it beat rides along, in scope order. */
  lemma EntryAnswers(kept: seq<Record>, key: Text, scopes: seq<Text>)
    requires OncePerScope(kept) && (forall r :: r in kept ==> r.scope in scopes) && key in Keys(kept)
    requires |Candidates(kept, key)| > 0
    ensures Answers(EntryFor(Candidates(kept, key), scopes), Candidates(kept, key), scopes)
  {
    var candidates := Candidates(kept, key);
    var ordered := Sort(candidates, ByRank(scopes));
    CandidatesInOrder(kept, key, scopes);
    SamePins(candidates, ordered);
    assert AnswersBy(EntryFor(candidates, scopes), candidates, scopes, ordered);
  }

  lemma EntryHasKey(kept: seq<Record>, key: Text, scopes: seq<Text>)
    requires |Candidates(kept, key)| > 0
    ensures EntryFor(Candidates(kept, key), scopes).record.key == key
  {
    var candidates := Candidates(kept, key);
    SameElements(candidates, Sort(candidates, ByRank(scopes)));
    assert Sort(candidates, ByRank(scopes))[0] in candidates;
  }

  lemma {:induction false} EntryAt(kept: seq<Record>, keys: seq<Text>, scopes: seq<Text>, i: nat)
    requires (forall k :: k in keys ==> k in Keys(kept)) && i < |keys|
    requires |Candidates(kept, keys[i])| > 0
    ensures EntriesOf(kept, keys, scopes)[i] == EntryFor(Candidates(kept, keys[i]), scopes)
  {
    EntriesFirst(kept, keys, scopes);
    if i > 0 {
      EntryAt(kept, keys[1..], scopes, i - 1);
    }
  }

  lemma EntriesFirst(kept: seq<Record>, keys: seq<Text>, scopes: seq<Text>)
    requires keys != [] && forall k :: k in keys ==> k in Keys(kept)
    ensures |Candidates(kept, keys[0])| > 0
    ensures EntriesOf(kept, keys, scopes)
            == [EntryFor(Candidates(kept, keys[0]), scopes)] + EntriesOf(kept, keys[1..], scopes)
  {
    KeyHasCandidates(kept, keys[0]);
  }

  lemma EntryOfKey(kept: seq<Record>, keys: seq<Text>, scopes: seq<Text>, i: nat)
    requires (forall k :: k in keys ==> k in Keys(kept)) && i < |keys|
    ensures |Candidates(kept, keys[i])| > 0
    ensures EntriesOf(kept, keys, scopes)[i] == EntryFor(Candidates(kept, keys[i]), scopes)
    ensures EntriesOf(kept, keys, scopes)[i].record.key == keys[i]
  {
    KeyHasCandidates(kept, keys[i]);
    EntryAt(kept, keys, scopes, i);
    EntryHasKey(kept, keys[i], scopes);
  }

  /** Entries of different keys: no two alike, and no two tied in any of the orders. */
  lemma ResolvedDistinct(records: seq<Record>, scopes: seq<Text>)
    ensures var resolved := Resolved(records, scopes);
            forall i, j :: 0 <= i < j < |resolved| ==> resolved[i].record.key != resolved[j].record.key
  {
    var kept := Kept(records, scopes);
    var keys := Keys(kept);
    forall i, j | 0 <= i < j < |keys|
      ensures Resolved(records, scopes)[i].record.key != Resolved(records, scopes)[j].record.key
    {
      EntryOfKey(kept, keys, scopes, i);
      EntryOfKey(kept, keys, scopes, j);
    }
  }

  // ----- What the digest does not depend on -----

  /** Records at scopes the actor has no claim on change nothing, however many are returned. */
  lemma OutOfScopeIgnored(records: seq<Record>, scopes: seq<Text>, max: int, ranked: bool)
    ensures Resolve(Kept(records, scopes), scopes, max, ranked) == Resolve(records, scopes, max, ranked)
  {
    FilterAgain(records, InScopes(scopes));
  }

  lemma {:induction false} FilterAgain(s: seq<Record>, keep: Record -> bool)
    ensures Filter(Filter(s, keep), keep) == Filter(s, keep)
  {
    if s != [] {
      FilterAgain(s[1..], keep);
      var rest := Filter(s[1..], keep);
      if keep(s[0]) {
        assert Filter(s, keep) == [s[0]] + rest;
        assert ([s[0]] + rest)[1..] == rest;
      } else {
        assert Filter(s, keep) == rest;
      }
    }
  }

  lemma SameKeys(s: seq<Record>, t: seq<Record>)
    requires multiset(s) == multiset(t)
    ensures forall k :: k in Keys(s) <==> k in Keys(t)
  {
    SameElements(s, t);
    forall k ensures k in Keys(s) <==> k in Keys(t) {
      if k in Keys(s) {
        var i :| 0 <= i < |s| && s[i].key == k;
        assert s[i] in t;
      }
      if k in Keys(t) {
        var i :| 0 <= i < |t| && t[i].key == k;
        assert t[i] in s;
      }
    }
  }

  lemma SameEntry(s: seq<Record>, t: seq<Record>, key: Text, scopes: seq<Text>)
    requires multiset(s) == multiset(t) && OncePerScope(s) && forall r :: r in s ==> r.scope in scopes
    requires |Candidates(s, key)| > 0
    ensures |Candidates(t, key)| > 0
    ensures EntryFor(Candidates(s, key), scopes) == EntryFor(Candidates(t, key), scopes)
  {
    FilterIgnoresOrder(s, t, OfKey(key));
    SameElements(Candidates(s, key), Candidates(t, key));
    CandidatesDiffer(s, key, scopes);
    SortIgnoresOrder(Candidates(s, key), Candidates(t, key), ByRank(scopes));
  }

  lemma EntryCarriesOver(s: seq<Record>, t: seq<Record>, scopes: seq<Text>, e: Entry)
    requires multiset(s) == multiset(t) && OncePerScope(s) && forall r :: r in s ==> r.scope in scopes
    requires e in EntriesOf(s, Keys(s), scopes)
    ensures e in EntriesOf(t, Keys(t), scopes)
  {
    var i :| 0 <= i < |Keys(s)| && EntriesOf(s, Keys(s), scopes)[i] == e;
    EntryOfKey(s, Keys(s), scopes, i);
    SameKeys(s, t);
    assert Keys(s)[i] in Keys(t);
    var j :| 0 <= j < |Keys(t)| && Keys(t)[j] == Keys(s)[i];
    EntryOfKey(t, Keys(t), scopes, j);
    SameEntry(s, t, Keys(s)[i], scopes);
    assert EntriesOf(t, Keys(t), scopes)[j] == e;
  }

  lemma OncePerScopeKept(s: seq<Record>, t: seq<Record>)
    requires multiset(s) == multiset(t) && OncePerScope(s)
    ensures OncePerScope(t)
  {
    assert Distinct(s);
    DistinctMultiset(s);
    assert forall x :: multiset(t)[x] <= 1;
    MultisetDistinct(t);
    SameElements(s, t);
    forall i, j | 0 <= i < j < |t| ensures t[i].key != t[j].key || t[i].scope != t[j].scope {
      assert t[i] in s && t[j] in s;
      var k :| 0 <= k < |s| && s[k] == t[i];
      var l :| 0 <= l < |s| && s[l] == t[j];
      assert k != l;
    }
  }

  lemma KeysApartDistinct(entries: seq<Entry>, scopes: seq<Text>)
    requires forall i, j :: 0 <= i < j < |entries| ==> entries[i].record.key != entries[j].record.key
    ensures Distinct(entries) && NoTies(entries, Plainly(scopes))
  {
    forall x, y | x in entries && y in entries && x != y
      ensures Plainly(scopes)(x, y) || Plainly(scopes)(y, x)
    {
      TextLessTotal(x.record.key, y.record.key);
      TextLessTotal(x.record.updatedAt, y.record.updatedAt);
    }
  }

  lemma ResolvedIgnoresOrder(s: seq<Record>, t: seq<Record>, scopes: seq<Text>)
    requires multiset(s) == multiset(t) && OncePerScope(s)
    ensures multiset(Resolved(s, scopes)) == multiset(Resolved(t, scopes))
  {
    var a, b := Kept(s, scopes), Kept(t, scopes);
    FilterIgnoresOrder(s, t, InScopes(scopes));
    FilterOncePerScope(s, scopes);
    OncePerScopeKept(a, b);
    ResolvedDistinct(s, scopes);
    ResolvedDistinct(t, scopes);
    KeysApartDistinct(Resolved(s, scopes), scopes);
    KeysApartDistinct(Resolved(t, scopes), scopes);
    forall e ensures e in Resolved(s, scopes) <==> e in Resolved(t, scopes) {
      if e in Resolved(s, scopes) {
        EntryCarriesOver(a, b, scopes, e);
      }
      if e in Resolved(t, scopes) {
        EntryCarriesOver(b, a, scopes, e);
      }
    }
    SameMembersSameMultiset(Resolved(s, scopes), Resolved(t, scopes));
  }

  lemma {:induction false} FilterOncePerScope(s: seq<Record>, scopes: seq<Text>)
    requires OncePerScope(s)
    ensures OncePerScope(Kept(s, scopes))
  {
    if s != [] {
      FilterOncePerScope(s[1..], scopes);
      var rest := Kept(s[1..], scopes);
      forall j | 0 <= j < |rest| ensures rest[j].key != s[0].key || rest[j].scope != s[0].scope {
        assert rest[j] in s[1..];
      }
    }
  }

  lemma {:induction false} PinnedInCounts(entries: seq<Entry>)
    ensures PinnedIn(entries) == |Filter(entries, (e: Entry) => e.pinned)|
  {
    if entries != [] {
      PinnedInCounts(entries[1..]);
    }
  }

  lemma PinnedIgnoresOrder(s: seq<Entry>, t: seq<Entry>)
    requires multiset(s) == multiset(t)
    ensures PinnedIn(s) == PinnedIn(t)
  {
    var pinned := (e: Entry) => e.pinned;
    PinnedInCounts(s);
    PinnedInCounts(t);
    FilterIgnoresOrder(s, t, pinned);
    SameElements(Filter(s, pinned), Filter(t, pinned));
    assert Filter(s, pinned) == Filter(s, (e: Entry) => e.pinned);
    assert Filter(t, pinned) == Filter(t, (e: Entry) => e.pinned);
  }

  lemma ChosenIgnoresOrder(p: seq<Entry>, q: seq<Entry>, scopes: seq<Text>)
    requires multiset(p) == multiset(q)
    requires forall i, j :: 0 <= i < j < |p| ==> p[i].record.key != p[j].record.key
    ensures Chosen(p, scopes, false) == Chosen(q, scopes, false)
  {
    KeysApartDistinct(p, scopes);
    PlainlyStrictWeak(scopes);
    SortIgnoresOrder(p, q, Plainly(scopes));
  }

  lemma KeptIgnoresOrder(a: seq<Record>, b: seq<Record>, scopes: seq<Text>, max: int)
    requires multiset(Resolved(a, scopes)) == multiset(Resolved(b, scopes))
    ensures Resolve(a, scopes, max, false) == Resolve(b, scopes, max, false)
  {
    var p, q := Resolved(a, scopes), Resolved(b, scopes);
    ResolvedDistinct(a, scopes);
    ChosenIgnoresOrder(p, q, scopes);
    PinnedIgnoresOrder(p, q);
    SameElements(p, q);
  }

  /**
   * Where a provider's records did not come ranked, the digest does not depend on their order, nor on
   * what it returned beyond the actor's scopes.
   */
  lemma DigestIgnoresOrder(s: seq<Record>, t: seq<Record>, scopes: seq<Text>, max: int)
    requires multiset(Kept(s, scopes)) == multiset(Kept(t, scopes)) && OncePerScope(Kept(s, scopes))
    ensures Resolve(s, scopes, max, false) == Resolve(t, scopes, max, false)
  {
    OutOfScopeIgnored(s, scopes, max, false);
    OutOfScopeIgnored(t, scopes, max, false);
    ResolvedIgnoresOrder(Kept(s, scopes), Kept(t, scopes), scopes);
    KeptIgnoresOrder(Kept(s, scopes), Kept(t, scopes), scopes, max);
  }

  // ----- What the ceiling leaves out -----

  /**
   * As many entries are shown as the ceiling allows, each key at most once, and the others are counted
   * as left out; a negative ceiling counts from the back, and is the only one whose counts do not add
   * up to the number of distinct keys in scope.
   */
  lemma ShownAndOmitted(records: seq<Record>, scopes: seq<Text>, max: int, ranked: bool)
    ensures var d := Resolve(records, scopes, max, ranked);
            var n := |Keys(Kept(records, scopes))|;
            && (|d.entries| + d.omitted == n <==> max >= 0)
            && |d.entries| == (if max >= n then n else if max >= 0 then max else if n + max >= 0 then n + max else 0)
            && d.omitted == (if n <= max then 0 else n - max)
  {
  }

  /** The keys an answer is given for: those with a record in one of the scopes. */
  lemma KeysInScope(records: seq<Record>, scopes: seq<Text>, key: Text)
    ensures key in Keys(Kept(records, scopes))
            <==> exists r :: r in records && r.scope in scopes && r.key == key
  {
    var kept := Kept(records, scopes);
    if key in Keys(kept) {
      var i :| 0 <= i < |kept| && kept[i].key == key;
      assert kept[i] in kept;
    }
    if r :| r in records && r.scope in scopes && r.key == key {
      assert r in kept;
    }
  }

  /** Keys stand in the order they are first met. */
  lemma {:induction false} KeysFirstMet(records: seq<Record>, i: nat, j: nat) returns (p: nat)
    requires i < j < |Keys(records)|
    ensures p < |records| && records[p].key == Keys(records)[i]
    ensures forall q :: 0 <= q <= p ==> records[q].key != Keys(records)[j]
  {
    var front, last := records[..|records| - 1], records[|records| - 1];
    KeysLast(records);
    if j < |Keys(front)| {
      p := KeysFirstMet(front, i, j);
    } else {
      p := MetBefore(front, Keys(front)[i], last.key);
    }
    FrontIs(records, p);
  }

  lemma FrontIs(records: seq<Record>, p: nat)
    requires p < |records| - 1
    ensures forall q :: 0 <= q <= p ==> records[..|records| - 1][q] == records[q]
  {
  }

  lemma KeysLast(records: seq<Record>)
    requires records != []
    ensures var front, last := Keys(records[..|records| - 1]), records[|records| - 1].key;
            Keys(records) == if last in front then front else front + [last]
  {
  }

  lemma MetBefore(records: seq<Record>, key: Text, other: Text) returns (p: nat)
    requires key in Keys(records) && other !in Keys(records)
    ensures p < |records| && records[p].key == key && forall q :: 0 <= q <= p ==> records[q].key != other
  {
    p :| 0 <= p < |records| && records[p].key == key;
  }

  /** A scope's place is where the list names it last. */
  lemma {:induction false} RankSays(scopes: seq<Text>, scope: Text)
    ensures if scope in scopes then
              && Rank(scopes, scope) < |scopes| && scopes[Rank(scopes, scope)] == scope
              && forall j :: Rank(scopes, scope) < j < |scopes| ==> scopes[j] != scope
            else Rank(scopes, scope) == 0
  {
    if scopes != [] && scopes[|scopes| - 1] != scope {
      RankSays(scopes[..|scopes| - 1], scope);
      assert scopes == scopes[..|scopes| - 1] + [scopes[|scopes| - 1]];
    }
  }

  /** How many of the entries left out were pinned. */
  lemma PinnedOmittedIs(records: seq<Record>, scopes: seq<Text>, max: int, ranked: bool)
    ensures var d := Resolve(records, scopes, max, ranked);
            d.pinnedOmitted == PinnedCount(Resolved(records, scopes)) - PinnedCount(d.entries)
  {
    var resolved := Resolved(records, scopes);
    var selected := Slice(Chosen(resolved, scopes, ranked), max);
    PinnedIgnoresOrder(selected, Sort(selected, AsRendered(scopes)));
    PinnedCounts(resolved);
    PinnedCounts(Sort(selected, AsRendered(scopes)));
  }

  /** How many entries are pinned. */
  function PinnedCount(entries: seq<Entry>): nat {
    |Filter(entries, (e: Entry) => e.pinned)|
  }

  lemma {:induction false} PinnedCounts(entries: seq<Entry>)
    ensures PinnedIn(entries) == PinnedCount(entries)
  {
    if entries != [] {
      PinnedCounts(entries[1..]);
    }
  }

  /** Pinned entries are chosen before any other. */
  ghost predicate PinnedLead(entries: seq<Entry>) {
    forall i, j :: 0 <= i < j < |entries| && entries[j].pinned ==> entries[i].pinned
  }

  lemma PinnedBeats(scopes: seq<Text>, a: Entry, b: Entry, i: nat, j: nat)
    requires a.pinned && !b.pinned
    ensures Plainly(scopes)(a, b) && ByRelevance(scopes)(Placed(a, i), Placed(b, j))
  {
    assert PinRank(a) < PinRank(b);
    var plainly, byRelevance := Plainly(scopes), ByRelevance(scopes);
    assert plainly(a, b);
    assert byRelevance(Placed(a, i), Placed(b, j));
  }

  lemma ChosenPinnedLead(resolved: seq<Entry>, scopes: seq<Text>, ranked: bool)
    ensures PinnedLead(Chosen(resolved, scopes, ranked))
  {
    var chosen := Chosen(resolved, scopes, ranked);
    var placed := Sort(WithIndex(resolved), ByRelevance(scopes));
    ByRelevanceStrictWeak(scopes);
    SortSorted(WithIndex(resolved), ByRelevance(scopes));
    PlainlyStrictWeak(scopes);
    SortSorted(resolved, Plainly(scopes));
    forall i, j | 0 <= i < j < |chosen| && chosen[j].pinned ensures chosen[i].pinned {
      if !chosen[i].pinned {
        if ranked {
          PinnedBeats(scopes, chosen[j], chosen[i], placed[j].index, placed[i].index);
        } else {
          PinnedBeats(scopes, chosen[j], chosen[i], 0, 0);
        }
      }
    }
  }

  lemma {:induction false} PinnedInSplit(a: seq<Entry>, b: seq<Entry>)
    ensures PinnedIn(a + b) == PinnedIn(a) + PinnedIn(b)
  {
    if a == [] {
      assert a + b == b;
    } else {
      PinnedInSplit(a[1..], b);
      assert (a + b)[1..] == a[1..] + b;
    }
  }

  lemma {:induction false} NonePinned(entries: seq<Entry>)
    requires forall i :: 0 <= i < |entries| ==> !entries[i].pinned
    ensures PinnedIn(entries) == 0
  {
    if entries != [] {
      NonePinned(entries[1..]);
    }
  }

  lemma SliceIsPrefix(s: seq<Entry>, n: int) returns (k: nat)
    ensures k <= |s| && Slice(s, n) == s[..k]
  {
    k := if n < 0 then Max(0, |s| + n) else Min(n, |s|);
  }

  lemma ChosenPinnedCount(resolved: seq<Entry>, scopes: seq<Text>, ranked: bool)
    ensures PinnedIn(Chosen(resolved, scopes, ranked)) == PinnedIn(resolved)
  {
    if ranked {
      var placed := WithIndex(resolved);
      var sorted := Sort(placed, ByRelevance(scopes));
      assert EntriesIn(placed) == resolved;
      PinnedPlaced(placed, sorted);
    } else {
      PinnedIgnoresOrder(resolved, Sort(resolved, Plainly(scopes)));
    }
  }

  lemma {:induction false} PinnedPlacedCounts(placed: seq<Placed>, pinned: Placed -> bool)
    requires forall p :: pinned(p) <==> p.entry.pinned
    ensures PinnedIn(EntriesIn(placed)) == |Filter(placed, pinned)|
  {
    if placed != [] {
      PinnedPlacedCounts(placed[1..], pinned);
      assert EntriesIn(placed)[1..] == EntriesIn(placed[1..]);
    }
  }

  lemma PinnedPlaced(s: seq<Placed>, t: seq<Placed>)
    requires multiset(s) == multiset(t)
    ensures PinnedIn(EntriesIn(s)) == PinnedIn(EntriesIn(t))
  {
    var pinned := (p: Placed) => p.entry.pinned;
    PinnedPlacedCounts(s, pinned);
    PinnedPlacedCounts(t, pinned);
    FilterIgnoresOrder(s, t, pinned);
    SameElements(Filter(s, pinned), Filter(t, pinned));
  }

  lemma PinnedPrefix(chosen: seq<Entry>, k: nat)
    requires PinnedLead(chosen) && k <= |chosen|
    ensures PinnedIn(chosen) >= PinnedIn(chosen[..k])
    ensures PinnedIn(chosen) > PinnedIn(chosen[..k]) ==> forall i :: 0 <= i < k ==> chosen[i].pinned
  {
    assert chosen == chosen[..k] + chosen[k..];
    PinnedInSplit(chosen[..k], chosen[k..]);
    if forall j :: k <= j < |chosen| ==> !chosen[j].pinned {
      NonePinned(chosen[k..]);
    }
  }

  lemma AllPinnedStays(s: seq<Entry>, t: seq<Entry>)
    requires multiset(s) == multiset(t) && forall i :: 0 <= i < |s| ==> s[i].pinned
    ensures forall i :: 0 <= i < |t| ==> t[i].pinned
  {
    SameElements(s, t);
    forall i | 0 <= i < |t| ensures t[i].pinned {
      assert t[i] in s;
    }
  }

  /** No unpinned entry is shown while a pinned one is left out: then only pinned ones are shown. */
  lemma PinnedShownFirst(records: seq<Record>, scopes: seq<Text>, max: int, ranked: bool)
    ensures var d := Resolve(records, scopes, max, ranked);
            d.pinnedOmitted >= 0
            && (d.pinnedOmitted > 0 ==> forall i :: 0 <= i < |d.entries| ==> d.entries[i].pinned)
  {
    var resolved := Resolved(records, scopes);
    var chosen := Chosen(resolved, scopes, ranked);
    ChosenPinnedLead(resolved, scopes, ranked);
    ChosenPinnedCount(resolved, scopes, ranked);
    var k := SliceIsPrefix(chosen, max);
    PinnedPrefix(chosen, k);
    if PinnedIn(chosen) > PinnedIn(chosen[..k]) {
      AllPinnedStays(chosen[..k], Sort(chosen[..k], AsRendered(scopes)));
    }
  }

  /** Every entry shown answers its key: won by the most specific scope, with all it beat beside it. */
  lemma ShownEntriesAnswer(records: seq<Record>, scopes: seq<Text>, max: int, ranked: bool, e: Entry)
    requires OncePerScope(Kept(records, scopes)) && e in Resolve(records, scopes, max, ranked).entries
    ensures e.record.key in Keys(Kept(records, scopes))
    ensures Answers(e, Candidates(Kept(records, scopes), e.record.key), scopes)
  {
    var kept := Kept(records, scopes);
    var resolved := Resolved(records, scopes);
    ShownIsResolved(resolved, scopes, max, ranked, e);
    var i :| 0 <= i < |resolved| && resolved[i] == e;
    EntryOfKey(kept, Keys(kept), scopes, i);
    EntryAnswers(kept, Keys(kept)[i], scopes);
  }

  /** And it is one of the given records, of a scope that was asked for. */
  lemma ShownIsGiven(records: seq<Record>, scopes: seq<Text>, max: int, ranked: bool, e: Entry)
    requires e in Resolve(records, scopes, max, ranked).entries
    ensures e.record in records && e.record.scope in scopes
  {
    var kept := Kept(records, scopes);
    var resolved := Resolved(records, scopes);
    ShownIsResolved(resolved, scopes, max, ranked, e);
    var i :| 0 <= i < |resolved| && resolved[i] == e;
    EntryOfKey(kept, Keys(kept), scopes, i);
    EntryIsCandidate(kept, Keys(kept)[i], scopes);
    assert e.record in kept;
  }

  lemma EntryIsCandidate(kept: seq<Record>, key: Text, scopes: seq<Text>)
    requires |Candidates(kept, key)| > 0
    ensures EntryFor(Candidates(kept, key), scopes).record in kept
  {
    var candidates := Candidates(kept, key);
    SameElements(candidates, Sort(candidates, ByRank(scopes)));
    assert Sort(candidates, ByRank(scopes))[0] in candidates;
  }

  lemma ShownIsResolved(resolved: seq<Entry>, scopes: seq<Text>, max: int, ranked: bool, e: Entry)
    requires e in Sort(Slice(Chosen(resolved, scopes, ranked), max), AsRendered(scopes))
    ensures e in resolved
  {
    var chosen := Chosen(resolved, scopes, ranked);
    var k := SliceIsPrefix(chosen, max);
    SameElements(chosen[..k], Sort(chosen[..k], AsRendered(scopes)));
    assert e in chosen;
    if ranked {
      var sorted := Sort(WithIndex(resolved), ByRelevance(scopes));
      var i :| 0 <= i < |chosen| && chosen[i] == e;
      SameElements(WithIndex(resolved), sorted);
      assert sorted[i] in WithIndex(resolved);
    } else {
      SameElements(resolved, Sort(resolved, Plainly(scopes)));
    }
  }

  // ----- Which entries are shown, and in what order -----

  lemma ChosenPlace(resolved: seq<Entry>, scopes: seq<Text>, ranked: bool, i: nat) returns (p: nat)
    requires i < |resolved|
    ensures p < |resolved| && Chosen(resolved, scopes, ranked)[p] == resolved[i]
    ensures ranked ==> Sort(WithIndex(resolved), ByRelevance(scopes))[p] == Placed(resolved[i], i)
  {
    if ranked {
      var placed := WithIndex(resolved);
      var sorted := Sort(placed, ByRelevance(scopes));
      SameElements(placed, sorted);
      assert placed[i] in sorted;
      p :| 0 <= p < |sorted| && sorted[p] == placed[i];
    } else {
      var sorted := Sort(resolved, Plainly(scopes));
      SameElements(resolved, sorted);
      assert resolved[i] in sorted;
      p :| 0 <= p < |sorted| && sorted[p] == resolved[i];
    }
  }

  lemma RankedPlaceOfShown(resolved: seq<Entry>, scopes: seq<Text>, max: int, ranked: bool, i: nat, p: nat)
    requires i < |resolved| && p < |resolved|
    requires forall a, b :: 0 <= a < b < |resolved| ==> resolved[a] != resolved[b]
    requires ranked ==> Sort(WithIndex(resolved), ByRelevance(scopes))[p] == Placed(resolved[i], i)
    requires Chosen(resolved, scopes, ranked)[p] == resolved[i]
    requires resolved[i] !in Slice(Chosen(resolved, scopes, ranked), max)
    ensures p >= |Slice(Chosen(resolved, scopes, ranked), max)|
  {
    var chosen := Chosen(resolved, scopes, ranked);
    var k := SliceIsPrefix(chosen, max);
    if p < k {
      InPrefix(chosen, p, k);
    }
  }

  lemma InPrefix(s: seq<Entry>, p: nat, k: nat)
    requires p < k <= |s|
    ensures s[p] in s[..k]
  {
    assert s[..k][p] == s[p];
  }

  /** `e`, resolved at place `i`, is chosen no later than `o`, resolved at place `j`. */
  predicate ChosenFirst(scopes: seq<Text>, ranked: bool, e: Entry, i: nat, o: Entry, j: nat) {
    if e.pinned != o.pinned then e.pinned
    else if ranked && !e.pinned then i < j
    else !Outranks(scopes, o.record, e.record)
  }

  /** `a` is of a narrower scope; or of the same, and newer; or of the same age, and of a smaller key. */
  predicate Outranks(scopes: seq<Text>, a: Record, b: Record) {
    || Rank(scopes, a.scope) < Rank(scopes, b.scope)
    || (Rank(scopes, a.scope) == Rank(scopes, b.scope) && TextLess(b.updatedAt, a.updatedAt))
    || (Rank(scopes, a.scope) == Rank(scopes, b.scope) && a.updatedAt == b.updatedAt && TextLess(a.key, b.key))
  }

  lemma OutranksPrecedes(scopes: seq<Text>, a: Record, b: Record)
    ensures Outranks(scopes, a, b) <==> PrecedenceLess(scopes, a, b)
  {
  }

  lemma NotFirst(scopes: seq<Text>, e: Entry, i: nat, o: Entry, j: nat)
    requires i != j
    ensures !Plainly(scopes)(o, e) ==> ChosenFirst(scopes, false, e, i, o, j)
    ensures !ByRelevance(scopes)(Placed(o, j), Placed(e, i)) ==> ChosenFirst(scopes, true, e, i, o, j)
  {
    OutranksPrecedes(scopes, o.record, e.record);
    if o.pinned && !e.pinned {
      PinnedBeats(scopes, o, e, j, i);
    }
    assert PinRank(o) == PinRank(e) <==> o.pinned == e.pinned;
  }

  lemma EarlierIsFirst(resolved: seq<Entry>, scopes: seq<Text>, ranked: bool, i: nat, p: nat, j: nat, q: nat)
    requires i < |resolved| && j < |resolved| && i != j && p < q < |resolved|
    requires Chosen(resolved, scopes, ranked)[p] == resolved[i]
    requires Chosen(resolved, scopes, ranked)[q] == resolved[j]
    requires ranked ==> Sort(WithIndex(resolved), ByRelevance(scopes))[p] == Placed(resolved[i], i)
    requires ranked ==> Sort(WithIndex(resolved), ByRelevance(scopes))[q] == Placed(resolved[j], j)
    ensures ChosenFirst(scopes, ranked, resolved[i], i, resolved[j], j)
  {
    if ranked {
      ByRelevanceStrictWeak(scopes);
      SortSorted(WithIndex(resolved), ByRelevance(scopes));
    } else {
      PlainlyStrictWeak(scopes);
      SortSorted(resolved, Plainly(scopes));
    }
    NotFirst(scopes, resolved[i], i, resolved[j], j);
  }

  lemma ShownIsSelected(selected: seq<Entry>, scopes: seq<Text>, e: Entry)
    ensures e in Sort(selected, AsRendered(scopes)) <==> e in selected
  {
    SameElements(selected, Sort(selected, AsRendered(scopes)));
  }

  lemma SelectedPlace(resolved: seq<Entry>, scopes: seq<Text>, max: int, ranked: bool, i: nat)
    returns (p: nat)
    requires i < |resolved|
    requires forall a, b :: 0 <= a < b < |resolved| ==> resolved[a] != resolved[b]
    requires resolved[i] in Slice(Chosen(resolved, scopes, ranked), max)
    ensures p < |Slice(Chosen(resolved, scopes, ranked), max)| <= |resolved|
    ensures Chosen(resolved, scopes, ranked)[p] == resolved[i]
    ensures ranked ==> Sort(WithIndex(resolved), ByRelevance(scopes))[p] == Placed(resolved[i], i)
  {
    var chosen := Chosen(resolved, scopes, ranked);
    var k := SliceIsPrefix(chosen, max);
    p :| 0 <= p < k && chosen[..k][p] == resolved[i];
    assert chosen[p] == resolved[i];
    if ranked {
      var placed := WithIndex(resolved);
      var sorted := Sort(placed, ByRelevance(scopes));
      SameElements(placed, sorted);
      assert sorted[p] in placed;
      var a :| 0 <= a < |placed| && placed[a] == sorted[p];
      assert resolved[a] == resolved[i];
    }
  }

  /**
   * What is left out comes after everything shown: pinned before unpinned; then, where the records
   * came ranked, an unpinned key met earlier before one met later, and otherwise the narrower scope,
   * the newer record, the smaller key.
   */
  lemma OmittedComeAfter(records: seq<Record>, scopes: seq<Text>, max: int, ranked: bool, i: nat, j: nat)
    requires i < |Resolved(records, scopes)| && j < |Resolved(records, scopes)|
    requires Resolved(records, scopes)[i] in Resolve(records, scopes, max, ranked).entries
    requires Resolved(records, scopes)[j] !in Resolve(records, scopes, max, ranked).entries
    ensures ChosenFirst(scopes, ranked, Resolved(records, scopes)[i], i, Resolved(records, scopes)[j], j)
  {
    var resolved := Resolved(records, scopes);
    var selected := Slice(Chosen(resolved, scopes, ranked), max);
    ResolvedDistinct(records, scopes);
    ShownIsSelected(selected, scopes, resolved[i]);
    ShownIsSelected(selected, scopes, resolved[j]);
    var p := SelectedPlace(resolved, scopes, max, ranked, i);
    var q := ChosenPlace(resolved, scopes, ranked, j);
    RankedPlaceOfShown(resolved, scopes, max, ranked, j, q);
    EarlierIsFirst(resolved, scopes, ranked, i, p, j, q);
  }

  lemma RenderedTransitive(scopes: seq<Text>, a: Record, b: Record, c: Record)
    ensures !RenderedBefore(scopes, a, a)
    ensures RenderedBefore(scopes, a, b) && RenderedBefore(scopes, b, c) ==> RenderedBefore(scopes, a, c)
    ensures !RenderedBefore(scopes, a, b) && !RenderedBefore(scopes, b, c) ==> !RenderedBefore(scopes, a, c)
  {
    TextLessIrreflexive(a.key);
    if TextLess(a.key, b.key) && TextLess(b.key, c.key) {
      TextLessTransitive(a.key, b.key, c.key);
    }
    if !TextLess(a.key, b.key) && !TextLess(b.key, c.key) {
      NotLessTransitive(a.key, b.key, c.key);
    }
  }

  lemma AsRenderedStrictWeak(scopes: seq<Text>)
    ensures StrictWeakOrder(AsRendered(scopes))
  {
    var less := AsRendered(scopes);
    forall x ensures !less(x, x) {
      RenderedTransitive(scopes, x.record, x.record, x.record);
    }
    forall x, y, z | less(x, y) && less(y, z) ensures less(x, z) {
      RenderedTransitive(scopes, x.record, y.record, z.record);
    }
    forall x, y, z | !less(x, y) && !less(y, z) ensures !less(x, z) {
      RenderedTransitive(scopes, x.record, y.record, z.record);
    }
  }

  lemma RenderedLater(scopes: seq<Text>, a: Entry, b: Entry)
    requires !AsRendered(scopes)(a, b)
    ensures if a.pinned != b.pinned then b.pinned else !RenderedBefore(scopes, a.record, b.record)
  {
    var less := AsRendered(scopes);
    assert !less(a, b);
    assert PinRank(a) >= PinRank(b);
  }

  /** The block reads pinned entries first, then by scope, then by key, whatever chose them. */
  lemma ShownInOrder(records: seq<Record>, scopes: seq<Text>, max: int, ranked: bool, i: nat, j: nat)
    requires i < j < |Resolve(records, scopes, max, ranked).entries|
    ensures var entries := Resolve(records, scopes, max, ranked).entries;
            var a, b := entries[i].record, entries[j].record;
            if entries[i].pinned != entries[j].pinned then entries[i].pinned
            else if Rank(scopes, a.scope) != Rank(scopes, b.scope) then Rank(scopes, a.scope) < Rank(scopes, b.scope)
            else !TextLess(b.key, a.key)
  {
    var selected := Slice(Chosen(Resolved(records, scopes), scopes, ranked), max);
    AsRenderedStrictWeak(scopes);
    SortSorted(selected, AsRendered(scopes));
    var entries := Resolve(records, scopes, max, ranked).entries;
    RenderedLater(scopes, entries[j], entries[i]);
  }

  // ----- The same, step by step -----

  /** The records grouped by key, as the loop over them leaves them. */
  ghost predicate Grouped(seen: seq<Record>, scopes: seq<Text>, keys: seq<Text>, byKey: map<Text, seq<Record>>) {
    && keys == Keys(Kept(seen, scopes))
    && (forall k :: k in byKey <==> k in keys)
    && (forall k :: k in byKey ==> byKey[k] == Candidates(Kept(seen, scopes), k))
  }

  lemma NoCandidates(records: seq<Record>, key: Text)
    requires key !in Keys(records)
    ensures Candidates(records, key) == []
  {
    forall r | r in records ensures !OfKey(key)(r) {
      var i :| 0 <= i < |records| && records[i] == r;
    }
    FilterNone(records, OfKey(key));
  }

  lemma CandidatesMore(kept: seq<Record>, r: Record, key: Text)
    ensures Candidates(kept + [r], key) == Candidates(kept, key) + (if r.key == key then [r] else [])
  {
    FilterMore(kept, r, OfKey(key));
  }

  lemma GroupedSkip(seen: seq<Record>, r: Record, scopes: seq<Text>, keys: seq<Text>,
                    byKey: map<Text, seq<Record>>)
    requires Grouped(seen, scopes, keys, byKey) && r.scope !in scopes
    ensures Grouped(seen + [r], scopes, keys, byKey)
  {
    FilterMore(seen, r, InScopes(scopes));
    assert Kept(seen + [r], scopes) == Kept(seen, scopes);
  }

  lemma KeptMore(seen: seq<Record>, r: Record, scopes: seq<Text>)
    requires r.scope in scopes
    ensures Kept(seen + [r], scopes) == Kept(seen, scopes) + [r]
  {
    FilterMore(seen, r, InScopes(scopes));
  }

  lemma GroupedOld(seen: seq<Record>, r: Record, scopes: seq<Text>, keys: seq<Text>,
                   byKey: map<Text, seq<Record>>)
    requires Grouped(seen, scopes, keys, byKey) && r.scope in scopes && r.key in byKey
    ensures Grouped(seen + [r], scopes, keys, byKey[r.key := byKey[r.key] + [r]])
  {
    var kept := Kept(seen, scopes);
    KeptMore(seen, r, scopes);
    forall k ensures Candidates(kept + [r], k) == Candidates(kept, k) + (if r.key == k then [r] else []) {
      CandidatesMore(kept, r, k);
    }
  }

  lemma GroupedNew(seen: seq<Record>, r: Record, scopes: seq<Text>, keys: seq<Text>,
                   byKey: map<Text, seq<Record>>)
    requires Grouped(seen, scopes, keys, byKey) && r.scope in scopes && r.key !in byKey
    ensures Grouped(seen + [r], scopes, keys + [r.key], byKey[r.key := [r]])
  {
    var kept := Kept(seen, scopes);
    KeptMore(seen, r, scopes);
    NoCandidates(kept, r.key);
    var more := byKey[r.key := [r]];
    forall k | k in more ensures more[k] == Candidates(kept + [r], k) {
      CandidatesMore(kept, r, k);
    }
  }

  /** Groups the records of the actor's scopes by key. */
  method Group(records: seq<Record>, scopes: seq<Text>)
    returns (keys: seq<Text>, byKey: map<Text, seq<Record>>)
    ensures Grouped(records, scopes, keys, byKey)
  {
    keys, byKey := [], map[];
    assert records[..0] == [];
    for i := 0 to |records|
      invariant Grouped(records[..i], scopes, keys, byKey)
    {
      var r := records[i];
      assert records[..i + 1] == records[..i] + [r];
      if r.scope !in scopes {
        GroupedSkip(records[..i], r, scopes, keys, byKey);
      } else if r.key in byKey {
        GroupedOld(records[..i], r, scopes, keys, byKey);
        byKey := byKey[r.key := byKey[r.key] + [r]];
      } else {
        GroupedNew(records[..i], r, scopes, keys, byKey);
        keys, byKey := keys + [r.key], byKey[r.key := [r]];
      }
    }
    assert records[..|records|] == records;
  }

  /** The entry of the `i`-th group is `e`. */
  ghost predicate GroupIs(keys: seq<Text>, byKey: map<Text, seq<Record>>, scopes: seq<Text>, i: nat, e: Entry)
    requires i < |keys|
  {
    keys[i] in byKey && |byKey[keys[i]]| > 0 && EntryFor(byKey[keys[i]], scopes) == e
  }

  lemma GroupAnswers(records: seq<Record>, scopes: seq<Text>, keys: seq<Text>,
                     byKey: map<Text, seq<Record>>)
    requires Grouped(records, scopes, keys, byKey)
    ensures |keys| == |Resolved(records, scopes)|
    ensures forall i :: 0 <= i < |keys| ==> GroupIs(keys, byKey, scopes, i, Resolved(records, scopes)[i])
  {
    var kept := Kept(records, scopes);
    forall i | 0 <= i < |keys| ensures GroupIs(keys, byKey, scopes, i, EntriesOf(kept, keys, scopes)[i]) {
      EntryOfKey(kept, keys, scopes, i);
      assert keys[i] in keys;
    }
  }

  /** The entry of each group, in the order the keys were met. */
  method AnswerKeys(keys: seq<Text>, byKey: map<Text, seq<Record>>, scopes: seq<Text>, ghost all: seq<Entry>)
    returns (resolved: seq<Entry>)
    requires |keys| == |all| && forall i :: 0 <= i < |keys| ==> GroupIs(keys, byKey, scopes, i, all[i])
    ensures resolved == all
  {
    resolved := [];
    for i := 0 to |keys|
      invariant resolved == all[..i]
    {
      assert GroupIs(keys, byKey, scopes, i, all[i]);
      resolved := resolved + [EntryFor(byKey[keys[i]], scopes)];
    }
  }

  /** The ceiling the host set, or the default. */
  function CeilingOf(maxMemories: Option<int>): int {
    if maxMemories.Some? then maxMemories.value else DEFAULT_MAX
  }

  method ResolveMemoryDigest(records: seq<Record>, scopes: seq<Text>, maxMemories: Option<int>, ranked: bool)
    returns (digest: Digest)
    ensures digest == Resolve(records, scopes, match maxMemories case None => 20 case Some(max) => max, ranked)
  {
    var max := CeilingOf(maxMemories);
    var keys, byKey := Group(records, scopes);
    GroupAnswers(records, scopes, keys, byKey);
    var resolved := AnswerKeys(keys, byKey, scopes, Resolved(records, scopes));
    var selected := Slice(Chosen(resolved, scopes, ranked), max);
    digest := Digest(Sort(selected, AsRendered(scopes)),
                     Max(0, |resolved| - max),
                     PinnedIn(resolved) - PinnedIn(selected));
  }
}
