/** `Array.prototype.sort` with a comparator, as a stable insertion sort, and what it determines. */
module Sorting {

  /** The comparator is a strict weak order: what `sort` needs to mean anything. */
  ghost predicate StrictWeakOrder<T(!new)>(less: (T, T) -> bool) {
    && (forall x :: !less(x, x))
    && (forall x, y, z :: less(x, y) && less(y, z) ==> less(x, z))
    && (forall x, y, z :: !less(x, y) && !less(y, z) ==> !less(x, z))
  }

  predicate Sorted<T>(s: seq<T>, less: (T, T) -> bool) {
    forall i, j :: 0 <= i < j < |s| ==> !less(s[j], s[i])
  }

  /** No two different elements tie, so there is only one way to sort them. */
  ghost predicate NoTies<T>(s: seq<T>, less: (T, T) -> bool) {
    forall x, y :: x in s && y in s && x != y ==> less(x, y) || less(y, x)
  }

  function Insert<T>(x: T, s: seq<T>, less: (T, T) -> bool): (r: seq<T>)
    ensures multiset(r) == multiset{x} + multiset(s)
    ensures |r| == |s| + 1
  {
    if s == [] then [x]
    else if less(s[0], x) then
      assert s == [s[0]] + s[1..];
      [s[0]] + Insert(x, s[1..], less)
    else [x] + s
  }

  function Sort<T>(s: seq<T>, less: (T, T) -> bool): (r: seq<T>)
    ensures multiset(r) == multiset(s)
    ensures |r| == |s|
  {
    if s == [] then []
    else
      assert s == [s[0]] + s[1..];
      Insert(s[0], Sort(s[1..], less), less)
  }

  lemma SameElements<T>(s: seq<T>, t: seq<T>)
    requires multiset(s) == multiset(t)
    ensures |s| == |t|
    ensures forall x :: x in s <==> x in t
  {
    assert |multiset(s)| == |multiset(t)|;
    forall x ensures x in s <==> x in t {
      assert x in s <==> x in multiset(s);
      assert x in t <==> x in multiset(t);
    }
  }

  lemma {:induction false} InsertSorted<T(!new)>(x: T, s: seq<T>, less: (T, T) -> bool)
    requires StrictWeakOrder(less)
    requires Sorted(s, less)
    ensures Sorted(Insert(x, s, less), less)
  {
    if s != [] && less(s[0], x) {
      var rest := Insert(x, s[1..], less);
      InsertSorted(x, s[1..], less);
      forall j | 0 <= j < |rest| ensures !less(rest[j], s[0]) {
        assert rest[j] in multiset(rest);
        if rest[j] != x {
          assert rest[j] in s[1..];
        }
      }
    }
  }

  lemma {:induction false} SortSorted<T(!new)>(s: seq<T>, less: (T, T) -> bool)
    requires StrictWeakOrder(less)
    ensures Sorted(Sort(s, less), less)
  {
    if s != [] {
      SortSorted(s[1..], less);
      InsertSorted(s[0], Sort(s[1..], less), less);
    }
  }

  lemma SameTail<T>(s: seq<T>, t: seq<T>)
    requires multiset(s) == multiset(t) && |s| > 0 && |t| > 0 && s[0] == t[0]
    ensures multiset(s[1..]) == multiset(t[1..])
  {
    assert s == [s[0]] + s[1..] && t == [t[0]] + t[1..];
    assert multiset(s[1..]) == multiset(s) - multiset{s[0]};
    assert multiset(t[1..]) == multiset(t) - multiset{t[0]};
  }

  /** Two sorted arrangements of the same elements are the same sequence. */
  lemma {:induction false} SortedUnique<T(!new)>(s: seq<T>, t: seq<T>, less: (T, T) -> bool)
    requires multiset(s) == multiset(t)
    requires Sorted(s, less) && Sorted(t, less) && NoTies(s, less)
    ensures s == t
  {
    SameElements(s, t);
    if s != [] {
      assert s[0] in s && t[0] in t;
      SameTail(s, t);
      SortedUnique(s[1..], t[1..], less);
      assert s == [s[0]] + s[1..] && t == [t[0]] + t[1..];
    }
  }

  /** Sorting forgets the order its input came in. */
  lemma SortIgnoresOrder<T(!new)>(s: seq<T>, t: seq<T>, less: (T, T) -> bool)
    requires StrictWeakOrder(less)
    requires multiset(s) == multiset(t)
    requires NoTies(s, less)
    ensures Sort(s, less) == Sort(t, less)
  {
    SortSorted(s, less);
    SortSorted(t, less);
    SameElements(s, Sort(s, less));
    SortedUnique(Sort(s, less), Sort(t, less), less);
  }

  /** `slice(0, n)` for a limit of at least zero. */
  function Take<T>(s: seq<T>, n: nat): (r: seq<T>) {
    if n < |s| then s[..n] else s
  }

  function Filter<T(!new)>(s: seq<T>, keep: T -> bool): (r: seq<T>)
    ensures forall x :: x in r <==> x in s && keep(x)
    ensures |r| <= |s|
  {
    if s == [] then []
    else
      assert s == [s[0]] + s[1..];
      (if keep(s[0]) then [s[0]] else []) + Filter(s[1..], keep)
  }

  /** No element twice. */
  ghost predicate Distinct<T>(s: seq<T>) {
    forall i, j :: 0 <= i < j < |s| ==> s[i] != s[j]
  }

  lemma {:induction false} DistinctMultiset<T>(s: seq<T>)
    requires Distinct(s)
    ensures forall x :: multiset(s)[x] <= 1
  {
    if s != [] {
      assert s == [s[0]] + s[1..];
      DistinctMultiset(s[1..]);
      assert s[0] !in s[1..];
    }
  }

  lemma {:induction false} MultisetDistinct<T>(s: seq<T>)
    requires forall x :: multiset(s)[x] <= 1
    ensures Distinct(s)
  {
    if s != [] {
      assert s == [s[0]] + s[1..];
      forall x ensures multiset(s[1..])[x] <= 1 {
        assert multiset(s)[x] == multiset{s[0]}[x] + multiset(s[1..])[x];
      }
      MultisetDistinct(s[1..]);
      assert multiset(s)[s[0]] == 1 + multiset(s[1..])[s[0]];
      assert s[0] !in multiset(s[1..]);
    }
  }

  lemma {:induction false} FilterDistinct<T(!new)>(s: seq<T>, keep: T -> bool)
    requires Distinct(s)
    ensures Distinct(Filter(s, keep))
  {
    if s != [] {
      assert s == [s[0]] + s[1..];
      FilterDistinct(s[1..], keep);
      assert s[0] !in s[1..];
    }
  }

  lemma SortDistinct<T>(s: seq<T>, less: (T, T) -> bool)
    requires Distinct(s)
    ensures Distinct(Sort(s, less))
  {
    DistinctMultiset(s);
    assert multiset(Sort(s, less)) == multiset(s);
    MultisetDistinct(Sort(s, less));
  }

  lemma {:induction false} FilterCounts<T(!new)>(s: seq<T>, keep: T -> bool, x: T)
    ensures multiset(Filter(s, keep))[x] == if keep(x) then multiset(s)[x] else 0
  {
    if s != [] {
      assert s == [s[0]] + s[1..];
      FilterCounts(s[1..], keep, x);
    }
  }

  /** Filtering forgets the order its input came in, too. */
  lemma FilterIgnoresOrder<T(!new)>(s: seq<T>, t: seq<T>, keep: T -> bool)
    requires multiset(s) == multiset(t)
    ensures multiset(Filter(s, keep)) == multiset(Filter(t, keep))
  {
    forall x ensures multiset(Filter(s, keep))[x] == multiset(Filter(t, keep))[x] {
      FilterCounts(s, keep, x);
      FilterCounts(t, keep, x);
    }
  }

  lemma SameMembersSameMultiset<T>(s: seq<T>, t: seq<T>)
    requires Distinct(s) && Distinct(t) && forall x :: x in s <==> x in t
    ensures multiset(s) == multiset(t)
  {
    DistinctMultiset(s);
    DistinctMultiset(t);
    forall x ensures multiset(s)[x] == multiset(t)[x] {
      assert x in s <==> x in multiset(s);
      assert x in t <==> x in multiset(t);
    }
  }

  /** What filtering does with the first element. */
  lemma FilterFirst<T(!new)>(x: T, s: seq<T>, keep: T -> bool)
    ensures Filter([x] + s, keep) == (if keep(x) then [x] else []) + Filter(s, keep)
  {
    assert ([x] + s)[1..] == s;
  }

  lemma {:induction false} FilterMore<T(!new)>(s: seq<T>, x: T, keep: T -> bool)
    ensures Filter(s + [x], keep) == Filter(s, keep) + (if keep(x) then [x] else [])
  {
    if s == [] {
      FilterFirst(x, [], keep);
      assert s + [x] == [x] + [];
    } else {
      FilterMore(s[1..], x, keep);
      FilterFirst(s[0], s[1..], keep);
      FilterFirst(s[0], s[1..] + [x], keep);
      assert s == [s[0]] + s[1..] && s + [x] == [s[0]] + (s[1..] + [x]);
    }
  }

  lemma {:induction false} FilterNone<T(!new)>(s: seq<T>, keep: T -> bool)
    requires forall x :: x in s ==> !keep(x)
    ensures Filter(s, keep) == []
  {
    if s != [] {
      FilterNone(s[1..], keep);
    }
  }

  lemma Associates<T>(a: seq<T>, b: seq<T>, c: seq<T>)
    ensures a + (b + c) == (a + b) + c
  {
  }

  lemma {:induction false} FilterSplits<T(!new)>(a: seq<T>, b: seq<T>, keep: T -> bool)
    ensures Filter(a + b, keep) == Filter(a, keep) + Filter(b, keep)
  {
    if a == [] {
      assert a + b == b;
    } else {
      var first := if keep(a[0]) then [a[0]] else [];
      FilterSplits(a[1..], b, keep);
      assert (a + b)[1..] == a[1..] + b;
      Associates(first, Filter(a[1..], keep), Filter(b, keep));
    }
  }

  lemma {:induction false} FilterAll<T(!new)>(s: seq<T>, keep: T -> bool)
    requires forall x :: x in s ==> keep(x)
    ensures Filter(s, keep) == s
  {
    if s != [] {
      FilterAll(s[1..], keep);
      FilterFirst(s[0], s[1..], keep);
      assert s == [s[0]] + s[1..];
    }
  }
}
