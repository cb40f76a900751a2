/** Values every other module shares: optional values, thrown errors, and JavaScript strings. */
module Common {

  datatype Option<+T> = None | Some(value: T)

  /** The kinds of error the modelled code throws. */
  datatype Error = RangeError | TypeError | PlainError

  /** A call that returned, or threw. */
  datatype Result<+T> = Success(value: T) | Failure(error: Error)

  /** A JavaScript string is a sequence of UTF-16 code units, paired surrogates or not. */
  type Unit = c: int | 0 <= c < 0x1_0000
  type Text = seq<Unit>

  /** Spells an ASCII literal as code units. */
  function Ascii(s: string): (t: Text)
    requires forall i :: 0 <= i < |s| ==> s[i] as int < 0x80
  {
    seq(|s|, i requires 0 <= i < |s| => s[i] as int)
  }

  /** `Number.isSafeInteger`, for a value already known to be an integer. */
  predicate SafeInteger(n: int) {
    -0x1F_FFFF_FFFF_FFFF <= n <= 0x1F_FFFF_FFFF_FFFF
  }

  function Max(a: int, b: int): int {
    if a < b then b else a
  }

  function Min(a: int, b: int): int {
    if a < b then a else b
  }

  /** There is always a number not used yet. */
  lemma {:induction false} Fresh(used: set<nat>) returns (n: nat)
    ensures forall m :: m in used ==> m < n
    decreases |used|
  {
    n := 0;
    if used != {} {
      var m :| m in used;
      var rest := Fresh(used - {m});
      n := if rest <= m then m + 1 else rest;
      forall k | k in used ensures k < n {
        assert k == m || k in used - {m};
      }
    }
  }

  /** The `<` of two strings: by the first differing code unit, a proper prefix first. */
  predicate TextLess(a: Text, b: Text) {
    b != [] && (a == [] || a[0] < b[0] || (a[0] == b[0] && TextLess(a[1..], b[1..])))
  }

  /** Two strings compare as the units at the first place they differ; the end comes before any unit. */
  lemma {:induction false} TextLessSays(a: Text, b: Text) returns (k: nat)
    requires a != b
    ensures k <= |a| && k <= |b| && a[..k] == b[..k]
    ensures k == |a| || k == |b| || a[k] != b[k]
    ensures TextLess(a, b) <==> k < |b| && (k == |a| || a[k] < b[k])
  {
    k := 0;
    if a != [] && b != [] && a[0] == b[0] {
      assert a == [a[0]] + a[1..] && b == [b[0]] + b[1..];
      k := TextLessSays(a[1..], b[1..]);
      k := k + 1;
    }
  }

  lemma {:induction false} TextLessIrreflexive(a: Text)
    ensures !TextLess(a, a)
  {
    if a != [] {
      TextLessIrreflexive(a[1..]);
    }
  }

  lemma {:induction false} TextLessTotal(a: Text, b: Text)
    ensures a == b || TextLess(a, b) || TextLess(b, a)
  {
    if a != [] && b != [] && a[0] == b[0] {
      TextLessTotal(a[1..], b[1..]);
      assert a == [a[0]] + a[1..] && b == [b[0]] + b[1..];
    }
  }

  lemma {:induction false} TextLessTransitive(a: Text, b: Text, c: Text)
    requires TextLess(a, b) && TextLess(b, c)
    ensures TextLess(a, c)
  {
    if a != [] && a[0] == b[0] && b[0] == c[0] {
      TextLessTransitive(a[1..], b[1..], c[1..]);
    }
  }
}
