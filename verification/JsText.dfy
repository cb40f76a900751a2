/** White space in JavaScript strings: what `trim` removes and `\s` matches. */
module JsText {
  import opened Common

  predicate IsSpace(c: Unit) {
    || 0x09 <= c <= 0x0D || c == 0x20 || c == 0xA0 || c == 0x1680 || 0x2000 <= c <= 0x200A
    || c == 0x2028 || c == 0x2029 || c == 0x202F || c == 0x205F || c == 0x3000 || c == 0xFEFF
  }

  /** Tab, line feed, the tabs and feeds between, the spaces Unicode calls so, and the byte order mark. */
  lemma SpacesAre(c: Unit)
    ensures IsSpace(c) <==>
              c in {9, 10, 11, 12, 13, 32, 160, 5760, 8192, 8193, 8194, 8195, 8196, 8197, 8198, 8199, 8200,
                    8201, 8202, 8232, 8233, 8239, 8287, 12288, 65279}
  {
  }

  predicate IsBlank(t: Text) {
    forall i :: 0 <= i < |t| ==> IsSpace(t[i])
  }

  /** The first index from `i` on that is not white space, or the end. */
  function SkipSpace(t: Text, i: nat): (k: nat)
    requires i <= |t|
    ensures i <= k <= |t| && (forall n :: i <= n < k ==> IsSpace(t[n]))
    ensures k < |t| ==> !IsSpace(t[k])
    decreases |t| - i
  {
    if i < |t| && IsSpace(t[i]) then SkipSpace(t, i + 1) else i
  }

  /** The end of what remains of `t[..j]` without white space after it. */
  function DropSpace(t: Text, j: nat): (k: nat)
    requires j <= |t|
    ensures k <= j && (forall n :: k <= n < j ==> IsSpace(t[n]))
    ensures k > 0 ==> !IsSpace(t[k - 1])
  {
    if j > 0 && IsSpace(t[j - 1]) then DropSpace(t, j - 1) else j
  }

  function TrimStart(t: Text): Text {
    t[SkipSpace(t, 0)..]
  }

  function TrimEnd(t: Text): Text {
    t[..DropSpace(t, |t|)]
  }

  function Trim(t: Text): Text {
    var i, j := SkipSpace(t, 0), DropSpace(t, |t|);
    if i < j then t[i..j] else []
  }

  predicate IsTrimmed(t: Text) {
    t != [] ==> !IsSpace(t[0]) && !IsSpace(t[|t| - 1])
  }

  /** Trimming leaves nothing exactly of a blank text. */
  lemma TrimBlank(t: Text)
    ensures Trim(t) == [] <==> IsBlank(t)
  {
    var i, j := SkipSpace(t, 0), DropSpace(t, |t|);
    if i < |t| {
      assert j > i;
    }
  }

  lemma BlankSlice(t: Text, i: nat, j: nat)
    requires i <= j <= |t| && forall n :: i <= n < j ==> IsSpace(t[n])
    ensures IsBlank(t[i..j])
  {
  }

  lemma ThreeParts<T>(t: seq<T>, i: nat, j: nat)
    requires i <= j <= |t|
    ensures t == t[0..i] + t[i..j] + t[j..|t|]
  {
  }

  /** Where the trimmed text stands in the whole: white space before, white space after. */
  lemma TrimBounds(t: Text) returns (i: nat, j: nat)
    ensures i <= j <= |t| && Trim(t) == t[i..j]
    ensures IsBlank(t[0..i]) && IsBlank(t[j..|t|])
    ensures i < j ==> !IsSpace(t[i]) && !IsSpace(t[j - 1])
  {
    i, j := SkipSpace(t, 0), DropSpace(t, |t|);
    assert i < |t| ==> i < j;
    if i >= j {
      i, j := |t|, |t|;
    }
    BlankSlice(t, 0, i);
    BlankSlice(t, j, |t|);
  }

  /** Trimming removes white space at both ends, and only there. */
  lemma TrimParts(t: Text) returns (a: Text, b: Text)
    ensures t == a + Trim(t) + b && IsBlank(a) && IsBlank(b)
    ensures IsTrimmed(Trim(t))
  {
    var i, j := TrimBounds(t);
    ThreeParts(t, i, j);
    a, b := t[0..i], t[j..|t|];
  }
}
