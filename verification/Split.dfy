/**
 * Splitting a text into messages within a limit, at a paragraph break, a line break, the end of a
 * sentence or a space where one lies past the first third of the window.
 */
module Split {
  import opened Common
  import opened JsText

  const NEWLINE: Unit := 0x0A

  predicate EndsSentence(c: Unit) {
    c == 0x2E || c == 0x21 || c == 0x3F || c == 0x2026
  }

  /** A full stop, an exclamation mark, a question mark, an ellipsis. */
  lemma SentencesEndWith(c: Unit)
    ensures EndsSentence(c) <==> c in {33, 46, 63, 8230}
  {
  }

  // ----- Breaks in a window -----

  /** The last newline of `w[i..]` before anything that is not white space, if there is one. */
  function LastNewline(w: Text, i: nat): (r: Option<nat>)
    requires i <= |w|
    ensures r.Some? ==> i <= r.value < |w| && w[r.value] == NEWLINE
    ensures r.Some? ==> forall k :: i <= k < r.value ==> IsSpace(w[k])
    decreases |w| - i
  {
    if i == |w| || !IsSpace(w[i]) then None
    else
      var later := LastNewline(w, i + 1);
      if later.Some? then later else if w[i] == NEWLINE then Some(i) else None
  }

  /** Where the paragraph breaks of `w[i..]` start: matches do not overlap. */
  function ParagraphBreaks(w: Text, i: nat): (ats: seq<nat>)
    requires i <= |w|
    ensures forall k :: 0 <= k < |ats| ==> i <= ats[k] < |w| && w[ats[k]] == NEWLINE
    decreases |w| - i
  {
    if i == |w| then []
    else if w[i] == NEWLINE && LastNewline(w, i + 1).Some? then
      [i] + ParagraphBreaks(w, LastNewline(w, i + 1).value + 1)
    else ParagraphBreaks(w, i + 1)
  }

  /** The last place that is past `floor` and leaves the piece within `limit`. */
  function LastWithin(ats: seq<nat>, floor: nat, limit: nat): (r: Option<nat>)
    ensures r.Some? ==> floor < r.value <= limit && r.value in ats
    ensures r.None? ==> forall k :: 0 <= k < |ats| ==> !(floor < ats[k] <= limit)
  {
    if ats == [] then None
    else
      var last := ats[|ats| - 1];
      if floor < last <= limit then Some(last) else LastWithin(ats[..|ats| - 1], floor, limit)
  }

  /** The matches of a one-unit pattern below `n`: `after` counts from behind the unit. */
  function Places(matches: nat -> bool, n: nat, after: nat): seq<nat> {
    if n == 0 then []
    else Places(matches, n - 1, after) + (if matches(n - 1) then [n - 1 + after] else [])
  }

  lemma {:induction false} PlacesMatch(matches: nat -> bool, n: nat, after: nat, at: nat)
    ensures at in Places(matches, n, after) <==> after <= at < n + after && matches(at - after)
  {
    if n > 0 {
      PlacesMatch(matches, n - 1, after, at);
    }
  }

  function IsNewlineAt(w: Text): nat -> bool {
    (i: nat) => i < |w| && w[i] == NEWLINE
  }

  function IsSentenceEndAt(w: Text): nat -> bool {
    (i: nat) => i + 1 < |w| && EndsSentence(w[i]) && IsSpace(w[i + 1])
  }

  function IsSpaceAt(w: Text): nat -> bool {
    (i: nat) => i < |w| && IsSpace(w[i])
  }

  /** The window a cut is looked for in: one unit more than the limit. */
  function Window(rest: Text, max: nat): Text
    requires 0 < max < |rest|
  {
    rest[..max + 1]
  }

  function ParagraphBreak(w: Text, max: nat): Option<nat> {
    LastWithin(ParagraphBreaks(w, 0), max / 3, max)
  }

  function LineBreak(w: Text, max: nat): Option<nat> {
    LastWithin(Places(IsNewlineAt(w), |w|, 0), max / 3, max)
  }

  function SentenceBreak(w: Text, max: nat): Option<nat> {
    LastWithin(Places(IsSentenceEndAt(w), |w|, 1), max / 3, max)
  }

  function SpaceBreak(w: Text, max: nat): Option<nat> {
    LastWithin(Places(IsSpaceAt(w), |w|, 0), max / 3, max)
  }

  /** Where a text longer than `max` is cut. */
  function Cut(rest: Text, max: nat): (cut: nat)
    requires 0 < max < |rest|
    ensures max / 3 < cut <= max
  {
    var w := Window(rest, max);
    if ParagraphBreak(w, max).Some? then ParagraphBreak(w, max).value
    else if LineBreak(w, max).Some? then LineBreak(w, max).value
    else if SentenceBreak(w, max).Some? then SentenceBreak(w, max).value
    else if SpaceBreak(w, max).Some? then SpaceBreak(w, max).value
    else max
  }

  lemma ParagraphAtSpace(w: Text, max: nat)
    ensures ParagraphBreak(w, max).Some? ==> IsSpaceAt(w)(ParagraphBreak(w, max).value)
  {
  }

  lemma LineAtSpace(w: Text, max: nat)
    ensures LineBreak(w, max).Some? ==> IsSpaceAt(w)(LineBreak(w, max).value)
  {
    if LineBreak(w, max).Some? {
      PlacesMatch(IsNewlineAt(w), |w|, 0, LineBreak(w, max).value);
    }
  }

  lemma SentenceAtSpace(w: Text, max: nat)
    ensures SentenceBreak(w, max).Some? ==> IsSpaceAt(w)(SentenceBreak(w, max).value)
  {
    if SentenceBreak(w, max).Some? {
      PlacesMatch(IsSentenceEndAt(w), |w|, 1, SentenceBreak(w, max).value);
    }
  }

  lemma SpaceAtSpace(w: Text, max: nat)
    ensures SpaceBreak(w, max).Some? ==> IsSpaceAt(w)(SpaceBreak(w, max).value)
  {
    if SpaceBreak(w, max).Some? {
      PlacesMatch(IsSpaceAt(w), |w|, 0, SpaceBreak(w, max).value);
    }
  }

  lemma SpaceIsFound(w: Text, max: nat, k: nat)
    requires max / 3 < k <= max && IsSpaceAt(w)(k)
    ensures SpaceBreak(w, max).Some?
  {
    var ats := Places(IsSpaceAt(w), |w|, 0);
    PlacesMatch(IsSpaceAt(w), |w|, 0, k);
    var n :| 0 <= n < |ats| && ats[n] == k;
  }

  /** A text is cut at white space whenever there is any past the first third of the window. */
  lemma CutsAtSpace(rest: Text, max: nat)
    requires 0 < max < |rest|
    ensures IsSpace(rest[Cut(rest, max)]) <==> exists k :: max / 3 < k <= max && IsSpace(rest[k])
  {
    var w := Window(rest, max);
    ParagraphAtSpace(w, max);
    LineAtSpace(w, max);
    SentenceAtSpace(w, max);
    SpaceAtSpace(w, max);
    if k: nat :| max / 3 < k <= max && IsSpace(rest[k]) {
      assert IsSpaceAt(w)(k);
      SpaceIsFound(w, max, k);
      assert IsSpaceAt(w)(Cut(rest, max));
    }
  }

  // ----- Which break is taken -----

  /** `r` is the last place past `floor`, within `limit`, that `at` allows; there is none if it is none. */
  ghost predicate IsLast(at: nat -> bool, floor: nat, limit: nat, r: Option<nat>) {
    match r
    case None => forall k: nat :: floor < k <= limit ==> !at(k)
    case Some(c) => floor < c <= limit && at(c) && forall k: nat :: c < k <= limit ==> !at(k)
  }

  predicate Ascending(ats: seq<nat>) {
    forall m, n :: 0 <= m < n < |ats| ==> ats[m] < ats[n]
  }

  lemma {:induction false} LastWithinIsLargest(ats: seq<nat>, floor: nat, limit: nat, k: nat)
    requires Ascending(ats)
    requires k in ats && floor < k <= limit
    ensures LastWithin(ats, floor, limit).Some? && k <= LastWithin(ats, floor, limit).value
  {
    var n :| 0 <= n < |ats| && ats[n] == k;
    var last := |ats| - 1;
    if !(floor < ats[last] <= limit) {
      assert ats[..last][n] == k;
      LastWithinIsLargest(ats[..last], floor, limit, k);
    }
  }

  lemma LastInList(ats: seq<nat>, floor: nat, limit: nat, at: nat -> bool)
    requires Ascending(ats) && forall k: nat :: k <= limit ==> (at(k) <==> k in ats)
    ensures IsLast(at, floor, limit, LastWithin(ats, floor, limit))
  {
    var r := LastWithin(ats, floor, limit);
    forall k: nat | floor < k <= limit && at(k) ensures r.Some? && k <= r.value {
      LastWithinIsLargest(ats, floor, limit, k);
    }
  }

  lemma {:induction false} PlacesAscend(matches: nat -> bool, n: nat, after: nat)
    ensures Ascending(Places(matches, n, after))
  {
    if n > 0 {
      PlacesAscend(matches, n - 1, after);
      var front := Places(matches, n - 1, after);
      forall i | 0 <= i < |front| ensures front[i] < n - 1 + after {
        PlacesMatch(matches, n - 1, after, front[i]);
      }
    }
  }

  /** Where `rest` has a line break, the end of a sentence, a space. */
  function LineAt(rest: Text): nat -> bool {
    (k: nat) => k < |rest| && rest[k] == NEWLINE
  }

  function SentenceAt(rest: Text): nat -> bool {
    (k: nat) => 0 < k < |rest| && EndsSentence(rest[k - 1]) && IsSpace(rest[k])
  }

  function SpaceAt(rest: Text): nat -> bool {
    (k: nat) => k < |rest| && IsSpace(rest[k])
  }

  lemma LastLine(rest: Text, max: nat)
    requires 0 < max < |rest|
    ensures IsLast(LineAt(rest), max / 3, max, LineBreak(Window(rest, max), max))
  {
    var w := Window(rest, max);
    PlacesAscend(IsNewlineAt(w), |w|, 0);
    forall k: nat | k <= max ensures LineAt(rest)(k) <==> k in Places(IsNewlineAt(w), |w|, 0) {
      PlacesMatch(IsNewlineAt(w), |w|, 0, k);
    }
    LastInList(Places(IsNewlineAt(w), |w|, 0), max / 3, max, LineAt(rest));
  }

  lemma LastSentence(rest: Text, max: nat)
    requires 0 < max < |rest|
    ensures IsLast(SentenceAt(rest), max / 3, max, SentenceBreak(Window(rest, max), max))
  {
    var w := Window(rest, max);
    PlacesAscend(IsSentenceEndAt(w), |w|, 1);
    forall k: nat | k <= max ensures SentenceAt(rest)(k) <==> k in Places(IsSentenceEndAt(w), |w|, 1) {
      PlacesMatch(IsSentenceEndAt(w), |w|, 1, k);
    }
    LastInList(Places(IsSentenceEndAt(w), |w|, 1), max / 3, max, SentenceAt(rest));
  }

  lemma LastSpace(rest: Text, max: nat)
    requires 0 < max < |rest|
    ensures IsLast(SpaceAt(rest), max / 3, max, SpaceBreak(Window(rest, max), max))
  {
    var w := Window(rest, max);
    PlacesAscend(IsSpaceAt(w), |w|, 0);
    forall k: nat | k <= max ensures SpaceAt(rest)(k) <==> k in Places(IsSpaceAt(w), |w|, 0) {
      PlacesMatch(IsSpaceAt(w), |w|, 0, k);
    }
    LastInList(Places(IsSpaceAt(w), |w|, 0), max / 3, max, SpaceAt(rest));
  }

  /** `\n\s*\n`: a newline at `a` and one at `b`, with nothing but white space between. */
  ghost predicate IsParagraphBreak(w: Text, a: nat, b: nat) {
    a < b < |w| && w[a] == NEWLINE && w[b] == NEWLINE && forall k :: a < k < b ==> IsSpace(w[k])
  }

  lemma {:induction false} LastNewlineFound(w: Text, i: nat, b: nat)
    requires i <= b < |w| && w[b] == NEWLINE && forall k :: i <= k < b ==> IsSpace(w[k])
    ensures LastNewline(w, i).Some? && LastNewline(w, i).value >= b
    decreases |w| - i
  {
    if i < b {
      LastNewlineFound(w, i + 1, b);
    }
  }

  lemma {:induction false} BreaksAreBreaks(w: Text, i: nat, k: nat)
    requires i <= |w| && k in ParagraphBreaks(w, i)
    ensures exists b :: IsParagraphBreak(w, k, b)
    decreases |w| - i
  {
    if w[i] == NEWLINE && LastNewline(w, i + 1).Some? {
      assert IsParagraphBreak(w, i, LastNewline(w, i + 1).value);
      if k != i {
        BreaksAreBreaks(w, LastNewline(w, i + 1).value + 1, k);
      }
    } else {
      BreaksAreBreaks(w, i + 1, k);
    }
  }

  lemma BreaksFrom(w: Text, i: nat)
    requires i < |w|
    ensures ParagraphBreaks(w, i)
            == if w[i] == NEWLINE && LastNewline(w, i + 1).Some?
               then [i] + ParagraphBreaks(w, LastNewline(w, i + 1).value + 1)
               else ParagraphBreaks(w, i + 1)
  {
  }

  /** Every paragraph break lies in one that was found: `k` starts the white space `a` is part of. */
  lemma {:induction false} BreaksAreFound(w: Text, i: nat, a: nat, b: nat) returns (k: nat)
    requires i <= a && IsParagraphBreak(w, a, b)
    ensures k in ParagraphBreaks(w, i) && k <= a && forall n :: k <= n <= a ==> IsSpace(w[n])
    decreases |w| - i
  {
    BreaksFrom(w, i);
    if i == a {
      LastNewlineFound(w, a + 1, b);
    }
    if w[i] == NEWLINE && LastNewline(w, i + 1).Some? {
      var last := LastNewline(w, i + 1).value;
      var later := ParagraphBreaks(w, last + 1);
      if a <= last {
        k := i;
        assert ([i] + later)[0] == i;
      } else {
        k := BreaksAreFound(w, last + 1, a, b);
        assert k in later;
      }
    } else {
      k := BreaksAreFound(w, i + 1, a, b);
    }
  }

  lemma {:induction false} BreaksAscend(w: Text, i: nat)
    requires i <= |w|
    ensures Ascending(ParagraphBreaks(w, i))
    decreases |w| - i
  {
    if i < |w| {
      if w[i] == NEWLINE && LastNewline(w, i + 1).Some? {
        BreaksAscend(w, LastNewline(w, i + 1).value + 1);
      } else {
        BreaksAscend(w, i + 1);
      }
    }
  }

  /** What a cut is, by the first kind of break the window has past its first third. */
  ghost predicate CutAsRead(rest: Text, max: nat, cut: nat)
    requires 0 < max < |rest|
  {
    var floor := max / 3;
    var paragraphs := ParagraphBreaks(Window(rest, max), 0);
    if exists k :: k in paragraphs && floor < k <= max then
      cut in paragraphs && floor < cut <= max && forall k :: k in paragraphs && k <= max ==> k <= cut
    else if exists k :: floor < k <= max && LineAt(rest)(k) then
      IsLast(LineAt(rest), floor, max, Some(cut))
    else if exists k :: floor < k <= max && SentenceAt(rest)(k) then
      IsLast(SentenceAt(rest), floor, max, Some(cut))
    else if exists k :: floor < k <= max && SpaceAt(rest)(k) then
      IsLast(SpaceAt(rest), floor, max, Some(cut))
    else cut == max
  }

  /**
   * Where a reader would cut: at the window's last paragraph break past its first third, else its
   * last line break there, else its last end of a sentence, else its last space, else at the limit.
   */
  lemma CutsWhereAReaderWould(rest: Text, max: nat)
    requires 0 < max < |rest|
    ensures CutAsRead(rest, max, Cut(rest, max))
  {
    var w, floor := Window(rest, max), max / 3;
    LastLine(rest, max);
    LastSentence(rest, max);
    LastSpace(rest, max);
    var paragraphs := ParagraphBreaks(w, 0);
    BreaksAscend(w, 0);
    if k :| k in paragraphs && floor < k <= max {
      LastWithinIsLargest(paragraphs, floor, max, k);
      var cut := ParagraphBreak(w, max).value;
      forall m | m in paragraphs && m <= max ensures m <= cut {
        if m > floor {
          LastWithinIsLargest(paragraphs, floor, max, m);
        }
      }
    }
  }

  /** The paragraph breaks a cut is chosen among: each is one, and none lies outside them. */
  lemma ParagraphsFound(w: Text, k: nat)
    ensures k in ParagraphBreaks(w, 0) ==> exists b :: IsParagraphBreak(w, k, b)
    ensures (exists b :: IsParagraphBreak(w, k, b)) ==>
              exists m :: m in ParagraphBreaks(w, 0) && m <= k && forall n :: m <= n <= k ==> IsSpace(w[n])
  {
    if k in ParagraphBreaks(w, 0) {
      BreaksAreBreaks(w, 0, k);
    }
    if b :| IsParagraphBreak(w, k, b) {
      var m := BreaksAreFound(w, 0, k, b);
    }
  }

  // ----- The pieces -----

  /** What is left has something on it at both ends. */
  predicate IsRest(rest: Text) {
    rest != [] && !IsSpace(rest[0]) && !IsSpace(rest[|rest| - 1])
  }

  function Head(rest: Text, max: nat): Text
    requires 0 < max < |rest|
  {
    TrimEnd(rest[..Cut(rest, max)])
  }

  function Tail(rest: Text, max: nat): Text
    requires 0 < max < |rest|
  {
    TrimStart(rest[Cut(rest, max)..])
  }

  /** The white space dropped between a piece and what is left. */
  function Gap(rest: Text, max: nat): Text
    requires 0 < max < |rest|
  {
    var cut := Cut(rest, max);
    rest[DropSpace(rest[..cut], cut)..cut + SkipSpace(rest[cut..], 0)]
  }

  lemma HeadFits(rest: Text, max: nat)
    requires 0 < max < |rest| && IsRest(rest)
    ensures Head(rest, max) != [] && |Head(rest, max)| <= max && IsTrimmed(Head(rest, max))
  {
    var front := rest[..Cut(rest, max)];
    var i := DropSpace(front, |front|);
    assert front[0] == rest[0];
    assert i > 0;
    assert Head(rest, max)[0] == front[0] && Head(rest, max)[i - 1] == front[i - 1];
  }

  lemma TailIsRest(rest: Text, max: nat)
    requires 0 < max < |rest| && IsRest(rest)
    ensures IsRest(Tail(rest, max)) && |Tail(rest, max)| <= |rest| - Cut(rest, max)
  {
    var back := rest[Cut(rest, max)..];
    var j := SkipSpace(back, 0);
    assert back[|back| - 1] == rest[|rest| - 1];
    assert j < |back|;
    assert Tail(rest, max)[0] == back[j];
  }

  lemma GapBlank(rest: Text, max: nat)
    requires 0 < max < |rest|
    ensures IsBlank(Gap(rest, max))
  {
    var cut := Cut(rest, max);
    GapIsBlank(rest, DropSpace(rest[..cut], cut), cut, SkipSpace(rest[cut..], 0));
  }

  lemma Around(rest: Text, cut: nat, i: nat, j: nat)
    requires i <= cut <= cut + j <= |rest|
    ensures rest[..cut][..i] == rest[0..i]
    ensures rest[cut..][j..] == rest[cut + j..|rest|]
  {
  }

  lemma HeadGapTail(rest: Text, max: nat)
    requires 0 < max < |rest|
    ensures rest == Head(rest, max) + Gap(rest, max) + Tail(rest, max)
  {
    var cut := Cut(rest, max);
    var i, j := DropSpace(rest[..cut], cut), SkipSpace(rest[cut..], 0);
    Around(rest, cut, i, j);
    ThreeParts(rest, i, cut + j);
  }

  /** A cut loses nothing but white space, and leaves something on both sides. */
  lemma CutParts(rest: Text, max: nat)
    requires 0 < max < |rest| && IsRest(rest)
    ensures rest == Head(rest, max) + Gap(rest, max) + Tail(rest, max)
    ensures Head(rest, max) != [] && |Head(rest, max)| <= max && IsTrimmed(Head(rest, max))
    ensures IsRest(Tail(rest, max)) && |Tail(rest, max)| <= |rest| - Cut(rest, max)
    ensures IsBlank(Gap(rest, max))
  {
    HeadFits(rest, max);
    TailIsRest(rest, max);
    HeadGapTail(rest, max);
    GapBlank(rest, max);
  }

  lemma GapIsBlank(rest: Text, i: nat, cut: nat, j: nat)
    requires i <= cut <= cut + j <= |rest|
    requires forall n :: i <= n < cut ==> IsSpace(rest[..cut][n])
    requires forall n :: 0 <= n < j ==> IsSpace(rest[cut..][n])
    ensures IsBlank(rest[i..cut + j])
  {
    forall n | i <= n < cut + j ensures IsSpace(rest[n]) {
      if n < cut {
        assert rest[..cut][n] == rest[n];
      } else {
        assert rest[cut..][n - cut] == rest[n];
      }
    }
    BlankSlice(rest, i, cut + j);
  }

  function Pieces(rest: Text, max: nat): seq<Text>
    requires 0 < max && IsRest(rest)
    decreases |rest|
  {
    if |rest| <= max then [rest]
    else
      CutParts(rest, max);
      [Head(rest, max)] + Pieces(Tail(rest, max), max)
  }

  function SplitText(text: Text, max: int): (r: Result<seq<Text>>) {
    if max < 1 then Failure(RangeError)
    else
      var rest := Trim(text);
      if rest == [] then Success([])
      else
        TrimmedIsRest(text);
        Success(Pieces(rest, max))
  }

  lemma TrimmedIsRest(text: Text)
    requires Trim(text) != []
    ensures IsRest(Trim(text))
  {
    var a, b := TrimParts(text);
  }

  // ----- The same, in a loop -----

  method SplitMessage(text: Text, max: int) returns (pieces: Result<seq<Text>>)
    ensures pieces == SplitText(text, max)
  {
    if max < 1 {
      return Failure(RangeError);
    }
    var out: seq<Text> := [];
    var rest := Trim(text);
    if rest == [] {
      return Success(out);
    }
    TrimmedIsRest(text);
    ghost var all := Pieces(rest, max);
    while |rest| > max
      invariant IsRest(rest) && all == out + Pieces(rest, max)
      decreases |rest|
    {
      LongPieces(rest, max);
      HeadFits(rest, max);
      var piece := Head(rest, max);
      if |piece| > 0 {
        out := out + [piece];
      }
      rest := Tail(rest, max);
    }
    if |rest| > 0 {
      out := out + [rest];
    }
    pieces := Success(out);
  }

  // ----- What the pieces are -----

  /** Every piece says something, is trimmed, and fits. */
  lemma {:induction false} PiecesFit(rest: Text, max: nat)
    requires 0 < max && IsRest(rest)
    ensures forall i :: 0 <= i < |Pieces(rest, max)| ==>
              var p := Pieces(rest, max)[i]; p != [] && |p| <= max && IsTrimmed(p)
    decreases |rest|
  {
    if |rest| > max {
      CutParts(rest, max);
      PiecesFit(Tail(rest, max), max);
    }
  }

  /** The pieces with the gaps between them. */
  function Interleaved(pieces: seq<Text>, gaps: seq<Text>): Text
    requires |pieces| == |gaps| + 1
  {
    if gaps == [] then pieces[0] else pieces[0] + gaps[0] + Interleaved(pieces[1..], gaps[1..])
  }

  lemma LongPieces(rest: Text, max: nat)
    requires 0 < max < |rest| && IsRest(rest)
    ensures IsRest(Tail(rest, max)) && |Tail(rest, max)| + max / 3 + 1 <= |rest|
    ensures Pieces(rest, max) == [Head(rest, max)] + Pieces(Tail(rest, max), max)
  {
    CutParts(rest, max);
  }

  lemma InterleavedMore(piece: Text, gap: Text, pieces: seq<Text>, gaps: seq<Text>)
    requires |pieces| == |gaps| + 1
    ensures Interleaved([piece] + pieces, [gap] + gaps) == piece + gap + Interleaved(pieces, gaps)
  {
    assert ([piece] + pieces)[1..] == pieces && ([gap] + gaps)[1..] == gaps;
  }

  /** One more piece and its gap, in front. */
  lemma RebuildMore(rest: Text, max: nat, pieces: seq<Text>, gaps: seq<Text>)
    requires 0 < max < |rest| && |pieces| == |gaps| + 1
    requires Interleaved(pieces, gaps) == Tail(rest, max)
    ensures Interleaved([Head(rest, max)] + pieces, [Gap(rest, max)] + gaps) == rest
  {
    InterleavedMore(Head(rest, max), Gap(rest, max), pieces, gaps);
    HeadGapTail(rest, max);
  }

  lemma BlankMore(gap: Text, gaps: seq<Text>)
    requires IsBlank(gap) && forall i :: 0 <= i < |gaps| ==> IsBlank(gaps[i])
    ensures forall i :: 0 <= i < |[gap] + gaps| ==> IsBlank(([gap] + gaps)[i])
  {
  }

  lemma {:induction false} PiecesRebuild(rest: Text, max: nat) returns (gaps: seq<Text>)
    requires 0 < max && IsRest(rest)
    ensures |Pieces(rest, max)| == |gaps| + 1
    ensures Interleaved(Pieces(rest, max), gaps) == rest
    ensures forall i :: 0 <= i < |gaps| ==> IsBlank(gaps[i])
    decreases |rest|
  {
    if |rest| <= max {
      gaps := [];
      assert Pieces(rest, max) == [rest];
    } else {
      LongPieces(rest, max);
      var more := PiecesRebuild(Tail(rest, max), max);
      gaps := [Gap(rest, max)] + more;
      RebuildMore(rest, max, Pieces(Tail(rest, max), max), more);
      GapBlank(rest, max);
      BlankMore(Gap(rest, max), more);
    }
  }

  predicate FitIn(n: int, unit: nat, size: nat) {
    n * unit <= size
  }

  lemma CountOneMore(n: int, unit: nat, tail: nat, whole: nat)
    requires FitIn(n, unit, tail) && tail + unit <= whole
    ensures FitIn(n + 1, unit, whole)
  {
    assert (n + 1) * unit == n * unit + unit;
  }

  lemma NoneFit(unit: nat, size: nat)
    ensures FitIn(0, unit, size)
  {
  }

  /** Every piece but the last takes more than a third of the limit. */
  lemma {:induction false} PiecesCount(rest: Text, max: nat, unit: nat)
    requires 0 < max && IsRest(rest) && unit == max / 3 + 1
    ensures FitIn(|Pieces(rest, max)| - 1, unit, |rest|)
    decreases |rest|
  {
    if |rest| <= max {
      NoneFit(unit, |rest|);
    } else {
      LongPieces(rest, max);
      PiecesCount(Tail(rest, max), max, unit);
      CountOneMore(|Pieces(Tail(rest, max), max)| - 1, unit, |Tail(rest, max)|, |rest|);
    }
  }

  lemma MultiplyMore(a: int, b: int, d: nat)
    requires a <= b
    ensures a * d <= b * d
  {
  }

  lemma FitsInto(q: int, n: nat, d: nat)
    requires d > 0 && FitIn(q, d, n)
    ensures q <= n / d
  {
    if q > n / d {
      MultiplyMore(n / d + 1, q, d);
    }
  }

  /** Without a positive limit it throws; a text that fits is one piece, whole. */
  lemma SplitAnswers(text: Text, max: int)
    ensures SplitText(text, max).Failure? <==> max <= 0
    ensures max <= 0 ==> SplitText(text, max) == Failure(RangeError)
    ensures 0 < |Trim(text)| <= max ==> SplitText(text, max) == Success([Trim(text)])
  {
  }

  /** A longer one is cut in two, both trimmed where they meet, and what is left is split in turn. */
  lemma SplitGoesOn(text: Text, max: nat)
    requires 0 < max < |Trim(text)|
    ensures var rest := Trim(text);
            var cut := Cut(rest, max);
            var left := TrimStart(rest[cut..]);
            && SplitText(left, max).Success?
            && SplitText(text, max) == Success([TrimEnd(rest[..cut])] + SplitText(left, max).value)
  {
    var rest := Trim(text);
    TrimmedIsRest(text);
    CutParts(rest, max);
    TrimOfRest(Tail(rest, max));
  }

  lemma TrimOfRest(rest: Text)
    requires IsRest(rest)
    ensures Trim(rest) == rest
  {
    assert rest[0..|rest|] == rest;
  }

  /**
   * For every text and positive limit: the pieces are non-empty, trimmed and within the limit; with
   * white-space-only gaps between them they rebuild the trimmed text exactly; and there are at most
   * 1 + length / (limit / 3 + 1) of them.
   */
  lemma SplitIsFaithful(text: Text, max: nat) returns (gaps: seq<Text>)
    requires max > 0
    ensures var pieces := SplitText(text, max);
            && pieces.Success?
            && (forall i :: 0 <= i < |pieces.value| ==>
                  pieces.value[i] != [] && |pieces.value[i]| <= max && IsTrimmed(pieces.value[i]))
            && |pieces.value| <= 1 + |text| / (max / 3 + 1)
            && (pieces.value == [] <==> IsBlank(text))
            && (pieces.value != [] ==>
                  |pieces.value| == |gaps| + 1 && Interleaved(pieces.value, gaps) == Trim(text))
    ensures forall i :: 0 <= i < |gaps| ==> IsBlank(gaps[i])
  {
    gaps := [];
    TrimBlank(text);
    var rest := Trim(text);
    if rest != [] {
      TrimmedIsRest(text);
      PiecesFit(rest, max);
      gaps := PiecesRebuild(rest, max);
      PiecesCount(rest, max, max / 3 + 1);
      var a, b := TrimParts(text);
      FitsInto(|Pieces(rest, max)| - 1, |text|, max / 3 + 1);
    }
  }
}
