/**
 * What a turn sends of its thread: blank assistant messages left out, calls nobody answered settled,
 * the newest messages that fit the window kept, and each message expanded into what a provider takes.
 */
module History {
  import opened Common
  import opened JsText
  import opened Sorting

  datatype Role = System | User | Assistant

  datatype Call = Call(id: Text, name: Text, input: Text)

  datatype Output = Null | WasRejected | WasExpired | Value(json: Text)

  /** What the model is told went wrong: the fixed wordings, or what a row says. */
  datatype Note = Unfinished | WasDeclined | RanOut | Said(text: Text)

  datatype ToolResult = ToolResult(id: Text, name: Text, output: Output, denied: bool, error: Option<Note>)

  datatype Message = Message(role: Role, content: Text, calls: seq<Call>, results: seq<ToolResult>)

  // ----- Blank messages -----

  /** Says nothing to the model: blank text, no call, no result. */
  predicate IsBlankAssistant(m: Message) {
    m.role == Assistant && IsBlank(m.content) && m.calls == [] && m.results == []
  }

  function Speaks(): Message -> bool {
    (m: Message) => !IsBlankAssistant(m)
  }

  function WithoutBlank(messages: seq<Message>): seq<Message> {
    Filter(messages, Speaks())
  }

  // ----- Calls nobody answered -----

  datatype CallStatus = Executed | AutoExecuted | Failed | Rejected | Expired | Unsettled

  /** What a store knows of a call whose message holds no result for it. */
  datatype Known = Known(status: CallStatus, output: Option<Text>, error: Option<Text>)

  function ResultFor(call: Call, known: Option<Known>): (r: ToolResult)
    ensures r.id == call.id && r.name == call.name
  {
    var none := ToolResult(call.id, call.name, Null, false, Some(Unfinished));
    if known.None? then none
    else
      match known.value.status
      case Executed => ToolResult(call.id, call.name, OrNull(known.value.output), false, None)
      case AutoExecuted => ToolResult(call.id, call.name, OrNull(known.value.output), false, None)
      case Failed =>
        none.(error := Some(if known.value.error.Some? then Said(known.value.error.value) else Unfinished))
      case Rejected => ToolResult(call.id, call.name, WasRejected, true, Some(WasDeclined))
      case Expired => ToolResult(call.id, call.name, WasExpired, true, Some(RanOut))
      case Unsettled => none
  }

  function OrNull(output: Option<Text>): Output {
    if output.Some? then Value(output.value) else Null
  }

  predicate IsAnswered(results: seq<ToolResult>, id: Text) {
    exists i :: 0 <= i < |results| && results[i].id == id
  }

  function Unanswered(results: seq<ToolResult>): Call -> bool {
    (c: Call) => !IsAnswered(results, c.id)
  }

  function Missing(calls: seq<Call>, results: seq<ToolResult>): seq<Call> {
    Filter(calls, Unanswered(results))
  }

  lemma MissingMore(calls: seq<Call>, c: Call, results: seq<ToolResult>)
    ensures Missing(calls + [c], results)
            == Missing(calls, results) + (if IsAnswered(results, c.id) then [] else [c])
  {
    FilterMore(calls, c, Unanswered(results));
  }

  function ResultsFor(calls: seq<Call>, known: Text -> Option<Known>): (r: seq<ToolResult>)
    ensures |r| == |calls| && forall i :: 0 <= i < |r| ==> r[i] == ResultFor(calls[i], known(calls[i].id))
  {
    seq(|calls|, i requires 0 <= i < |calls| => ResultFor(calls[i], known(calls[i].id)))
  }

  /** The message with a result for every call: those it had, then the missing ones. */
  function Settled(m: Message, known: Text -> Option<Known>): Message {
    if m.role != Assistant || m.calls == [] || Missing(m.calls, m.results) == [] then m
    else m.(results := m.results + ResultsFor(Missing(m.calls, m.results), known))
  }

  function SettleAll(messages: seq<Message>, known: Text -> Option<Known>): (r: seq<Message>)
    ensures |r| == |messages| && forall i :: 0 <= i < |r| ==> r[i] == Settled(messages[i], known)
  {
    seq(|messages|, i requires 0 <= i < |messages| => Settled(messages[i], known))
  }

  function DanglingIn(m: Message): seq<Call> {
    if m.role != Assistant then [] else Missing(m.calls, m.results)
  }

  function Ids(calls: seq<Call>): (ids: seq<Text>)
    ensures |ids| == |calls|
  {
    seq(|calls|, i requires 0 <= i < |calls| => calls[i].id)
  }

  /** The ids of every call its own message holds no result for. */
  function Dangling(messages: seq<Message>): seq<Text> {
    if messages == [] then []
    else Dangling(messages[..|messages| - 1]) + Ids(DanglingIn(messages[|messages| - 1]))
  }

  method DanglingToolCallIds(messages: seq<Message>) returns (ids: seq<Text>)
    ensures ids == Dangling(messages)
  {
    ids := [];
    assert messages[..0] == [];
    for i := 0 to |messages|
      invariant ids == Dangling(messages[..i])
    {
      var m := messages[i];
      assert messages[..i + 1] == messages[..i] + [m];
      var here := MissingIds(m);
      ids := ids + here;
    }
    assert messages[..|messages|] == messages;
  }

  /** The ids of one message's unanswered calls. */
  method MissingIds(m: Message) returns (ids: seq<Text>)
    ensures ids == Ids(DanglingIn(m))
  {
    ids := [];
    if m.role != Assistant || m.calls == [] {
      return;
    }
    for i := 0 to |m.calls|
      invariant ids == Ids(Missing(m.calls[..i], m.results))
    {
      MissingMore(m.calls[..i], m.calls[i], m.results);
      assert m.calls[..i + 1] == m.calls[..i] + [m.calls[i]];
      if !IsAnswered(m.results, m.calls[i].id) {
        ids := ids + [m.calls[i].id];
      }
    }
    assert m.calls[..|m.calls|] == m.calls;
  }

  /** Every call of an assistant message has a result. */
  predicate AllAnswered(m: Message) {
    m.role == Assistant ==> forall i :: 0 <= i < |m.calls| ==> IsAnswered(m.results, m.calls[i].id)
  }

  lemma MissingNone(m: Message)
    requires m.role == Assistant
    ensures AllAnswered(m) <==> Missing(m.calls, m.results) == []
  {
    var missing := Missing(m.calls, m.results);
    if missing == [] {
      forall i | 0 <= i < |m.calls| ensures IsAnswered(m.results, m.calls[i].id) {
        assert m.calls[i] !in missing;
      }
    }
    if AllAnswered(m) && missing != [] {
      MissingHead(m.calls, m.results);
    }
  }

  lemma MissingHead(calls: seq<Call>, results: seq<ToolResult>)
    requires Missing(calls, results) != []
    ensures exists i :: 0 <= i < |calls| && !IsAnswered(results, calls[i].id)
  {
    var c := Missing(calls, results)[0];
    assert c in Missing(calls, results);
    var i :| 0 <= i < |calls| && calls[i] == c;
    assert !IsAnswered(results, calls[i].id);
  }

  lemma AnsweredStays(results: seq<ToolResult>, more: seq<ToolResult>, id: Text)
    requires IsAnswered(results, id) || IsAnswered(more, id)
    ensures IsAnswered(results + more, id)
  {
    if IsAnswered(results, id) {
      var i :| 0 <= i < |results| && results[i].id == id;
      assert (results + more)[i].id == id;
    } else {
      var i :| 0 <= i < |more| && more[i].id == id;
      assert (results + more)[|results| + i].id == id;
    }
  }

  /** Settling answers every call, and keeps what was answered before, first. */
  lemma SettledAnswers(m: Message, known: Text -> Option<Known>)
    ensures AllAnswered(Settled(m, known))
    ensures m.results <= Settled(m, known).results
    ensures Settled(m, known).(results := m.results) == m
  {
    var missing := Missing(m.calls, m.results);
    var more := ResultsFor(missing, known);
    if m.role == Assistant {
      MissingNone(m);
      if missing != [] {
        forall i | 0 <= i < |m.calls| ensures IsAnswered(m.results + more, m.calls[i].id) {
          if !IsAnswered(m.results, m.calls[i].id) {
            assert m.calls[i] in missing;
            var k :| 0 <= k < |missing| && missing[k] == m.calls[i];
            assert more[k].id == m.calls[i].id;
          }
          AnsweredStays(m.results, more, m.calls[i].id);
        }
      }
    }
  }

  lemma AnsweredIsSettled(m: Message, known: Text -> Option<Known>)
    requires AllAnswered(m)
    ensures Settled(m, known) == m
  {
    if m.role == Assistant {
      MissingNone(m);
    }
  }

  /** Settling again, whatever is known by then, changes nothing. */
  lemma SettleTwice(messages: seq<Message>, known: Text -> Option<Known>, later: Text -> Option<Known>)
    ensures SettleAll(SettleAll(messages, known), later) == SettleAll(messages, known)
  {
    var once := SettleAll(messages, known);
    forall i | 0 <= i < |messages| ensures SettleAll(once, later)[i] == once[i] {
      SettledAnswers(messages[i], known);
      AnsweredIsSettled(once[i], later);
    }
  }

  // ----- The window -----

  datatype Window = Window(maxMessages: Option<int>, maxTokens: Option<int>, estimate: Message -> int)

  /** Walks back from `index` while the newest messages fit; the very newest always does. */
  function TokenCutFrom(messages: seq<Message>, maxTokens: int, estimate: Message -> int,
                        index: nat, total: int): (cut: nat)
    requires index <= |messages|
    ensures cut <= index
  {
    if index == 0 then 0
    else
      var cost := estimate(messages[index - 1]);
      if index < |messages| && total + cost > maxTokens then index
      else TokenCutFrom(messages, maxTokens, estimate, index - 1, total + cost)
  }

  function TokenCut(messages: seq<Message>, maxTokens: int, estimate: Message -> int): nat {
    TokenCutFrom(messages, maxTokens, estimate, |messages|, 0)
  }

  method FindTokenCut(messages: seq<Message>, maxTokens: int, estimate: Message -> int) returns (index: nat)
    ensures index == TokenCut(messages, maxTokens, estimate)
  {
    index := |messages|;
    var total := 0;
    while index > 0
      invariant index <= |messages|
      invariant TokenCut(messages, maxTokens, estimate)
                == TokenCutFrom(messages, maxTokens, estimate, index, total)
    {
      var cost := estimate(messages[index - 1]);
      if index < |messages| && total + cost > maxTokens {
        break;
      }
      total := total + cost;
      index := index - 1;
    }
  }

  function CutOf(w: Window, messages: seq<Message>): (cut: nat)
    ensures cut <= |messages|
    ensures messages != [] ==> cut < |messages|
  {
    var byCount := if w.maxMessages.Some? then Max(0, |messages| - w.maxMessages.value) else 0;
    var byTokens := if w.maxTokens.Some? then TokenCut(messages, w.maxTokens.value, w.estimate) else 0;
    Min(Max(byCount, byTokens), Max(0, |messages| - 1))
  }

  function Select(w: Window, messages: seq<Message>): seq<Message> {
    messages[CutOf(w, messages)..]
  }

  function Total(messages: seq<Message>, estimate: Message -> int): int {
    if messages == [] then 0 else estimate(messages[0]) + Total(messages[1..], estimate)
  }

  /** Within both limits. */
  predicate Meets(w: Window, messages: seq<Message>) {
    && (w.maxMessages.Some? ==> |messages| <= w.maxMessages.value)
    && (w.maxTokens.Some? ==> Total(messages, w.estimate) <= w.maxTokens.value)
  }

  // ----- The window keeps as much as fits -----

  /** What the walk decided: everything it took but the newest fits. */
  lemma {:induction false} TokenCutFits(messages: seq<Message>, max: int, estimate: Message -> int,
                                        index: nat, total: int, k: nat)
    requires index <= |messages| && total == Total(messages[index..], estimate)
    requires TokenCutFrom(messages, max, estimate, index, total) <= k < index && k < |messages| - 1
    ensures Total(messages[k..], estimate) <= max
    decreases index
  {
    if k < index - 1 {
      TokenCutFits(messages, max, estimate, index - 1, total + estimate(messages[index - 1]), k);
    }
  }

  /** And one more would not have fitted. */
  lemma {:induction false} TokenCutStops(messages: seq<Message>, max: int, estimate: Message -> int,
                                         index: nat, total: int)
    requires index <= |messages| && total == Total(messages[index..], estimate)
    requires TokenCutFrom(messages, max, estimate, index, total) > 0
    ensures var cut := TokenCutFrom(messages, max, estimate, index, total);
            cut < |messages| && Total(messages[cut - 1..], estimate) > max
    decreases index
  {
    var cost := estimate(messages[index - 1]);
    if !(index < |messages| && total + cost > max) {
      TokenCutStops(messages, max, estimate, index - 1, total + cost);
    }
  }

  lemma {:induction false} LongerCostsMore(messages: seq<Message>, i: nat, j: nat, estimate: Message -> int)
    requires i <= j <= |messages| && forall m :: estimate(m) >= 0
    ensures Total(messages[i..], estimate) >= Total(messages[j..], estimate)
    decreases j - i
  {
    if i < j {
      LongerCostsMore(messages, i + 1, j, estimate);
    }
  }

  /**
   * With estimates that are never negative: the window keeps the longest suffix within both limits,
   * or, when not even the newest message fits, that message alone.
   */
  lemma KeepsLongestThatFits(w: Window, messages: seq<Message>)
    requires messages != [] && forall m :: w.estimate(m) >= 0
    ensures var cut := CutOf(w, messages);
            && (Meets(w, messages[cut..]) || cut == |messages| - 1)
            && (forall k :: 0 <= k < cut ==> !Meets(w, messages[k..]))
  {
    var cut := CutOf(w, messages);
    if w.maxTokens.Some? {
      var max := w.maxTokens.value;
      var byTokens := TokenCut(messages, max, w.estimate);
      assert messages[|messages|..] == [];
      forall k | 0 <= k < byTokens ensures Total(messages[k..], w.estimate) > max {
        TokenCutStops(messages, max, w.estimate, |messages|, 0);
        LongerCostsMore(messages, k, byTokens - 1, w.estimate);
      }
      if cut < |messages| - 1 {
        TokenCutFits(messages, max, w.estimate, |messages|, 0, cut);
      }
    }
  }

  // ----- Reading only the newest rows -----

  predicate IsSuffix(s: seq<Message>, t: seq<Message>) {
    |s| <= |t| && t[|t| - |s|..] == s
  }

  /** The whole has something in front of it, or nothing. */
  lemma SuffixSays(s: seq<Message>, t: seq<Message>)
    ensures IsSuffix(s, t) <==> exists front: seq<Message> :: t == front + s
  {
    if IsSuffix(s, t) {
      assert t == t[..|t| - |s|] + s;
    }
  }

  /** Older messages move a cut no further than they are many. */
  lemma {:induction false} TokenCutShifts(a: seq<Message>, b: seq<Message>, max: int, estimate: Message -> int,
                                          index: nat, total: int)
    requires index <= |b|
    ensures var whole := TokenCutFrom(a + b, max, estimate, |a| + index, total);
            var newest := TokenCutFrom(b, max, estimate, index, total);
            if newest > 0 then whole == |a| + newest else whole <= |a|
    decreases index
  {
    if index > 0 {
      assert (a + b)[|a| + index - 1] == b[index - 1];
      var cost := estimate(b[index - 1]);
      if !(index < |b| && total + cost > max) {
        TokenCutShifts(a, b, max, estimate, index - 1, total + cost);
      }
    }
  }

  lemma CutShifts(w: Window, a: seq<Message>, b: seq<Message>)
    requires b != []
    ensures CutOf(w, a + b) <= |a| + CutOf(w, b)
    ensures w.maxMessages.Some? && 1 <= w.maxMessages.value <= |b| ==> CutOf(w, a + b) == |a| + CutOf(w, b)
  {
    if w.maxTokens.Some? {
      TokenCutShifts(a, b, w.maxTokens.value, w.estimate, |b|, 0);
    }
  }

  lemma SelectShifts(w: Window, a: seq<Message>, b: seq<Message>)
    ensures IsSuffix(Select(w, b), Select(w, a + b))
    ensures w.maxMessages.Some? && 1 <= w.maxMessages.value <= |b| ==> Select(w, b) == Select(w, a + b)
    ensures a == [] ==> Select(w, b) == Select(w, a + b)
  {
    if a == [] {
      assert a + b == b;
    }
    if b != [] {
      CutShifts(w, a, b);
      var cut, whole := CutOf(w, b), CutOf(w, a + b);
      assert (a + b)[|a| + cut..] == b[cut..];
      assert (a + b)[whole..][|a| + cut - whole..] == (a + b)[|a| + cut..];
    }
  }

  lemma SettleAllSplits(a: seq<Message>, b: seq<Message>, known: Text -> Option<Known>)
    ensures SettleAll(a + b, known) == SettleAll(a, known) + SettleAll(b, known)
  {
  }

  /** What a turn loads: the stored rows, cleaned, settled and windowed. */
  function Loaded(w: Window, known: Text -> Option<Known>, stored: seq<Message>): seq<Message> {
    Select(w, SettleAll(WithoutBlank(stored), known))
  }

  /** The thread's newest `n` rows. */
  function Newest(stored: seq<Message>, n: nat): seq<Message> {
    stored[Max(0, |stored| - n)..]
  }

  /**
   * Reading only as many of the newest rows as the window may keep yields a suffix of what reading
   * the whole transcript does, and all of it when none of those rows is a blank assistant message.
   */
  lemma BoundedReadIsSuffix(w: Window, known: Text -> Option<Known>, stored: seq<Message>, n: nat)
    requires w.maxMessages == Some(n) && n >= 1
    ensures var bounded := Loaded(w, known, Newest(stored, n));
            && IsSuffix(bounded, Loaded(w, known, stored))
            && ((forall m :: m in Newest(stored, n) ==> !IsBlankAssistant(m)) ==>
                  bounded == Loaded(w, known, stored))
  {
    var earlier, newest := stored[..Max(0, |stored| - n)], Newest(stored, n);
    assert stored == earlier + newest;
    FilterSplits(earlier, newest, Speaks());
    SettleAllSplits(WithoutBlank(earlier), WithoutBlank(newest), known);
    var a, b := SettleAll(WithoutBlank(earlier), known), SettleAll(WithoutBlank(newest), known);
    SelectShifts(w, a, b);
    if forall m :: m in newest ==> !IsBlankAssistant(m) {
      FilterAll(newest, Speaks());
    }
  }

  // ----- When the bounded read is the whole read -----

  lemma {:induction false} FilterKeepsAll(s: seq<Message>, keep: Message -> bool)
    ensures |Filter(s, keep)| == |s| <==> forall m :: m in s ==> keep(m)
    ensures Filter(s, keep) == [] <==> forall m :: m in s ==> !keep(m)
  {
    if s != [] {
      FilterKeepsAll(s[1..], keep);
      assert s == [s[0]] + s[1..];
    }
  }

  /** The token limit leaves no room for anything older than `b`, and `b` is not empty. */
  predicate TokensStopShort(w: Window, a: seq<Message>, b: seq<Message>) {
    b != [] && w.maxTokens.Some? && TokenCut(a + b, w.maxTokens.value, w.estimate) >= |a|
  }

  lemma SelectShiftsExactly(w: Window, a: seq<Message>, b: seq<Message>, n: nat)
    requires w.maxMessages == Some(n) && n >= 1 && |b| <= n
    ensures Select(w, b) == Select(w, a + b) <==> a == [] || |b| == n || TokensStopShort(w, a, b)
  {
    SelectShifts(w, a, b);
    if a != [] && b != [] {
      CutShifts(w, a, b);
      if w.maxTokens.Some? {
        TokenCutShifts(a, b, w.maxTokens.value, w.estimate, |b|, 0);
      }
    }
  }

  /** What of a transcript lies before its newest `n` rows. */
  function Earlier(stored: seq<Message>, n: nat): seq<Message> {
    stored[..Max(0, |stored| - n)]
  }

  function Cleaned(known: Text -> Option<Known>, rows: seq<Message>): seq<Message> {
    SettleAll(WithoutBlank(rows), known)
  }

  lemma CleanedSizes(known: Text -> Option<Known>, rows: seq<Message>)
    ensures |Cleaned(known, rows)| == |rows| <==> forall m :: m in rows ==> !IsBlankAssistant(m)
    ensures Cleaned(known, rows) == [] <==> forall m :: m in rows ==> IsBlankAssistant(m)
    ensures |Cleaned(known, rows)| <= |rows|
  {
    FilterKeepsAll(rows, Speaks());
    assert |Cleaned(known, rows)| == |WithoutBlank(rows)|;
  }

  /**
   * Exactly when reading only the newest rows loses nothing: none of them is a blank assistant
   * message, or every older one is, or the token limit would have dropped the older ones anyway.
   */
  lemma BoundedReadIsWhole(w: Window, known: Text -> Option<Known>, stored: seq<Message>, n: nat)
    requires w.maxMessages == Some(n) && n >= 1
    ensures Loaded(w, known, Newest(stored, n)) == Loaded(w, known, stored)
            <==> || (forall m :: m in Newest(stored, n) ==> !IsBlankAssistant(m))
                 || (forall m :: m in Earlier(stored, n) ==> IsBlankAssistant(m))
                 || TokensStopShort(w, Cleaned(known, Earlier(stored, n)), Cleaned(known, Newest(stored, n)))
  {
    var earlier, newest := Earlier(stored, n), Newest(stored, n);
    var a, b := Cleaned(known, earlier), Cleaned(known, newest);
    assert stored == earlier + newest;
    FilterSplits(earlier, newest, Speaks());
    SettleAllSplits(WithoutBlank(earlier), WithoutBlank(newest), known);
    CleanedSizes(known, earlier);
    CleanedSizes(known, newest);
    SelectShiftsExactly(w, a, b, n);
    if |newest| < n {
      assert earlier == [];
    }
  }

  // ----- What the model is sent -----

  /** A provider's message: an assistant message has text, calls, or both. */
  datatype Sent =
    | SentSystem(content: Text)
    | SentUser(content: Text)
    | SentAssistant(text: Option<Text>, calls: seq<Call>)
    | SentTool(results: seq<ToolResult>)

  /** An assistant message with results becomes two: the message, then a tool message. */
  function Expand(m: Message): seq<Sent> {
    match m.role
    case System => [SentSystem(m.content)]
    case User => [SentUser(m.content)]
    case Assistant =>
      var hasText := !IsBlank(m.content);
      if !hasText && m.calls == [] && m.results == [] then []
      else
        (if m.calls != [] then [SentAssistant(if hasText then Some(m.content) else None, m.calls)]
         else if hasText then [SentAssistant(Some(m.content), [])]
         else [])
        + (if m.results != [] then [SentTool(m.results)] else [])
  }

  function Mapped(messages: seq<Message>): seq<Sent> {
    if messages == [] then []
    else Mapped(messages[..|messages| - 1]) + Expand(messages[|messages| - 1])
  }

  method MapMessages(messages: seq<Message>) returns (out: seq<Sent>)
    ensures out == Mapped(messages)
  {
    out := [];
    assert messages[..0] == [];
    for i := 0 to |messages|
      invariant out == Mapped(messages[..i])
    {
      var m := messages[i];
      assert messages[..i + 1][..i] == messages[..i];
      if m.role == System {
        out := out + [SentSystem(m.content)];
      } else if m.role == User {
        out := out + [SentUser(m.content)];
      } else {
        var hasText := !IsBlank(m.content);
        var before := out;
        if hasText || m.calls != [] || m.results != [] {
          if m.calls != [] {
            out := out + [SentAssistant(if hasText then Some(m.content) else None, m.calls)];
          } else if hasText {
            out := out + [SentAssistant(Some(m.content), [])];
          }
          if m.results != [] {
            out := out + [SentTool(m.results)];
          }
        }
        assert out == before + Expand(m);
      }
    }
    assert messages[..|messages|] == messages;
  }

  /** The call at `i` is answered by the tool message right after it. */
  predicate AnsweredNext(out: seq<Sent>, i: nat)
    requires i < |out| && out[i].SentAssistant?
  {
    && i + 1 < |out|
    && out[i + 1].SentTool?
    && forall k :: 0 <= k < |out[i].calls| ==> IsAnswered(out[i + 1].results, out[i].calls[k].id)
  }

  /** What a provider accepts: no blank text, and every call answered by the very next message. */
  ghost predicate WellFormedPrompt(out: seq<Sent>) {
    && (forall i :: 0 <= i < |out| && out[i].SentAssistant? && out[i].text.Some? ==> !IsBlank(out[i].text.value))
    && (forall i :: 0 <= i < |out| && out[i].SentAssistant? && out[i].calls != [] ==> AnsweredNext(out, i))
    && (forall i :: 0 <= i < |out| && out[i].SentAssistant? ==> out[i].text.Some? || out[i].calls != [])
  }

  lemma ExpandWellFormed(m: Message)
    requires AllAnswered(m)
    ensures WellFormedPrompt(Expand(m))
  {
    if m.role == Assistant && m.calls != [] {
      assert IsAnswered(m.results, m.calls[0].id);
      assert m.results != [];
    }
  }

  lemma {:induction false} MappedWellFormed(messages: seq<Message>)
    requires forall i :: 0 <= i < |messages| ==> AllAnswered(messages[i])
    ensures WellFormedPrompt(Mapped(messages))
  {
    if messages != [] {
      var front, last := messages[..|messages| - 1], messages[|messages| - 1];
      MappedWellFormed(front);
      ExpandWellFormed(last);
    }
  }

  function Nothing(): Text -> Option<Known> {
    (id: Text) => None
  }

  /** What leaves the journal is cleaned and settled once more, in case it was recorded before that was done. */
  function Resumed(messages: seq<Message>): seq<Message> {
    SettleAll(WithoutBlank(messages), Nothing())
  }

  lemma LoadedAnswers(w: Window, known: Text -> Option<Known>, stored: seq<Message>, i: nat)
    requires i < |Loaded(w, known, stored)|
    ensures AllAnswered(Loaded(w, known, stored)[i]) && !IsBlankAssistant(Loaded(w, known, stored)[i])
  {
    var clean := WithoutBlank(stored);
    var settled := SettleAll(clean, known);
    var k := CutOf(w, settled) + i;
    assert Loaded(w, known, stored)[i] == Settled(clean[k], known);
    SettledAnswers(clean[k], known);
    assert clean[k] in clean;
    assert !IsBlankAssistant(clean[k]);
  }

  /** On a payload that is already whole, that changes nothing. */
  lemma ResumingIsHarmless(w: Window, known: Text -> Option<Known>, stored: seq<Message>)
    ensures Resumed(Loaded(w, known, stored)) == Loaded(w, known, stored)
  {
    var loaded := Loaded(w, known, stored);
    forall m | m in loaded ensures Speaks()(m) {
      var i :| 0 <= i < |loaded| && loaded[i] == m;
      LoadedAnswers(w, known, stored, i);
    }
    FilterAll(loaded, Speaks());
    forall i | 0 <= i < |loaded| ensures Settled(loaded[i], Nothing()) == loaded[i] {
      LoadedAnswers(w, known, stored, i);
      AnsweredIsSettled(loaded[i], Nothing());
    }
  }

  /** Whatever the journal held, the messages it is resumed with are all answered. */
  lemma ResumedAnswers(messages: seq<Message>, i: nat)
    requires i < |Resumed(messages)|
    ensures AllAnswered(Resumed(messages)[i])
  {
    SettledAnswers(WithoutBlank(messages)[i], Nothing());
  }

  /**
   * For every stored transcript, window and set of known outcomes, the prompt a model is sent has no
   * blank assistant text, and every assistant message with calls is followed right away by a tool
   * message answering each of them.
   */
  lemma PromptWellFormed(w: Window, known: Text -> Option<Known>, stored: seq<Message>)
    ensures WellFormedPrompt(Mapped(Resumed(Loaded(w, known, stored))))
  {
    var messages := Resumed(Loaded(w, known, stored));
    forall i | 0 <= i < |messages| ensures AllAnswered(messages[i]) {
      ResumedAnswers(Loaded(w, known, stored), i);
    }
    MappedWellFormed(messages);
  }

  /** Nothing dangles exactly when every call is answered, and nothing does once settled. */
  lemma {:induction false} NothingDangles(messages: seq<Message>)
    ensures Dangling(messages) == [] <==> forall i :: 0 <= i < |messages| ==> AllAnswered(messages[i])
  {
    if messages != [] {
      var front, last := messages[..|messages| - 1], messages[|messages| - 1];
      NothingDangles(front);
      NothingDanglesIn(last);
      assert messages == front + [last];
      assert forall i :: 0 <= i < |front| ==> front[i] == messages[i];
    }
  }

  lemma NothingDanglesIn(m: Message)
    ensures Ids(DanglingIn(m)) == [] <==> AllAnswered(m)
  {
    if m.role == Assistant {
      MissingNone(m);
    }
  }
}
