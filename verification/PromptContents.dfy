/**
 * What a prompt holds of a thread, told from its messages: nothing is lost, added or moved but blank
 * assistant messages and the results of calls nobody answered.
 */
module PromptContents {
  import opened Common
  import opened JsText
  import opened Sorting
  import opened History

  // ----- Piece by piece -----

  /** The least a prompt is made of. */
  datatype Piece =
    | FromSystem(text: Text)
    | FromUser(text: Text)
    | FromAssistant(text: Text)
    | OfCall(call: Call)
    | OfResult(result: ToolResult)

  function CallPieces(calls: seq<Call>): (pieces: seq<Piece>) {
    seq(|calls|, i requires 0 <= i < |calls| => OfCall(calls[i]))
  }

  function ResultPieces(results: seq<ToolResult>): (pieces: seq<Piece>) {
    seq(|results|, i requires 0 <= i < |results| => OfResult(results[i]))
  }

  predicate SaysSomething(text: Text) {
    exists i :: 0 <= i < |text| && !IsSpace(text[i])
  }

  /** A message's text, then its calls, then their results; blank assistant text is no piece. */
  function PiecesIn(m: Message): (pieces: seq<Piece>) {
    match m.role
    case System => [FromSystem(m.content)]
    case User => [FromUser(m.content)]
    case Assistant =>
      if SaysSomething(m.content) then
        [FromAssistant(m.content)] + (CallPieces(m.calls) + ResultPieces(m.results))
      else CallPieces(m.calls) + ResultPieces(m.results)
  }

  function AllPieces(messages: seq<Message>): (pieces: seq<Piece>) {
    if messages == [] then [] else PiecesIn(messages[0]) + AllPieces(messages[1..])
  }

  function PiecesSent(sent: Sent): (pieces: seq<Piece>) {
    match sent
    case SentSystem(text) => [FromSystem(text)]
    case SentUser(text) => [FromUser(text)]
    case SentAssistant(Some(text), calls) => [FromAssistant(text)] + CallPieces(calls)
    case SentAssistant(None, calls) => CallPieces(calls)
    case SentTool(results) => ResultPieces(results)
  }

  function AllPiecesSent(prompt: seq<Sent>): (pieces: seq<Piece>) {
    if prompt == [] then [] else PiecesSent(prompt[0]) + AllPiecesSent(prompt[1..])
  }

  lemma {:induction false} AllPiecesSentJoin(a: seq<Sent>, b: seq<Sent>)
    ensures AllPiecesSent(a + b) == AllPiecesSent(a) + AllPiecesSent(b)
  {
    if a == [] {
      assert [] + b == b;
    } else {
      assert (a + b)[1..] == a[1..] + b;
      AllPiecesSentJoin(a[1..], b);
    }
  }

  lemma {:induction false} AllPiecesJoin(a: seq<Message>, b: seq<Message>)
    ensures AllPieces(a + b) == AllPieces(a) + AllPieces(b)
  {
    if a == [] {
      assert [] + b == b;
    } else {
      assert (a + b)[1..] == a[1..] + b;
      AllPiecesJoin(a[1..], b);
    }
  }

  lemma OneSent(sent: Sent)
    ensures AllPiecesSent([sent]) == PiecesSent(sent)
  {
    assert [sent][1..] == [];
  }

  lemma ExpandKeepsPieces(m: Message)
    ensures AllPiecesSent(Expand(m)) == PiecesIn(m)
  {
    if m.role != Assistant {
      OneSent(Expand(m)[0]);
    } else {
      var said := if SaysSomething(m.content) then Some(m.content) else None;
      ExpandSays(m);
      var first := if said == None && m.calls == [] then [] else [SentAssistant(said, m.calls)];
      var answers := if |m.results| > 0 then [SentTool(m.results)] else [];
      assert Expand(m) == first + answers;
      AllPiecesSentJoin(first, answers);
      SpokenPieces(said, m.calls);
      AnswerPieces(m.results);
      var spoken := if said.Some? then [FromAssistant(said.value)] else [];
      RegroupPieces(spoken, CallPieces(m.calls), ResultPieces(m.results));
    }
  }

  lemma RegroupPieces(a: seq<Piece>, b: seq<Piece>, c: seq<Piece>)
    ensures (a + b) + c == a + (b + c) && ([] + b) + c == b + c
  {
  }

  lemma SpokenPieces(said: Option<Text>, calls: seq<Call>)
    ensures AllPiecesSent(if said == None && calls == [] then [] else [SentAssistant(said, calls)])
            == (if said.Some? then [FromAssistant(said.value)] else []) + CallPieces(calls)
  {
    OneSent(SentAssistant(said, calls));
  }

  lemma AnswerPieces(results: seq<ToolResult>)
    ensures AllPiecesSent(if |results| > 0 then [SentTool(results)] else []) == ResultPieces(results)
  {
    OneSent(SentTool(results));
  }

  /**
   * The prompt's pieces are exactly the messages' pieces, in order: every system and user message's
   * content, every assistant text that is not blank, every call and every result.
   */
  lemma {:induction false} PromptKeepsPieces(messages: seq<Message>)
    ensures AllPiecesSent(Mapped(messages)) == AllPieces(messages)
  {
    if messages == [] {
      NothingKept(messages);
    } else {
      var front, last := messages[..|messages| - 1], messages[|messages| - 1];
      FrontAndLast(messages);
      PromptKeepsPieces(front);
      OneMoreKept(front, last, messages);
    }
  }

  lemma FrontAndLast(messages: seq<Message>)
    requires messages != []
    ensures messages == messages[..|messages| - 1] + [messages[|messages| - 1]]
  {
  }

  lemma NothingKept(messages: seq<Message>)
    requires messages == []
    ensures AllPiecesSent(Mapped(messages)) == AllPieces(messages)
  {
  }

  lemma OneMoreKept(front: seq<Message>, last: Message, messages: seq<Message>)
    requires messages == front + [last] && AllPiecesSent(Mapped(front)) == AllPieces(front)
    ensures AllPiecesSent(Mapped(messages)) == AllPieces(messages)
  {
    MappedJoins(front, last);
    ExpandKeepsPieces(last);
    AllPiecesSentJoin(Mapped(front), Expand(last));
    AllPiecesMore(front, last);
  }

  lemma AllPiecesMore(messages: seq<Message>, m: Message)
    ensures AllPieces(messages + [m]) == AllPieces(messages) + PiecesIn(m)
  {
    AllPiecesJoin(messages, [m]);
    assert [m][1..] == [] && PiecesIn(m) + [] == PiecesIn(m);
  }

  /**
   * How a message's pieces are put together: a system or user message stands alone, an assistant
   * message is followed by its results if it has any, and nothing empty is sent.
   */
  lemma ExpandSays(m: Message)
    ensures var spoken := if SaysSomething(m.content) then Some(m.content) else None;
            var answers := if |m.results| > 0 then [SentTool(m.results)] else [];
            match m.role
            case System => Expand(m) == [SentSystem(m.content)]
            case User => Expand(m) == [SentUser(m.content)]
            case Assistant =>
              if spoken == None && |m.calls| == 0 then Expand(m) == answers
              else Expand(m) == [SentAssistant(spoken, m.calls)] + answers
  {
  }

  lemma {:induction false} MappedJoins(messages: seq<Message>, m: Message)
    ensures Mapped([]) == []
    ensures Mapped(messages + [m]) == Mapped(messages) + Expand(m)
  {
    assert (messages + [m])[..|messages|] == messages;
  }

  // ----- What is left out -----

  /** Only assistant messages that say nothing, call nothing and answer nothing are left out. */
  lemma {:induction false} LeavesOutBlank(messages: seq<Message>, m: Message)
    ensures WithoutBlank([]) == []
    ensures var leftOut := m.role == Assistant && !SaysSomething(m.content) && |m.calls| == 0 && |m.results| == 0;
            WithoutBlank(messages + [m]) == WithoutBlank(messages) + if leftOut then [] else [m]
  {
    FilterMore(messages, m, Speaks());
  }

  // ----- What is added -----

  /** What a call nobody answered is told to have come to, given what a store knows of it. */
  function Explained(call: Call, known: Option<Known>): (r: ToolResult) {
    match known
    case None => ToolResult(call.id, call.name, Null, false, Some(Unfinished))
    case Some(Known(Unsettled, _, _)) => ToolResult(call.id, call.name, Null, false, Some(Unfinished))
    case Some(Known(Rejected, _, _)) => ToolResult(call.id, call.name, WasRejected, true, Some(WasDeclined))
    case Some(Known(Expired, _, _)) => ToolResult(call.id, call.name, WasExpired, true, Some(RanOut))
    case Some(Known(Failed, _, Some(text))) => ToolResult(call.id, call.name, Null, false, Some(Said(text)))
    case Some(Known(Failed, _, None)) => ToolResult(call.id, call.name, Null, false, Some(Unfinished))
    case Some(Known(_, Some(json), _)) => ToolResult(call.id, call.name, Value(json), false, None)
    case Some(Known(_, None, _)) => ToolResult(call.id, call.name, Null, false, None)
  }

  lemma ResultSays(call: Call, known: Option<Known>)
    ensures ResultFor(call, known) == Explained(call, known)
  {
  }

  predicate HasResult(results: seq<ToolResult>, id: Text) {
    exists i :: 0 <= i < |results| && results[i].id == id
  }

  /** The calls without a result, in call order. */
  function Open(calls: seq<Call>, results: seq<ToolResult>): (open: seq<Call>) {
    if calls == [] then []
    else if HasResult(results, calls[0].id) then Open(calls[1..], results)
    else [calls[0]] + Open(calls[1..], results)
  }

  lemma {:induction false} MissingIsOpen(calls: seq<Call>, results: seq<ToolResult>)
    ensures Missing(calls, results) == Open(calls, results)
  {
    if calls != [] {
      MissingIsOpen(calls[1..], results);
      assert IsAnswered(results, calls[0].id) <==> HasResult(results, calls[0].id);
      assert Filter(calls, Unanswered(results))
             == (if Unanswered(results)(calls[0]) then [calls[0]] else [])
                + Filter(calls[1..], Unanswered(results));
    }
  }

  /** Settling adds, behind an assistant's own results, one for each call without, in call order. */
  lemma SettlingAdds(m: Message, known: Text -> Option<Known>)
    ensures var open := if m.role == Assistant then Open(m.calls, m.results) else [];
            Settled(m, known)
            == m.(results := m.results
                             + seq(|open|, i requires 0 <= i < |open| => Explained(open[i], known(open[i].id))))
  {
    MissingIsOpen(m.calls, m.results);
    var open := if m.role == Assistant then Open(m.calls, m.results) else [];
    if open != [] {
      assert ResultsFor(open, known)
             == seq(|open|, i requires 0 <= i < |open| => Explained(open[i], known(open[i].id)));
    } else {
      assert m.results + [] == m.results;
    }
  }

  /** The ids of an assistant message's calls without a result, in call order. */
  function OpenIdsIn(m: Message): (ids: seq<Text>) {
    var open := if m.role == Assistant then Open(m.calls, m.results) else [];
    seq(|open|, i requires 0 <= i < |open| => open[i].id)
  }

  /** The ids of every call without a result, in the order of the messages and their calls. */
  function OpenIds(messages: seq<Message>): (ids: seq<Text>) {
    if messages == [] then [] else OpenIdsIn(messages[0]) + OpenIds(messages[1..])
  }

  lemma {:induction false} OpenIdsMore(messages: seq<Message>, m: Message)
    ensures OpenIds(messages + [m]) == OpenIds(messages) + OpenIdsIn(m)
  {
    var more := messages + [m];
    if messages == [] {
      assert more[0] == m && more[1..] == [];
      assert OpenIdsIn(m) + [] == [] + OpenIdsIn(m);
    } else {
      assert more[0] == messages[0] && more[1..] == messages[1..] + [m];
      OpenIdsMore(messages[1..], m);
      RegroupIds(OpenIdsIn(messages[0]), OpenIds(messages[1..]), OpenIdsIn(m));
    }
  }

  lemma RegroupIds(a: seq<Text>, b: seq<Text>, c: seq<Text>)
    ensures (a + b) + c == a + (b + c)
  {
  }

  lemma DanglingInIsOpen(m: Message)
    ensures Ids(DanglingIn(m)) == OpenIdsIn(m)
  {
    MissingIsOpen(m.calls, m.results);
  }

  /** What dangles is exactly every assistant call without a result in its own message, in order. */
  lemma {:induction false} DanglingAreOpen(messages: seq<Message>)
    ensures Dangling(messages) == OpenIds(messages)
  {
    if messages != [] {
      var front, last := messages[..|messages| - 1], messages[|messages| - 1];
      DanglingAreOpen(front);
      DanglingInIsOpen(last);
      OpenIdsMore(front, last);
      assert front + [last] == messages;
    }
  }

  // ----- The whole prompt -----

  /**
   * From the stored transcript to the prompt: the newest messages the window keeps, each whole, and
   * beside them only what settling adds.
   */
  lemma PromptHolds(w: Window, known: Text -> Option<Known>, stored: seq<Message>)
    ensures var clean := WithoutBlank(stored);
            var kept := CutOf(w, SettleAll(clean, known));
            && |Loaded(w, known, stored)| == |clean| - kept
            && (forall i :: 0 <= i < |clean| - kept ==>
                  Loaded(w, known, stored)[i] == Settled(clean[kept + i], known))
            && AllPiecesSent(Mapped(Resumed(Loaded(w, known, stored)))) == AllPieces(Loaded(w, known, stored))
  {
    ResumingIsHarmless(w, known, stored);
    PromptKeepsPieces(Loaded(w, known, stored));
  }
}
