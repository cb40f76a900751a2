/**
 * Reading a run's stream, and what it sends to the conversation. A question parks the read; after the
 * answer the stream is read again from its start, and must come to the same messages in the same
 * places, so that the slots of what went out before still match.
 */
module ReadTurn {
  import opened Common
  import opened JsText
  import opened Outbox

  /** One outbound message, as the provider gets it. */
  type Msg = Text

  datatype Component = Component(id: Text, data: Text, fallback: Option<Text>)

  datatype Card = Card(proposalId: Text, toolName: Text, details: Text)

  datatype Frame =
    | TextFrame(text: Text)
    | UiFrame(partial: bool, component: Component)
    | ToolInput(callId: Text, name: Text)
    | ProposalApproval(callId: Text, proposalId: Text, details: Text)
    | BlockingApproval
    | Elicitation(callId: Text, questions: seq<Text>)
    | ErrorFrame
    | OtherFrame

  /**
   * What the channel is: the host's hooks and the adapter's rendering, which are the same each time
   * the stream is read.
   */
  datatype Channel = Channel(
    answers: bool,
    genui: bool,
    render: (Component, nat) -> seq<Text>,
    draw: Component -> seq<Text>,
    reply: Text -> seq<Msg>,
    text: Text -> seq<Msg>,
    native: (Text, nat, Text) -> seq<Msg>,
    ask: (Text, seq<Text>) -> seq<Msg>,
    componentsOnly: seq<Component> -> Option<Text>,
    card: (Card, bool) -> seq<Msg>,
    failedText: Text,
    blockedText: Text)

  /** A piece of the reply in the order the turn produced it: text, or where a component was drawn. */
  datatype Part = Written(text: Text) | Drawn(id: Text)

  datatype Rendered = Rendered(component: Component, replies: seq<Text>)

  datatype Stop = Reading | Parked | Blocked

  datatype State = State(
    parts: seq<Part>,
    rendered: seq<Rendered>,
    natives: map<Text, seq<Text>>,
    asText: set<Text>,
    wroteText: bool,
    failed: bool,
    toolNames: map<Text, Text>,
    proposals: seq<Card>,
    sent: seq<Msg>,
    stop: Stop)

  const START := State([], [], map[], {}, false, false, map[], [], [], Reading)
  const ACTION: Text := Ascii("action")
  const GAP: Text := [0x0A, 0x0A]

  // ----- Insertion-ordered maps -----

  /** `Map.set` of a rendered component: in place if its id is there, else last. */
  function SetRendered(rendered: seq<Rendered>, r: Rendered): seq<Rendered> {
    if rendered == [] then [r]
    else if rendered[0].component.id == r.component.id then [r] + rendered[1..]
    else [rendered[0]] + SetRendered(rendered[1..], r)
  }

  function DropRendered(rendered: seq<Rendered>, id: Text): seq<Rendered> {
    if rendered == [] then []
    else if rendered[0].component.id == id then rendered[1..]
    else [rendered[0]] + DropRendered(rendered[1..], id)
  }

  function SetCard(cards: seq<Card>, c: Card): seq<Card> {
    if cards == [] then [c]
    else if cards[0].proposalId == c.proposalId then [c] + cards[1..]
    else [cards[0]] + SetCard(cards[1..], c)
  }

  // ----- Flushing -----

  function Replies(c: Channel, replies: seq<Text>): seq<Msg> {
    if replies == [] then [] else c.reply(replies[0]) + Replies(c, replies[1..])
  }

  function AllReplies(c: Channel, batch: seq<Rendered>): seq<Msg> {
    if batch == [] then [] else Replies(c, batch[0].replies) + AllReplies(c, batch[1..])
  }

  function Natives(c: Channel, id: Text, drawn: seq<Text>, position: nat): seq<Msg>
    requires position <= |drawn|
    decreases |drawn| - position
  {
    if position == |drawn| then []
    else c.native(id, position, drawn[position]) + Natives(c, id, drawn, position + 1)
  }

  function WrittenOut(c: Channel, segment: Text): seq<Msg> {
    if IsBlank(segment) then [] else c.text(Trim(segment))
  }

  /** Adjacent text is one segment; components go where they came between segments. */
  function Segments(c: Channel, parts: seq<Part>, natives: map<Text, seq<Text>>, segment: Text): seq<Msg> {
    if parts == [] then WrittenOut(c, segment)
    else
      match parts[0]
      case Written(text) => Segments(c, parts[1..], natives, segment + text)
      case Drawn(id) =>
        WrittenOut(c, segment)
        + Natives(c, id, if id in natives then natives[id] else [], 0)
        + Segments(c, parts[1..], natives, [])
  }

  function Components(batch: seq<Rendered>): seq<Component> {
    seq(|batch|, i requires 0 <= i < |batch| => batch[i].component)
  }

  /** What a flush sends. */
  function Flushed(c: Channel, s: State, end: bool): seq<Msg> {
    AllReplies(c, s.rendered)
    + Segments(c, s.parts, s.natives, [])
    + (if end && !s.wroteText && |s.rendered| > 0 then
         var after := c.componentsOnly(Components(s.rendered));
         if after.Some? && after.value != [] then c.text(after.value) else []
       else [])
  }

  function Flush(c: Channel, s: State, end: bool): State {
    s.(sent := s.sent + Flushed(c, s, end), parts := [], rendered := [], natives := map[])
  }

  // ----- One frame -----

  function TakeComponent(c: Channel, s: State, component: Component): State {
    var replies := c.render(component, |s.rendered|);
    if |replies| > 0 then s.(rendered := SetRendered(s.rendered, Rendered(component, replies)))
    else
      var t := s.(rendered := DropRendered(s.rendered, component.id));
      if c.genui then
        var drawn := c.draw(component);
        if drawn == [] then t
        else t.(wroteText := true,
                parts := if component.id in t.natives then t.parts else t.parts + [Drawn(component.id)],
                natives := t.natives[component.id := drawn])
      else if component.fallback.Some? && component.fallback.value != [] && component.id !in t.asText then
        t.(asText := t.asText + {component.id}, wroteText := true,
           parts := t.parts + [Written(GAP + component.fallback.value + GAP)])
      else t
  }

  function Ask(c: Channel, s: State, callId: Text, questions: seq<Text>): State {
    var t := Flush(c, s, false);
    t.(sent := t.sent + c.ask(callId, questions))
  }

  predicate Answerable(c: Channel, questions: seq<Text>) {
    c.answers && |questions| > 0
  }

  /** `answered` says which questions are settled when their frame is reached. */
  function TakeFrame(c: Channel, s: State, frame: Frame, answered: Text -> bool): State {
    match frame
    case TextFrame(text) =>
      s.(wroteText := s.wroteText || !IsBlank(text), parts := s.parts + [Written(text)])
    case UiFrame(partial, component) => if partial then s else TakeComponent(c, s, component)
    case ToolInput(callId, name) => s.(toolNames := s.toolNames[callId := name])
    case ProposalApproval(callId, proposalId, details) =>
      var name := if callId in s.toolNames then s.toolNames[callId] else ACTION;
      s.(proposals := SetCard(s.proposals, Card(proposalId, name, details)))
    case BlockingApproval => s.(stop := Blocked)
    case Elicitation(callId, questions) =>
      if !Answerable(c, questions) then s
      else if answered(callId) then Ask(c, s, callId, questions)
      else Ask(c, s, callId, questions).(stop := Parked)
    case ErrorFrame => s.(failed := true, rendered := [], natives := map[])
    case OtherFrame => s
  }

  function Walk(c: Channel, s: State, frames: seq<Frame>, answered: Text -> bool): State
    decreases |frames|
  {
    if frames == [] || s.stop != Reading then s
    else Walk(c, TakeFrame(c, s, frames[0], answered), frames[1..], answered)
  }

  // ----- The whole read -----

  function Cards(c: Channel, cards: seq<Card>, several: bool): seq<Msg> {
    if cards == [] then [] else c.card(cards[0], several) + Cards(c, cards[1..], several)
  }

  /** What a read that did not park sends at its end. */
  function Ending(c: Channel, s: State): seq<Msg> {
    Flushed(c, s, true)
    + (if s.failed then c.text(c.failedText) else [])
    + (if s.stop == Blocked then c.text(c.blockedText) else [])
    + Cards(c, s.proposals, |s.proposals| > 1)
  }

  /** Every message of a read, in order. */
  function Sends(c: Channel, frames: seq<Frame>, answered: Text -> bool): seq<Msg> {
    var s := Walk(c, START, frames, answered);
    if s.stop == Parked then s.sent else s.sent + Ending(c, s)
  }

  predicate Parks(c: Channel, frames: seq<Frame>, answered: Text -> bool) {
    Walk(c, START, frames, answered).stop == Parked
  }

  datatype TurnOutcome = TurnParked | TurnFailed | TurnBlocked | TurnReplied

  /** Reads the frames into local buffers, flushing them to `out`. */
  method Read(c: Channel, frames: seq<Frame>, answered: Text -> bool)
    returns (out: seq<Msg>, outcome: TurnOutcome)
    ensures out == Sends(c, frames, answered)
    ensures outcome == TurnParked <==> Parks(c, frames, answered)
    ensures var last := Walk(c, START, frames, answered);
            && (outcome == TurnFailed <==> last.stop != Parked && last.failed)
            && (outcome == TurnBlocked <==> last.stop == Blocked && !last.failed)
  {
    out := [];
    var parts: seq<Part>, rendered: seq<Rendered>, natives: map<Text, seq<Text>> := [], [], map[];
    var asText: set<Text>, toolNames: map<Text, Text>, proposals: seq<Card> := {}, map[], [];
    var wroteText, failed := false, false;
    var stop := Reading;
    var i := 0;
    while i < |frames| && stop == Reading
      invariant i <= |frames|
      invariant Walk(c, START, frames, answered)
                == Walk(c, State(parts, rendered, natives, asText, wroteText, failed, toolNames,
                                 proposals, out, stop), frames[i..], answered)
    {
      var frame := frames[i];
      i := i + 1;
      match frame {
        case TextFrame(text) =>
          wroteText := wroteText || !IsBlank(text);
          parts := parts + [Written(text)];
        case UiFrame(partial, component) =>
          if !partial {
            var replies := c.render(component, |rendered|);
            if |replies| > 0 {
              rendered := SetRendered(rendered, Rendered(component, replies));
            } else {
              rendered := DropRendered(rendered, component.id);
              if c.genui {
                var drawn := c.draw(component);
                if drawn != [] {
                  wroteText := true;
                  if component.id !in natives {
                    parts := parts + [Drawn(component.id)];
                  }
                  natives := natives[component.id := drawn];
                }
              } else if component.fallback.Some? && component.fallback.value != []
                        && component.id !in asText
              {
                asText := asText + {component.id};
                wroteText := true;
                parts := parts + [Written(GAP + component.fallback.value + GAP)];
              }
            }
          }
        case ToolInput(callId, name) =>
          toolNames := toolNames[callId := name];
        case ProposalApproval(callId, proposalId, details) =>
          var name := if callId in toolNames then toolNames[callId] else ACTION;
          proposals := SetCard(proposals, Card(proposalId, name, details));
        case BlockingApproval =>
          stop := Blocked;
        case Elicitation(callId, questions) =>
          if Answerable(c, questions) {
            out := out + Flushed(c, State(parts, rendered, natives, asText, wroteText, failed, toolNames,
                                          proposals, out, stop), false);
            parts, rendered, natives := [], [], map[];
            out := out + c.ask(callId, questions);
            if !answered(callId) {
              stop := Parked;
            }
          }
        case ErrorFrame =>
          failed := true;
          rendered, natives := [], map[];
        case OtherFrame =>
      }
    }
    if stop == Parked {
      return out, TurnParked;
    }
    var last := State(parts, rendered, natives, asText, wroteText, failed, toolNames, proposals, out, stop);
    out := out + Ending(c, last);
    outcome := if failed then TurnFailed else if stop == Blocked then TurnBlocked else TurnReplied;
  }

  // ----- What a read says -----

  /** The text of text frames, joined. */
  function Joined(frames: seq<Frame>): Text {
    if frames == [] then [] else (if frames[0].TextFrame? then frames[0].text else []) + Joined(frames[1..])
  }

  function PartsText(parts: seq<Part>): Text {
    if parts == [] then [] else (if parts[0].Written? then parts[0].text else []) + PartsText(parts[1..])
  }

  lemma {:induction false} TextSegments(c: Channel, parts: seq<Part>, natives: map<Text, seq<Text>>, segment: Text)
    requires forall i :: 0 <= i < |parts| ==> parts[i].Written?
    ensures Segments(c, parts, natives, segment) == WrittenOut(c, segment + PartsText(parts))
    decreases |parts|
  {
    if parts == [] {
      assert segment + [] == segment;
    } else {
      TextSegments(c, parts[1..], natives, segment + parts[0].text);
      assert (segment + parts[0].text) + PartsText(parts[1..]) == segment + PartsText(parts);
    }
  }

  lemma {:induction false} PartsTextMore(parts: seq<Part>, text: Text)
    ensures PartsText(parts + [Written(text)]) == PartsText(parts) + text
  {
    var more := parts + [Written(text)];
    if parts == [] {
      assert more[0] == Written(text) && more[1..] == [];
      assert PartsText(more) == text + [] == text;
    } else {
      PartsTextMore(parts[1..], text);
      assert more[0] == parts[0] && more[1..] == parts[1..] + [Written(text)];
      var first := if parts[0].Written? then parts[0].text else [];
      assert PartsText(more) == first + (PartsText(parts[1..]) + text);
      assert first + (PartsText(parts[1..]) + text) == (first + PartsText(parts[1..])) + text;
    }
  }

  /** The state after text frames alone. */
  ghost predicate OnlyText(s: State, text: Text) {
    && (forall i :: 0 <= i < |s.parts| ==> s.parts[i].Written?)
    && PartsText(s.parts) == text
    && s.rendered == [] && s.proposals == [] && s.sent == [] && !s.failed && s.stop == Reading
  }

  lemma {:induction false} TextFramesWalk(c: Channel, s: State, frames: seq<Frame>, answered: Text -> bool,
                                          text: Text)
    requires OnlyText(s, text) && forall i :: 0 <= i < |frames| ==> frames[i].TextFrame?
    ensures OnlyText(Walk(c, s, frames, answered), text + Joined(frames))
    decreases |frames|
  {
    if frames == [] {
      assert text + [] == text;
    } else {
      PartsTextMore(s.parts, frames[0].text);
      TextFramesWalk(c, TakeFrame(c, s, frames[0], answered), frames[1..], answered, text + frames[0].text);
      assert (text + frames[0].text) + Joined(frames[1..]) == text + Joined(frames);
    }
  }

  lemma NothingRendered(c: Channel, s: State)
    requires s.rendered == []
    ensures Flushed(c, s, true) == Segments(c, s.parts, s.natives, [])
  {
    var parts := Segments(c, s.parts, s.natives, []);
    assert AllReplies(c, s.rendered) == [];
    assert [] + parts + [] == parts;
  }

  lemma NothingBesides(c: Channel, s: State)
    requires !s.failed && s.stop == Reading && s.proposals == []
    ensures Ending(c, s) == Flushed(c, s, true)
  {
    var flushed := Flushed(c, s, true);
    assert flushed + [] + [] + [] == flushed;
  }

  /** What is left to send when only text was read. */
  lemma TextEnding(c: Channel, s: State, text: Text)
    requires OnlyText(s, text)
    ensures Ending(c, s) == WrittenOut(c, text)
  {
    NothingBesides(c, s);
    NothingRendered(c, s);
    TextSegments(c, s.parts, s.natives, []);
    assert [] + text == text;
  }

  lemma SendsWhole(c: Channel, frames: seq<Frame>, answered: Text -> bool, s: State)
    requires s == Walk(c, START, frames, answered) && s.stop != Parked && s.sent == []
    ensures Sends(c, frames, answered) == Ending(c, s)
  {
    assert [] + Ending(c, s) == Ending(c, s);
  }

  /** A turn of text alone sends that text, joined and trimmed, and nothing if there is nothing in it. */
  lemma TextTurnSendsItsText(c: Channel, frames: seq<Frame>, answered: Text -> bool)
    requires forall i :: 0 <= i < |frames| ==> frames[i].TextFrame?
    ensures Sends(c, frames, answered) == WrittenOut(c, Joined(frames))
  {
    TextFramesWalk(c, START, frames, answered, []);
    assert [] + Joined(frames) == Joined(frames);
    var s := Walk(c, START, frames, answered);
    SendsWhole(c, frames, answered, s);
    TextEnding(c, s, Joined(frames));
  }

  /** A failed turn shows none of the components it drew before failing, and says that it failed. */
  lemma FailureHidesComponents(c: Channel, s: State, answered: Text -> bool)
    requires s.stop == Reading
    ensures var failed := TakeFrame(c, s, ErrorFrame, answered);
            && failed.rendered == [] && failed.natives == map[]
            && Ending(c, failed)
               == Segments(c, s.parts, map[], []) + c.text(c.failedText)
                  + Cards(c, s.proposals, |s.proposals| > 1)
  {
  }

  /** A component drawn again replaces what it drew before, in its first place. */
  lemma {:induction false} DrawnAgainReplaces(rendered: seq<Rendered>, r: Rendered)
    ensures var next := SetRendered(rendered, r);
            && r in next
            && |rendered| <= |next| <= |rendered| + 1
            && (forall i :: 0 <= i < |rendered| ==>
                  next[i] == rendered[i] || (rendered[i].component.id == r.component.id && next[i] == r))
  {
    if rendered != [] && rendered[0].component.id != r.component.id {
      DrawnAgainReplaces(rendered[1..], r);
    }
  }

  // ----- Reading again -----

  /** What is settled stays settled. */
  ghost predicate Grows(before: Text -> bool, after: Text -> bool) {
    forall id :: before(id) ==> after(id)
  }

  lemma ComponentSendsNothing(c: Channel, s: State, component: Component)
    ensures TakeComponent(c, s, component).sent == s.sent
  {
  }

  lemma AskAdds(c: Channel, s: State, callId: Text, questions: seq<Text>)
    ensures s.sent <= Ask(c, s, callId, questions).sent
  {
    var flushed, asked := Flushed(c, s, false), c.ask(callId, questions);
    assert Ask(c, s, callId, questions).sent == (s.sent + flushed) + asked;
  }

  lemma FrameAdds(c: Channel, s: State, frame: Frame, answered: Text -> bool)
    ensures s.sent <= TakeFrame(c, s, frame, answered).sent
  {
    match frame
    case UiFrame(_, component) => ComponentSendsNothing(c, s, component);
    case Elicitation(callId, questions) => AskAdds(c, s, callId, questions);
    case _ =>
  }

  /** Reading on only adds messages. */
  lemma {:induction false} WalkAdds(c: Channel, s: State, frames: seq<Frame>, answered: Text -> bool)
    ensures s.sent <= Walk(c, s, frames, answered).sent
    decreases |frames|
  {
    if frames != [] && s.stop == Reading {
      FrameAdds(c, s, frames[0], answered);
      WalkAdds(c, TakeFrame(c, s, frames[0], answered), frames[1..], answered);
    }
  }

  lemma {:induction false} WalkAgain(c: Channel, s: State, frames: seq<Frame>,
                                     before: Text -> bool, after: Text -> bool)
    requires Grows(before, after) && s.stop != Parked
    ensures var first, second := Walk(c, s, frames, before), Walk(c, s, frames, after);
            if first.stop == Parked then first.sent <= second.sent else second == first
    decreases |frames|
  {
    if frames != [] && s.stop == Reading {
      var frame, rest := frames[0], frames[1..];
      if frame.Elicitation? && Answerable(c, frame.questions) && !before(frame.callId) {
        WalkAdds(c, TakeFrame(c, s, frame, after), rest, after);
      } else {
        WalkAgain(c, TakeFrame(c, s, frame, before), rest, before, after);
      }
    }
  }

  /**
   * Reading the stream again, with what was settled still settled: a read that parked is extended,
   * and one that did not is repeated exactly.
   */
  lemma ReadAgainExtends(c: Channel, frames: seq<Frame>, before: Text -> bool, after: Text -> bool)
    requires Grows(before, after)
    ensures Sends(c, frames, before) <= Sends(c, frames, after)
    ensures !Parks(c, frames, before) ==>
              Sends(c, frames, after) == Sends(c, frames, before) && !Parks(c, frames, after)
  {
    WalkAgain(c, START, frames, before, after);
  }

  // ----- All attempts together -----

  /** One read of the stream: what was settled by then, and what became of its sends. */
  datatype Attempt = Attempt(answered: Text -> bool, fates: nat -> Fate)

  /** What the conversation has received after these reads. */
  function After(c: Channel, frames: seq<Frame>, attempts: seq<Attempt>): Box<Msg> {
    if attempts == [] then Empty()
    else
      var last := attempts[|attempts| - 1];
      Pass(After(c, frames, attempts[..|attempts| - 1]), Sends(c, frames, last.answered), 0, last.fates)
  }

  ghost predicate Growing(attempts: seq<Attempt>) {
    forall i, j :: 0 <= i < j < |attempts| ==> Grows(attempts[i].answered, attempts[j].answered)
  }

  lemma {:induction false} ReadsInOrder(c: Channel, frames: seq<Frame>, attempts: seq<Attempt>, list: seq<Msg>)
    returns (n: nat)
    requires forall i :: 0 <= i < |attempts| ==> Sends(c, frames, attempts[i].answered) <= list
    ensures InOrder(After(c, frames, attempts), list, n)
  {
    n := 0;
    if attempts != [] {
      var front, last := attempts[..|attempts| - 1], attempts[|attempts| - 1];
      n := ReadsInOrder(c, frames, front, list);
      n := PassInOrder(After(c, frames, front), Sends(c, frames, last.answered), 0, last.fates, list, n);
    }
  }

  lemma {:induction false} ReadsExactly(c: Channel, frames: seq<Frame>, attempts: seq<Attempt>, list: seq<Msg>)
    returns (n: nat)
    requires forall i :: 0 <= i < |attempts| ==> Sends(c, frames, attempts[i].answered) <= list
    requires forall i :: 0 <= i < |attempts| ==> Faithful(attempts[i].fates, |list|)
    ensures Exactly(After(c, frames, attempts), list, n)
    ensures attempts != []
            && Completes(After(c, frames, attempts[..|attempts| - 1]),
                         Sends(c, frames, attempts[|attempts| - 1].answered), 0, attempts[|attempts| - 1].fates) ==>
              |Sends(c, frames, attempts[|attempts| - 1].answered)| <= n
  {
    n := 0;
    if attempts != [] {
      var front, last := attempts[..|attempts| - 1], attempts[|attempts| - 1];
      n := ReadsExactly(c, frames, front, list);
      n := PassExactly(After(c, frames, front), Sends(c, frames, last.answered), 0, last.fates, list, n);
    }
  }

  lemma LastReadIsLongest(c: Channel, frames: seq<Frame>, attempts: seq<Attempt>, i: nat)
    requires Growing(attempts) && i < |attempts|
    ensures Sends(c, frames, attempts[i].answered) <= Sends(c, frames, attempts[|attempts| - 1].answered)
  {
    if i < |attempts| - 1 {
      ReadAgainExtends(c, frames, attempts[i].answered, attempts[|attempts| - 1].answered);
    }
  }

  /**
   * Over all reads of a run, whatever fails or crashes: what the conversation received is an in-order
   * part of the last read's messages, none of them twice.
   */
  lemma DeliveredInOrder(c: Channel, frames: seq<Frame>, attempts: seq<Attempt>)
    returns (n: nat)
    requires attempts != [] && Growing(attempts)
    ensures InOrder(After(c, frames, attempts), Sends(c, frames, attempts[|attempts| - 1].answered), n)
  {
    forall i | 0 <= i < |attempts|
      ensures Sends(c, frames, attempts[i].answered) <= Sends(c, frames, attempts[|attempts| - 1].answered)
    {
      LastReadIsLongest(c, frames, attempts, i);
    }
    n := ReadsInOrder(c, frames, attempts, Sends(c, frames, attempts[|attempts| - 1].answered));
  }

  /**
   * When sends only ever succeed or fail cleanly, and the last read gets to its end, the conversation
   * has received exactly that read's messages, each once, in order.
   */
  lemma DeliveredExactly(c: Channel, frames: seq<Frame>, attempts: seq<Attempt>)
    requires attempts != [] && Growing(attempts)
    requires forall i :: 0 <= i < |attempts| ==>
               Faithful(attempts[i].fates, |Sends(c, frames, attempts[|attempts| - 1].answered)|)
    requires Completes(After(c, frames, attempts[..|attempts| - 1]),
                       Sends(c, frames, attempts[|attempts| - 1].answered), 0, attempts[|attempts| - 1].fates)
    ensures var list := Sends(c, frames, attempts[|attempts| - 1].answered);
            Exactly(After(c, frames, attempts), list, |list|)
  {
    forall i | 0 <= i < |attempts|
      ensures Sends(c, frames, attempts[i].answered) <= Sends(c, frames, attempts[|attempts| - 1].answered)
    {
      LastReadIsLongest(c, frames, attempts, i);
    }
    var n := ReadsExactly(c, frames, attempts, Sends(c, frames, attempts[|attempts| - 1].answered));
  }
}
