/**
 * What a read of a run's stream says, told from the frames: which cards it ends with, what it says of
 * a turn that failed or was blocked, and that nothing read before a question is sent after it.
 */
module TurnMessages {
  import opened Common
  import opened JsText
  import opened ReadTurn

  function Concat<T>(parts: seq<seq<T>>): (all: seq<T>) {
    if parts == [] then [] else parts[0] + Concat(parts[1..])
  }

  // ----- The frames a read gets to -----

  /** A read stops at an approval it cannot make, and at a question nobody has answered yet. */
  predicate IsLast(c: Channel, frame: Frame, answered: Text -> bool) {
    || frame.BlockingApproval?
    || (frame.Elicitation? && c.answers && |frame.questions| >= 1 && !answered(frame.callId))
  }

  /** Everything up to the first frame the read stops at, and that one. */
  function Seen(c: Channel, frames: seq<Frame>, answered: Text -> bool): (seen: seq<Frame>) {
    if frames == [] then []
    else if IsLast(c, frames[0], answered) then [frames[0]]
    else [frames[0]] + Seen(c, frames[1..], answered)
  }

  predicate AnyError(seen: seq<Frame>) {
    exists k :: 0 <= k < |seen| && seen[k] == ErrorFrame
  }

  // ----- The proposals announced -----

  predicate AnnouncedAt(seen: seq<Frame>, k: nat, id: Text) {
    k < |seen| && seen[k].ProposalApproval? && seen[k].proposalId == id
  }

  /** `k` is where the proposal was announced first. */
  ghost predicate FirstAt(seen: seq<Frame>, k: nat, id: Text) {
    AnnouncedAt(seen, k, id) && forall j: nat :: j < k ==> !AnnouncedAt(seen, j, id)
  }

  /** `k` is where it was announced last. */
  ghost predicate LastAt(seen: seq<Frame>, k: nat, id: Text) {
    AnnouncedAt(seen, k, id) && forall j: nat :: j > k ==> !AnnouncedAt(seen, j, id)
  }

  /** The name the latest tool input before gave the call, or `action`. */
  function NamedBy(seen: seq<Frame>, callId: Text): (name: Text) {
    if seen == [] then Ascii("action")
    else
      match seen[|seen| - 1]
      case ToolInput(id, name) => if id == callId then name else NamedBy(seen[..|seen| - 1], callId)
      case _ => NamedBy(seen[..|seen| - 1], callId)
  }

  /** One card was announced from `first` on, and last as it now stands. */
  ghost predicate CardAt(seen: seq<Frame>, card: Card, first: nat, last: nat) {
    && FirstAt(seen, first, card.proposalId) && LastAt(seen, last, card.proposalId)
    && card.details == seen[last].details
    && card.toolName == NamedBy(seen[..last], seen[last].callId)
  }

  ghost predicate AllCardsAt(seen: seq<Frame>, cards: seq<Card>, firsts: seq<nat>, lasts: seq<nat>)
    requires |cards| == |firsts| == |lasts|
  {
    forall i :: 0 <= i < |cards| ==> CardAt(seen, cards[i], firsts[i], lasts[i])
  }

  predicate Increasing(firsts: seq<nat>) {
    forall i, j :: 0 <= i < j < |firsts| ==> firsts[i] < firsts[j]
  }

  predicate HasCard(cards: seq<Card>, id: Text) {
    exists i :: 0 <= i < |cards| && cards[i].proposalId == id
  }

  predicate AllHaveCards(seen: seq<Frame>, cards: seq<Card>) {
    forall k :: 0 <= k < |seen| && seen[k].ProposalApproval? ==> HasCard(cards, seen[k].proposalId)
  }

  /**
   * One card for each proposal announced, in the order they were first announced, each as it was
   * announced last.
   */
  ghost predicate CardsOf(seen: seq<Frame>, cards: seq<Card>, firsts: seq<nat>, lasts: seq<nat>) {
    && |cards| == |firsts| == |lasts|
    && AllCardsAt(seen, cards, firsts, lasts) && Increasing(firsts) && AllHaveCards(seen, cards)
  }

  lemma NothingAnnounced()
    ensures CardsOf([], [], [], [])
  {
  }

  lemma CardStays(seen: seq<Frame>, frame: Frame, card: Card, first: nat, last: nat)
    requires CardAt(seen, card, first, last)
    requires !(frame.ProposalApproval? && frame.proposalId == card.proposalId)
    ensures CardAt(seen + [frame], card, first, last)
  {
    var more := seen + [frame];
    assert more[..last] == seen[..last];
    forall j: nat | j < |more| && AnnouncedAt(more, j, card.proposalId)
      ensures j < |seen| && AnnouncedAt(seen, j, card.proposalId)
    {
    }
  }

  lemma OthersStay(seen: seq<Frame>, frame: Frame, cards: seq<Card>, firsts: seq<nat>, lasts: seq<nat>)
    requires |cards| == |firsts| == |lasts| && AllCardsAt(seen, cards, firsts, lasts)
    ensures forall i :: 0 <= i < |cards| && !(frame.ProposalApproval? && frame.proposalId == cards[i].proposalId)
              ==> CardAt(seen + [frame], cards[i], firsts[i], lasts[i])
  {
    forall i | 0 <= i < |cards| && !(frame.ProposalApproval? && frame.proposalId == cards[i].proposalId)
      ensures CardAt(seen + [frame], cards[i], firsts[i], lasts[i])
    {
      CardStays(seen, frame, cards[i], firsts[i], lasts[i]);
    }
  }

  /** A frame that announces nothing changes no card. */
  lemma OtherFrameKeepsCards(seen: seq<Frame>, frame: Frame, cards: seq<Card>, firsts: seq<nat>, lasts: seq<nat>)
    requires CardsOf(seen, cards, firsts, lasts) && !frame.ProposalApproval?
    ensures CardsOf(seen + [frame], cards, firsts, lasts)
  {
    OthersStay(seen, frame, cards, firsts, lasts);
  }

  /** Setting a card replaces the one of its proposal where it stands, or adds it last. */
  lemma {:induction false} SetCardSays(cards: seq<Card>, card: Card) returns (i: nat)
    ensures i <= |cards|
    ensures forall j :: 0 <= j < i ==> cards[j].proposalId != card.proposalId
    ensures if i == |cards| then SetCard(cards, card) == cards + [card]
            else cards[i].proposalId == card.proposalId && SetCard(cards, card) == cards[i := card]
  {
    i := 0;
    if cards != [] && cards[0].proposalId != card.proposalId {
      var k := SetCardSays(cards[1..], card);
      i := k + 1;
      if k < |cards| - 1 {
        assert cards[i := card] == [cards[0]] + cards[1..][k := card];
      } else {
        assert cards + [card] == [cards[0]] + (cards[1..] + [card]);
      }
    }
  }

  lemma CardSet(seen: seq<Frame>, frame: Frame, card: Card, first: nat)
    requires frame.ProposalApproval? && frame.proposalId == card.proposalId
    requires first == |seen| || FirstAt(seen, first, card.proposalId)
    requires first == |seen| ==> forall j: nat :: !AnnouncedAt(seen, j, card.proposalId)
    requires card.details == frame.details && card.toolName == NamedBy(seen, frame.callId)
    ensures CardAt(seen + [frame], card, first, |seen|)
  {
    var more := seen + [frame];
    assert more[..|seen|] == seen;
    assert AnnouncedAt(more, |seen|, card.proposalId);
    forall j: nat | j < first ensures !AnnouncedAt(more, j, card.proposalId) {
      assert !AnnouncedAt(seen, j, card.proposalId);
    }
  }

  lemma NotAnnounced(seen: seq<Frame>, cards: seq<Card>, id: Text)
    requires AllHaveCards(seen, cards) && !HasCard(cards, id)
    ensures forall j: nat :: !AnnouncedAt(seen, j, id)
  {
  }

  lemma NewCardAt(seen: seq<Frame>, frame: Frame, cards: seq<Card>, firsts: seq<nat>, lasts: seq<nat>, card: Card)
    requires |cards| == |firsts| == |lasts| && AllCardsAt(seen, cards, firsts, lasts)
    requires frame.ProposalApproval? && frame.proposalId == card.proposalId
    requires CardAt(seen + [frame], card, |seen|, |seen|)
    requires forall j :: 0 <= j < |cards| ==> cards[j].proposalId != card.proposalId
    ensures AllCardsAt(seen + [frame], cards + [card], firsts + [|seen|], lasts + [|seen|])
  {
    OthersStay(seen, frame, cards, firsts, lasts);
  }

  lemma NewFirst(seen: seq<Frame>, cards: seq<Card>, firsts: seq<nat>, lasts: seq<nat>)
    requires |cards| == |firsts| == |lasts| && AllCardsAt(seen, cards, firsts, lasts) && Increasing(firsts)
    ensures Increasing(firsts + [|seen|])
  {
    forall i | 0 <= i < |firsts| ensures firsts[i] < |seen| {
      assert CardAt(seen, cards[i], firsts[i], lasts[i]);
    }
  }

  lemma NewCard(seen: seq<Frame>, frame: Frame, cards: seq<Card>, firsts: seq<nat>, lasts: seq<nat>, card: Card)
    requires CardsOf(seen, cards, firsts, lasts) && frame.ProposalApproval?
    requires card == Card(frame.proposalId, NamedBy(seen, frame.callId), frame.details)
    requires forall j :: 0 <= j < |cards| ==> cards[j].proposalId != card.proposalId
    ensures CardsOf(seen + [frame], cards + [card], firsts + [|seen|], lasts + [|seen|])
  {
    NotAnnounced(seen, cards, card.proposalId);
    CardSet(seen, frame, card, |seen|);
    NewCardAt(seen, frame, cards, firsts, lasts, card);
    NewFirst(seen, cards, firsts, lasts);
    CardsCovered(seen, frame, cards, cards + [card], |cards|, card);
  }

  lemma OthersDiffer(seen: seq<Frame>, cards: seq<Card>, firsts: seq<nat>, lasts: seq<nat>, at: nat, i: nat)
    requires |cards| == |firsts| == |lasts| && AllCardsAt(seen, cards, firsts, lasts) && Increasing(firsts)
    requires at < |cards| && i < |cards| && i != at
    ensures cards[i].proposalId != cards[at].proposalId
  {
    assert CardAt(seen, cards[i], firsts[i], lasts[i]) && CardAt(seen, cards[at], firsts[at], lasts[at]);
    OneFirst(seen, cards[i].proposalId, firsts[i], cards[at].proposalId, firsts[at]);
  }

  lemma KnownCardAt(seen: seq<Frame>, frame: Frame, cards: seq<Card>, firsts: seq<nat>, lasts: seq<nat>,
                    card: Card, at: nat)
    requires |cards| == |firsts| == |lasts| && AllCardsAt(seen, cards, firsts, lasts) && Increasing(firsts)
    requires at < |cards| && cards[at].proposalId == card.proposalId
    requires frame.ProposalApproval? && frame.proposalId == card.proposalId
    requires CardAt(seen + [frame], card, firsts[at], |seen|)
    ensures AllCardsAt(seen + [frame], cards[at := card], firsts, lasts[at := |seen|])
  {
    OthersStay(seen, frame, cards, firsts, lasts);
    forall i | 0 <= i < |cards| && i != at ensures cards[i].proposalId != card.proposalId {
      OthersDiffer(seen, cards, firsts, lasts, at, i);
    }
  }

  lemma KnownCard(seen: seq<Frame>, frame: Frame, cards: seq<Card>, firsts: seq<nat>, lasts: seq<nat>, card: Card,
                  at: nat)
    requires CardsOf(seen, cards, firsts, lasts) && frame.ProposalApproval?
    requires card == Card(frame.proposalId, NamedBy(seen, frame.callId), frame.details)
    requires at < |cards| && cards[at].proposalId == card.proposalId
    ensures CardsOf(seen + [frame], cards[at := card], firsts, lasts[at := |seen|])
  {
    assert CardAt(seen, cards[at], firsts[at], lasts[at]);
    CardSet(seen, frame, card, firsts[at]);
    KnownCardAt(seen, frame, cards, firsts, lasts, card, at);
    CardsCovered(seen, frame, cards, cards[at := card], at, card);
  }

  /** A proposal is announced first in one place only. */
  lemma OneFirst(seen: seq<Frame>, id: Text, k: nat, otherId: Text, j: nat)
    requires FirstAt(seen, k, id) && FirstAt(seen, j, otherId) && k != j
    ensures id != otherId
  {
  }

  /** An announcement sets its proposal's card. */
  lemma AnnouncementSetsCard(seen: seq<Frame>, frame: Frame, cards: seq<Card>, firsts: seq<nat>, lasts: seq<nat>)
    returns (newFirsts: seq<nat>, newLasts: seq<nat>)
    requires CardsOf(seen, cards, firsts, lasts) && frame.ProposalApproval?
    ensures var card := Card(frame.proposalId, NamedBy(seen, frame.callId), frame.details);
            CardsOf(seen + [frame], SetCard(cards, card), newFirsts, newLasts)
  {
    var card := Card(frame.proposalId, NamedBy(seen, frame.callId), frame.details);
    var at := SetCardSays(cards, card);
    if at == |cards| {
      NewCard(seen, frame, cards, firsts, lasts, card);
      newFirsts, newLasts := firsts + [|seen|], lasts + [|seen|];
    } else {
      KnownCard(seen, frame, cards, firsts, lasts, card, at);
      newFirsts, newLasts := firsts, lasts[at := |seen|];
    }
  }

  lemma CardsCovered(seen: seq<Frame>, frame: Frame, cards: seq<Card>, next: seq<Card>, at: nat, card: Card)
    requires frame.ProposalApproval? && frame.proposalId == card.proposalId && at <= |cards|
    requires if at == |cards| then next == cards + [card]
             else cards[at].proposalId == card.proposalId && next == cards[at := card]
    requires AllHaveCards(seen, cards)
    ensures AllHaveCards(seen + [frame], next)
  {
    var more := seen + [frame];
    forall k | 0 <= k < |more| && more[k].ProposalApproval? ensures HasCard(next, more[k].proposalId) {
      if k < |seen| {
        var i :| 0 <= i < |cards| && cards[i].proposalId == seen[k].proposalId;
        assert next[i].proposalId == more[k].proposalId;
      } else {
        assert next[at].proposalId == more[k].proposalId;
      }
    }
  }

  // ----- Where a read stands -----

  ghost predicate NamesKnown(seen: seq<Frame>, names: map<Text, Text>) {
    forall id :: NamedBy(seen, id) == if id in names then names[id] else Ascii("action")
  }

  /** What a read that has taken `seen` knows of it. */
  ghost predicate Stands(s: State, seen: seq<Frame>, firsts: seq<nat>, lasts: seq<nat>) {
    && CardsOf(seen, s.proposals, firsts, lasts)
    && NamesKnown(seen, s.toolNames)
    && (s.failed <==> AnyError(seen))
  }

  lemma NamesAfter(seen: seq<Frame>, frame: Frame, names: map<Text, Text>)
    requires NamesKnown(seen, names)
    ensures NamesKnown(seen + [frame],
                       if frame.ToolInput? then names[frame.callId := frame.name] else names)
  {
    var more := seen + [frame];
    assert more[..|more| - 1] == seen;
  }

  lemma ErrorsAfter(seen: seq<Frame>, frame: Frame)
    ensures AnyError(seen + [frame]) <==> AnyError(seen) || frame == ErrorFrame
  {
    var more := seen + [frame];
    assert more[|seen|] == frame;
    if k :| 0 <= k < |seen| && seen[k] == ErrorFrame {
      assert more[k] == ErrorFrame;
    }
  }

  lemma AskKeepsTheRest(c: Channel, s: State, callId: Text, questions: seq<Text>)
    ensures var t := Ask(c, s, callId, questions);
            && t.proposals == s.proposals && t.toolNames == s.toolNames && t.failed == s.failed
            && t.stop == s.stop && t.wroteText == s.wroteText && t.asText == s.asText
            && t.parts == [] && t.rendered == [] && t.natives == map[]
  {
  }

  lemma ComponentKeepsTheRest(c: Channel, s: State, component: Component)
    ensures var t := TakeComponent(c, s, component);
            && t.proposals == s.proposals && t.toolNames == s.toolNames && t.failed == s.failed
            && t.stop == s.stop && t.sent == s.sent
  {
  }

  /** What a frame changes of what a read knows. */
  predicate Knows(c: Channel, s: State, t: State, frame: Frame, answered: Text -> bool) {
    && t.toolNames == (if frame.ToolInput? then s.toolNames[frame.callId := frame.name] else s.toolNames)
    && (t.failed <==> s.failed || frame == ErrorFrame)
    && (t.stop == Reading <==> !IsLast(c, frame, answered))
    && (t.stop == Blocked <==> frame.BlockingApproval?)
    && t.proposals == if !frame.ProposalApproval? then s.proposals
                      else
                        var named := frame.callId in s.toolNames;
                        var name := if named then s.toolNames[frame.callId] else Ascii("action");
                        SetCard(s.proposals, Card(frame.proposalId, name, frame.details))
  }

  lemma FrameKnows(c: Channel, s: State, frame: Frame, answered: Text -> bool)
    requires s.stop == Reading
    ensures Knows(c, s, TakeFrame(c, s, frame, answered), frame, answered)
  {
    match frame
    case UiFrame(_, component) => ComponentKeepsTheRest(c, s, component);
    case Elicitation(callId, questions) => AskKeepsTheRest(c, s, callId, questions);
    case _ =>
  }

  lemma KnowsStands(c: Channel, s: State, t: State, frame: Frame, answered: Text -> bool, seen: seq<Frame>,
                    firsts: seq<nat>, lasts: seq<nat>)
    returns (newFirsts: seq<nat>, newLasts: seq<nat>)
    requires Stands(s, seen, firsts, lasts) && Knows(c, s, t, frame, answered)
    ensures Stands(t, seen + [frame], newFirsts, newLasts)
  {
    newFirsts, newLasts := firsts, lasts;
    NamesAfter(seen, frame, s.toolNames);
    ErrorsAfter(seen, frame);
    if frame.ProposalApproval? {
      newFirsts, newLasts := AnnouncementSetsCard(seen, frame, s.proposals, firsts, lasts);
    } else {
      OtherFrameKeepsCards(seen, frame, s.proposals, firsts, lasts);
    }
  }

  /** Where the read stops, if it does. */
  ghost predicate StopsAt(c: Channel, t: State, seen: seq<Frame>, answered: Text -> bool) {
    && (t.stop == Reading <==> forall k :: 0 <= k < |seen| ==> !IsLast(c, seen[k], answered))
    && (t.stop == Blocked <==> seen != [] && seen[|seen| - 1] == BlockingApproval)
  }

  lemma WalkFirst(c: Channel, s: State, frames: seq<Frame>, answered: Text -> bool)
    requires frames != [] && s.stop == Reading
    ensures var t := TakeFrame(c, s, frames[0], answered);
            Walk(c, s, frames, answered) == if t.stop == Reading then Walk(c, t, frames[1..], answered) else t
  {
  }

  lemma StopsLater(c: Channel, t: State, first: Frame, rest: seq<Frame>, answered: Text -> bool)
    requires StopsAt(c, t, rest, answered) && !IsLast(c, first, answered)
    ensures StopsAt(c, t, [first] + rest, answered)
  {
    var seen := [first] + rest;
    assert forall k :: 0 <= k < |rest| ==> seen[k + 1] == rest[k];
    assert seen[|seen| - 1] == if rest == [] then first else rest[|rest| - 1];
    if t.stop == Reading {
      forall k | 0 <= k < |seen| ensures !IsLast(c, seen[k], answered) {
        assert k > 0 ==> seen[k] == rest[k - 1];
      }
    } else {
      var k :| 0 <= k < |rest| && IsLast(c, rest[k], answered);
      assert seen[k + 1] == rest[k];
    }
  }

  /** A read takes exactly the frames up to where it stops, and stops for the reason they give. */
  lemma {:induction false} WalkStands(c: Channel, s: State, frames: seq<Frame>, answered: Text -> bool,
                                      before: seq<Frame>, firsts: seq<nat>, lasts: seq<nat>)
    returns (newFirsts: seq<nat>, newLasts: seq<nat>)
    requires Stands(s, before, firsts, lasts) && s.stop == Reading
    ensures var t, seen := Walk(c, s, frames, answered), Seen(c, frames, answered);
            Stands(t, before + seen, newFirsts, newLasts) && StopsAt(c, t, seen, answered)
    decreases |frames|
  {
    newFirsts, newLasts := firsts, lasts;
    if frames == [] {
      assert before + [] == before;
    } else {
      FrameKnows(c, s, frames[0], answered);
      WalkFirst(c, s, frames, answered);
      var t := TakeFrame(c, s, frames[0], answered);
      newFirsts, newLasts := KnowsStands(c, s, t, frames[0], answered, before, firsts, lasts);
      SeenFirst(c, frames, answered);
      if t.stop == Reading {
        newFirsts, newLasts :=
          WalkStands(c, t, frames[1..], answered, before + [frames[0]], newFirsts, newLasts);
        var rest := Seen(c, frames[1..], answered);
        StandsJoined(c, Walk(c, t, frames[1..], answered), before, frames[0], rest, answered, newFirsts, newLasts);
      } else {
        StopsNow(c, s, t, frames[0], answered);
      }
    }
  }

  lemma SeenFirst(c: Channel, frames: seq<Frame>, answered: Text -> bool)
    requires frames != []
    ensures Seen(c, frames, answered)
            == if IsLast(c, frames[0], answered) then [frames[0]]
               else [frames[0]] + Seen(c, frames[1..], answered)
  {
  }

  lemma StopsNow(c: Channel, s: State, t: State, frame: Frame, answered: Text -> bool)
    requires Knows(c, s, t, frame, answered) && t.stop != Reading
    ensures StopsAt(c, t, [frame], answered)
  {
    assert [frame][0] == frame;
  }

  lemma StandsJoined(c: Channel, t: State, before: seq<Frame>, first: Frame, rest: seq<Frame>,
                     answered: Text -> bool, firsts: seq<nat>, lasts: seq<nat>)
    requires Stands(t, before + [first] + rest, firsts, lasts)
    requires StopsAt(c, t, rest, answered) && !IsLast(c, first, answered)
    ensures Stands(t, before + ([first] + rest), firsts, lasts) && StopsAt(c, t, [first] + rest, answered)
  {
    StopsLater(c, t, first, rest, answered);
    assert before + [first] + rest == before + ([first] + rest);
  }

  // ----- What is sent at the end -----

  function CardMessages(c: Channel, cards: seq<Card>): (msgs: seq<Msg>) {
    Concat(seq(|cards|, i requires 0 <= i < |cards| => c.card(cards[i], |cards| >= 2)))
  }

  lemma {:induction false} CardsAre(c: Channel, cards: seq<Card>, several: bool)
    ensures Cards(c, cards, several)
            == Concat(seq(|cards|, i requires 0 <= i < |cards| => c.card(cards[i], several)))
    decreases |cards|
  {
    if cards != [] {
      CardsAre(c, cards[1..], several);
      var all := seq(|cards|, i requires 0 <= i < |cards| => c.card(cards[i], several));
      var rest := cards[1..];
      assert all[1..] == seq(|rest|, i requires 0 <= i < |rest| => c.card(rest[i], several));
    }
  }

  function ReplyMessages(c: Channel, replies: seq<Text>): (msgs: seq<Msg>) {
    Concat(seq(|replies|, i requires 0 <= i < |replies| => c.reply(replies[i])))
  }

  lemma {:induction false} RepliesAre(c: Channel, replies: seq<Text>)
    ensures Replies(c, replies) == ReplyMessages(c, replies)
    decreases |replies|
  {
    if replies != [] {
      RepliesAre(c, replies[1..]);
      var all := seq(|replies|, i requires 0 <= i < |replies| => c.reply(replies[i]));
      var rest := replies[1..];
      assert all[1..] == seq(|rest|, i requires 0 <= i < |rest| => c.reply(rest[i]));
    }
  }

  /** Every rendered component's replies, in the order the components stand. */
  function RenderedMessages(c: Channel, batch: seq<Rendered>): (msgs: seq<Msg>) {
    Concat(seq(|batch|, i requires 0 <= i < |batch| => ReplyMessages(c, batch[i].replies)))
  }

  lemma {:induction false} AllRepliesAre(c: Channel, batch: seq<Rendered>)
    ensures AllReplies(c, batch) == RenderedMessages(c, batch)
    decreases |batch|
  {
    if batch != [] {
      AllRepliesAre(c, batch[1..]);
      RepliesAre(c, batch[0].replies);
      var all := seq(|batch|, i requires 0 <= i < |batch| => ReplyMessages(c, batch[i].replies));
      var rest := batch[1..];
      assert all[0] == ReplyMessages(c, batch[0].replies);
      assert all[1..] == seq(|rest|, i requires 0 <= i < |rest| => ReplyMessages(c, rest[i].replies));
    }
  }

  function DrawnMessages(c: Channel, id: Text, drawn: seq<Text>): (msgs: seq<Msg>) {
    Concat(seq(|drawn|, i requires 0 <= i < |drawn| => c.native(id, i, drawn[i])))
  }

  lemma {:induction false} NativesFrom(c: Channel, id: Text, drawn: seq<Text>, position: nat)
    requires position <= |drawn|
    ensures Natives(c, id, drawn, position)
            == Concat(seq(|drawn| - position, i requires 0 <= i < |drawn| - position =>
                            c.native(id, position + i, drawn[position + i])))
    decreases |drawn| - position
  {
    if position < |drawn| {
      NativesFrom(c, id, drawn, position + 1);
      var n := |drawn| - position;
      var all := seq(n, i requires 0 <= i < n => c.native(id, position + i, drawn[position + i]));
      assert all[1..] == seq(n - 1, i requires 0 <= i < n - 1 =>
                               c.native(id, position + 1 + i, drawn[position + 1 + i]));
    }
  }

  lemma NativesAre(c: Channel, id: Text, drawn: seq<Text>)
    ensures Natives(c, id, drawn, 0) == DrawnMessages(c, id, drawn)
  {
    NativesFrom(c, id, drawn, 0);
    assert seq(|drawn| - 0, i requires 0 <= i < |drawn| - 0 => c.native(id, 0 + i, drawn[0 + i]))
           == seq(|drawn|, i requires 0 <= i < |drawn| => c.native(id, i, drawn[i]));
  }

  /** A piece of text as it goes out: trimmed, and not at all if there is nothing in it. */
  function Spoken(c: Channel, text: Text): (msgs: seq<Msg>) {
    if forall i :: 0 <= i < |text| ==> IsSpace(text[i]) then [] else c.text(Trim(text))
  }

  /** A component as it was drawn last. */
  function DrawnNow(c: Channel, id: Text, natives: map<Text, seq<Text>>): (msgs: seq<Msg>) {
    if id in natives then DrawnMessages(c, id, natives[id]) else []
  }

  /** Text with no component drawn in it goes out as one piece. */
  lemma TextIsOnePiece(c: Channel, parts: seq<Part>, natives: map<Text, seq<Text>>)
    requires forall i :: 0 <= i < |parts| ==> parts[i].Written?
    ensures Segments(c, parts, natives, [])
            == Spoken(c, Concat(seq(|parts|, i requires 0 <= i < |parts| => parts[i].text)))
  {
    TextSegments(c, parts, natives, []);
    PartsTextIs(parts);
    assert [] + PartsText(parts) == PartsText(parts);
  }

  lemma {:induction false} PartsTextIs(parts: seq<Part>)
    requires forall i :: 0 <= i < |parts| ==> parts[i].Written?
    ensures PartsText(parts) == Concat(seq(|parts|, i requires 0 <= i < |parts| => parts[i].text))
    decreases |parts|
  {
    if parts != [] {
      PartsTextIs(parts[1..]);
      var all := seq(|parts|, i requires 0 <= i < |parts| => parts[i].text);
      var rest := parts[1..];
      assert all[1..] == seq(|rest|, i requires 0 <= i < |rest| => rest[i].text);
    }
  }

  lemma SegmentsFirst(c: Channel, first: Part, rest: seq<Part>, natives: map<Text, seq<Text>>, segment: Text)
    ensures Segments(c, [first] + rest, natives, segment)
            == if first.Written? then Segments(c, rest, natives, segment + first.text)
               else Spoken(c, segment) + DrawnNow(c, first.id, natives) + Segments(c, rest, natives, [])
  {
    assert ([first] + rest)[1..] == rest;
    if first.Drawn? {
      NativesAre(c, first.id, if first.id in natives then natives[first.id] else []);
    }
  }

  lemma SegmentsNone(c: Channel, natives: map<Text, seq<Text>>, segment: Text)
    ensures Segments(c, [], natives, segment) == Spoken(c, segment)
  {
  }

  lemma RegroupDrawn(a: seq<Msg>, b: seq<Msg>, d: seq<Msg>, e: seq<Msg>, f: seq<Msg>)
    ensures a + b + (d + e + f) == (a + b + d) + e + f
  {
  }

  lemma {:induction false} DrawnWithin(c: Channel, before: seq<Part>, id: Text, after: seq<Part>,
                                       natives: map<Text, seq<Text>>, segment: Text)
    ensures Segments(c, before + ([Drawn(id)] + after), natives, segment)
            == Segments(c, before, natives, segment) + DrawnNow(c, id, natives) + Segments(c, after, natives, [])
    decreases |before|
  {
    var tail := [Drawn(id)] + after;
    if before == [] {
      assert [] + tail == tail;
      SegmentsNone(c, natives, segment);
      SegmentsFirst(c, Drawn(id), after, natives, segment);
    } else {
      var first, rest := before[0], before[1..];
      assert before == [first] + rest && before + tail == [first] + (rest + tail);
      SegmentsFirst(c, first, rest, natives, segment);
      SegmentsFirst(c, first, rest + tail, natives, segment);
      DrawnWithin(c, rest, id, after, natives, if first.Written? then segment + first.text else []);
      if first.Drawn? {
        RegroupDrawn(Spoken(c, segment), DrawnNow(c, first.id, natives), Segments(c, rest, natives, []),
                     DrawnNow(c, id, natives), Segments(c, after, natives, []));
      }
    }
  }

  /** A component drawn goes out between what was said before it and what was said after. */
  lemma DrawnGoesBetween(c: Channel, before: seq<Part>, id: Text, after: seq<Part>,
                         natives: map<Text, seq<Text>>)
    ensures Segments(c, before + [Drawn(id)] + after, natives, [])
            == Segments(c, before, natives, []) + DrawnNow(c, id, natives) + Segments(c, after, natives, [])
  {
    assert before + [Drawn(id)] + after == before + ([Drawn(id)] + after);
    DrawnWithin(c, before, id, after, natives, []);
  }

  /** What waits to be sent: the rendered components, then the text and what was drawn within it. */
  function Waiting(c: Channel, s: State): (msgs: seq<Msg>) {
    RenderedMessages(c, s.rendered) + Segments(c, s.parts, s.natives, [])
  }

  /** What a turn of components alone is accompanied by. */
  function Accompanied(c: Channel, s: State): (msgs: seq<Msg>) {
    if s.wroteText || s.rendered == [] then []
    else
      match c.componentsOnly(seq(|s.rendered|, i requires 0 <= i < |s.rendered| => s.rendered[i].component))
      case None => []
      case Some(text) => if text == [] then [] else c.text(text)
  }

  lemma FlushSends(c: Channel, s: State)
    ensures Flushed(c, s, false) == Waiting(c, s)
    ensures Flushed(c, s, true) == Waiting(c, s) + Accompanied(c, s)
  {
    AllRepliesAre(c, s.rendered);
    assert Components(s.rendered)
           == seq(|s.rendered|, i requires 0 <= i < |s.rendered| => s.rendered[i].component);
  }

  /** What is said of how the turn went. */
  function Notices(c: Channel, failed: bool, blocked: bool): (msgs: seq<Msg>) {
    match (failed, blocked)
    case (false, false) => []
    case (true, false) => c.text(c.failedText)
    case (false, true) => c.text(c.blockedText)
    case (true, true) => c.text(c.failedText) + c.text(c.blockedText)
  }

  lemma EndingSends(c: Channel, s: State)
    ensures Ending(c, s) == Waiting(c, s) + Accompanied(c, s)
                            + Notices(c, s.failed, s.stop == Blocked) + CardMessages(c, s.proposals)
  {
    FlushSends(c, s);
    CardsAre(c, s.proposals, |s.proposals| > 1);
    RegroupEnding(Flushed(c, s, true), if s.failed then c.text(c.failedText) else [],
                  if s.stop == Blocked then c.text(c.blockedText) else [], CardMessages(c, s.proposals));
  }

  lemma RegroupEnding(a: seq<Msg>, b: seq<Msg>, d: seq<Msg>, e: seq<Msg>)
    ensures a + b + d + e == a + (b + d) + e && b + [] == b && [] + d == d
  {
  }

  lemma RegroupSent(a: seq<Msg>, b: seq<Msg>, d: seq<Msg>, e: seq<Msg>, f: seq<Msg>)
    ensures a + (b + d + e + f) == a + b + d + e + f
  {
  }

  /**
   * A read that does not park sends what still waits, then says once that the turn failed if it did
   * and once that it is blocked if it is, and ends with one card for each proposal announced, in the
   * order of their first announcements, each as announced last: however the turn went.
   */
  lemma ReadEnds(c: Channel, frames: seq<Frame>, answered: Text -> bool)
    returns (cards: seq<Card>, firsts: seq<nat>, lasts: seq<nat>)
    requires !Parks(c, frames, answered)
    ensures var s, seen := Walk(c, START, frames, answered), Seen(c, frames, answered);
            && CardsOf(seen, cards, firsts, lasts)
            && Sends(c, frames, answered)
               == s.sent + Waiting(c, s) + Accompanied(c, s)
                  + Notices(c, AnyError(seen), seen != [] && seen[|seen| - 1] == BlockingApproval)
                  + CardMessages(c, cards)
  {
    NothingAnnounced();
    firsts, lasts := WalkStands(c, START, frames, answered, [], [], []);
    var s, seen := Walk(c, START, frames, answered), Seen(c, frames, answered);
    assert [] + seen == seen;
    cards := s.proposals;
    EndingSends(c, s);
    RegroupSent(s.sent, Waiting(c, s), Accompanied(c, s), Notices(c, s.failed, s.stop == Blocked),
                CardMessages(c, cards));
  }

  /** A read parks exactly if it gets to a question nobody has answered yet. */
  lemma ParksAtQuestion(c: Channel, frames: seq<Frame>, answered: Text -> bool)
    ensures var seen := Seen(c, frames, answered);
            Parks(c, frames, answered)
            <==> seen != [] && seen[|seen| - 1].Elicitation? && IsLast(c, seen[|seen| - 1], answered)
  {
    NothingAnnounced();
    var firsts, lasts := WalkStands(c, START, frames, answered, [], [], []);
    SeenEnds(c, frames, answered);
  }

  /** Only the last of the frames a read takes can be one it stops at. */
  lemma {:induction false} SeenEnds(c: Channel, frames: seq<Frame>, answered: Text -> bool)
    ensures var seen := Seen(c, frames, answered);
            && seen <= frames
            && (forall k :: 0 <= k < |seen| - 1 ==> !IsLast(c, seen[k], answered))
            && (|seen| < |frames| ==> seen != [] && IsLast(c, seen[|seen| - 1], answered))
    decreases |frames|
  {
    if frames != [] && !IsLast(c, frames[0], answered) {
      SeenEnds(c, frames[1..], answered);
      var seen, rest := Seen(c, frames, answered), Seen(c, frames[1..], answered);
      assert seen == [frames[0]] + rest && frames == [frames[0]] + frames[1..];
      forall k | 0 <= k < |seen| - 1 ensures !IsLast(c, seen[k], answered) {
        if k > 0 {
          assert seen[k] == rest[k - 1];
        }
      }
    }
  }

  // ----- Questions -----

  lemma {:induction false} WalkOn(c: Channel, s: State, before: seq<Frame>, after: seq<Frame>,
                                  answered: Text -> bool)
    ensures Walk(c, s, before + after, answered) == Walk(c, Walk(c, s, before, answered), after, answered)
    decreases |before|
  {
    if before == [] {
      assert [] + after == after;
    } else if s.stop == Reading {
      assert (before + after)[1..] == before[1..] + after;
      WalkOn(c, TakeFrame(c, s, before[0], answered), before[1..], after, answered);
    }
  }

  /** A question is asked behind all that was read before it, and leaves nothing of that waiting. */
  lemma AskSends(c: Channel, s: State, callId: Text, questions: seq<Text>)
    ensures var t := Ask(c, s, callId, questions);
            t == s.(sent := s.sent + Waiting(c, s) + c.ask(callId, questions), parts := [], rendered := [],
                    natives := map[])
  {
    FlushSends(c, s);
  }

  /** The state a read goes on from once its question is asked. */
  function Asked(c: Channel, s: State, callId: Text, questions: seq<Text>): (t: State) {
    s.(sent := s.sent + Waiting(c, s) + c.ask(callId, questions), parts := [], rendered := [], natives := map[])
  }

  lemma QuestionTaken(c: Channel, s: State, callId: Text, questions: seq<Text>, answered: Text -> bool)
    requires s.stop == Reading && c.answers && |questions| >= 1
    ensures TakeFrame(c, s, Elicitation(callId, questions), answered)
            == Asked(c, s, callId, questions).(stop := if answered(callId) then Reading else Parked)
  {
    AskSends(c, s, callId, questions);
  }

  lemma ReadsAll(c: Channel, frames: seq<Frame>, answered: Text -> bool)
    requires forall k :: 0 <= k < |frames| ==> !IsLast(c, frames[k], answered)
    ensures Walk(c, START, frames, answered).stop == Reading
  {
    NothingAnnounced();
    var firsts, lasts := WalkStands(c, START, frames, answered, [], [], []);
    SeenAll(c, frames, answered);
  }

  lemma WalkPastQuestion(c: Channel, before: seq<Frame>, frame: Frame, after: seq<Frame>, answered: Text -> bool)
    requires Walk(c, START, before, answered).stop == Reading
    ensures var t := TakeFrame(c, Walk(c, START, before, answered), frame, answered);
            Walk(c, START, before + [frame] + after, answered) == Walk(c, t, after, answered)
  {
    WalkOn(c, START, before, [frame] + after, answered);
    assert before + [frame] + after == before + ([frame] + after);
    assert ([frame] + after)[1..] == after;
  }

  /**
   * Whatever was read before a question is sent before it: the question's messages follow all of it,
   * the rest of the turn comes behind them, and a question not answered yet is the last thing sent.
   */
  lemma QuestionFollowsWhatWasRead(c: Channel, before: seq<Frame>, callId: Text, questions: seq<Text>,
                                   after: seq<Frame>, answered: Text -> bool)
    requires forall k :: 0 <= k < |before| ==> !IsLast(c, before[k], answered)
    requires c.answers && |questions| >= 1
    ensures var s := Walk(c, START, before, answered);
            var asked := s.sent + Waiting(c, s) + c.ask(callId, questions);
            var t := s.(sent := asked, parts := [], rendered := [], natives := map[]);
            var frames := before + [Elicitation(callId, questions)] + after;
            && asked <= Sends(c, frames, answered)
            && (!answered(callId) ==> Parks(c, frames, answered) && Sends(c, frames, answered) == asked)
            && (answered(callId) ==> Walk(c, START, frames, answered) == Walk(c, t, after, answered))
  {
    var frame := Elicitation(callId, questions);
    ReadsAll(c, before, answered);
    var s := Walk(c, START, before, answered);
    WalkPastQuestion(c, before, frame, after, answered);
    QuestionTaken(c, s, callId, questions, answered);
    WalkAdds(c, TakeFrame(c, s, frame, answered), after, answered);
  }

  lemma {:induction false} SeenAll(c: Channel, frames: seq<Frame>, answered: Text -> bool)
    requires forall k :: 0 <= k < |frames| ==> !IsLast(c, frames[k], answered)
    ensures Seen(c, frames, answered) == frames
    decreases |frames|
  {
    if frames != [] {
      SeenAll(c, frames[1..], answered);
    }
  }

  // ----- Components -----

  /** Rendered components are kept by id: a new one goes last, a known one stays where it is. */
  lemma {:induction false} SetRenderedSays(rendered: seq<Rendered>, r: Rendered) returns (i: nat)
    ensures i <= |rendered|
    ensures forall j :: 0 <= j < i ==> rendered[j].component.id != r.component.id
    ensures if i == |rendered| then SetRendered(rendered, r) == rendered + [r]
            else rendered[i].component.id == r.component.id && SetRendered(rendered, r) == rendered[i := r]
  {
    i := 0;
    if rendered != [] && rendered[0].component.id != r.component.id {
      var k := SetRenderedSays(rendered[1..], r);
      i := k + 1;
      if k < |rendered| - 1 {
        assert rendered[i := r] == [rendered[0]] + rendered[1..][k := r];
      } else {
        assert rendered + [r] == [rendered[0]] + (rendered[1..] + [r]);
      }
    }
  }

  /** Dropping one takes it out, and leaves the others in their order. */
  lemma {:induction false} DropRenderedSays(rendered: seq<Rendered>, id: Text) returns (i: nat)
    ensures i <= |rendered|
    ensures forall j :: 0 <= j < i ==> rendered[j].component.id != id
    ensures if i == |rendered| then DropRendered(rendered, id) == rendered
            else rendered[i].component.id == id
                 && DropRendered(rendered, id) == rendered[..i] + rendered[i + 1..]
  {
    i := 0;
    if rendered != [] && rendered[0].component.id != id {
      var rest := rendered[1..];
      var k := DropRenderedSays(rest, id);
      i := k + 1;
      DropRenderedFirst(rendered, id);
      if k < |rest| {
        WithoutOne(rendered[0], rest, k);
      }
      assert rendered == [rendered[0]] + rest;
    }
  }

  lemma DropRenderedFirst(rendered: seq<Rendered>, id: Text)
    requires rendered != [] && rendered[0].component.id != id
    ensures DropRendered(rendered, id) == [rendered[0]] + DropRendered(rendered[1..], id)
  {
  }

  lemma WithoutOne<T>(first: T, rest: seq<T>, k: nat)
    requires k < |rest|
    ensures var all := [first] + rest;
            all[..k + 1] + all[k + 2..] == [first] + (rest[..k] + rest[k + 1..])
  {
  }

  /**
   * A component that renders is kept with what it renders to. One that does not is dropped; then a
   * channel that draws shows it where it was first drawn, as last drawn; another shows the text that
   * stands in for it, once.
   */
  lemma ComponentTaken(c: Channel, s: State, component: Component, answered: Text -> bool)
    ensures var t := TakeFrame(c, s, UiFrame(false, component), answered);
            var replies, drawn := c.render(component, |s.rendered|), c.draw(component);
            var instead := match component.fallback case None => [] case Some(text) => text;
            if replies != [] then
              t == s.(rendered := SetRendered(s.rendered, Rendered(component, replies)))
            else
              && t.(parts := s.parts, natives := s.natives, asText := s.asText, wroteText := s.wroteText)
                 == s.(rendered := DropRendered(s.rendered, component.id))
              && (c.genui && drawn != [] ==>
                    && t.natives == s.natives[component.id := drawn] && t.asText == s.asText && t.wroteText
                    && t.parts == if component.id in s.natives then s.parts else s.parts + [Drawn(component.id)])
              && (!c.genui && instead != [] && component.id !in s.asText ==>
                    && t.asText == s.asText + {component.id} && t.natives == s.natives && t.wroteText
                    && t.parts == s.parts + [Written([10, 10] + instead + [10, 10])])
              && ((c.genui && drawn == []) || (!c.genui && (instead == [] || component.id in s.asText)) ==>
                    t.parts == s.parts && t.natives == s.natives && t.asText == s.asText
                    && t.wroteText == s.wroteText)
  {
  }

  /** A component still being streamed is not shown yet, and neither is any other frame. */
  lemma OtherwiseTaken(c: Channel, s: State, frame: Frame, answered: Text -> bool)
    ensures match frame
            case UiFrame(true, _) => TakeFrame(c, s, frame, answered) == s
            case OtherFrame => TakeFrame(c, s, frame, answered) == s
            case Elicitation(_, questions) =>
              !c.answers || questions == [] ==> TakeFrame(c, s, frame, answered) == s
            case TextFrame(text) =>
              var spoken := exists i :: 0 <= i < |text| && !IsSpace(text[i]);
              TakeFrame(c, s, frame, answered)
              == s.(wroteText := s.wroteText || spoken, parts := s.parts + [Written(text)])
            case ErrorFrame =>
              TakeFrame(c, s, frame, answered) == s.(failed := true, rendered := [], natives := map[])
            case _ => true
  {
  }
}
