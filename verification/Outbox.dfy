/**
 * Sending a list of messages at most once each. Message `i` takes slot `i` before it goes out; a
 * phase that runs again sends its list again from the start, and skips what already has its slot.
 */
module Outbox {

  /** What becomes of one send that took its slot. */
  datatype Fate =
    | Sent
    /** The host's policy held it back: the slot stays taken. */
    | Withheld
    /** The send failed, the slot was freed, and the phase throws. */
    | Threw
    /** The process died after taking the slot, before sending. */
    | DiedBefore
    /** The process died right after sending. */
    | DiedAfter
    /** The send failed and so did freeing the slot. */
    | Stuck

  /** The slots taken, and what the conversation received: each message with its slot. */
  datatype Box<M> = Box(taken: set<nat>, log: seq<(nat, M)>)

  function Empty<M>(): Box<M> {
    Box({}, [])
  }

  predicate Stops(fate: Fate) {
    fate in {Threw, DiedBefore, DiedAfter, Stuck}
  }

  function One<M>(box: Box<M>, slot: nat, message: M, fate: Fate): Box<M> {
    if slot in box.taken then box
    else
      match fate
      case Threw => box
      case Sent => Box(box.taken + {slot}, box.log + [(slot, message)])
      case DiedAfter => Box(box.taken + {slot}, box.log + [(slot, message)])
      case _ => Box(box.taken + {slot}, box.log)
  }

  /**
   * One send: a slot taken before keeps its message from going out; else the conversation gets it
   * exactly if it went out, whatever happened after, and only a send that gave its slot back leaves it.
   */
  lemma OneSays<M>(box: Box<M>, slot: nat, message: M, fate: Fate)
    ensures var next := One(box, slot, message, fate);
            if slot in box.taken then next == box
            else
              && next.taken == (if fate == Threw then box.taken else box.taken + {slot})
              && next.log == (if fate == Sent || fate == DiedAfter then box.log + [(slot, message)] else box.log)
    ensures Stops(fate) <==> fate != Sent && fate != Withheld
  {
  }

  /** Sends `messages` from the `i`-th on; `fates(i)` is what becomes of the `i`-th if it goes out. */
  function Pass<M>(box: Box<M>, messages: seq<M>, i: nat, fates: nat -> Fate): Box<M>
    requires i <= |messages|
    decreases |messages| - i
  {
    if i == |messages| then box
    else
      var next := One(box, i, messages[i], fates(i));
      if i !in box.taken && Stops(fates(i)) then next else Pass(next, messages, i + 1, fates)
  }

  /** Whether the pass got to the end of its list. */
  predicate Completes<M>(box: Box<M>, messages: seq<M>, i: nat, fates: nat -> Fate)
    requires i <= |messages|
    decreases |messages| - i
  {
    i == |messages|
    || (!(i !in box.taken && Stops(fates(i)))
        && Completes(One(box, i, messages[i], fates(i)), messages, i + 1, fates))
  }

  /** A pass goes from slot to slot, until a send of its own stops it or its list is through. */
  lemma {:induction false} PassSays<M>(box: Box<M>, messages: seq<M>, i: nat, fates: nat -> Fate)
    requires i <= |messages|
    ensures i == |messages| ==> Pass(box, messages, i, fates) == box && Completes(box, messages, i, fates)
    ensures i < |messages| ==>
              var next := One(box, i, messages[i], fates(i));
              var stopped := i !in box.taken && fates(i) != Sent && fates(i) != Withheld;
              && Pass(box, messages, i, fates) == (if stopped then next else Pass(next, messages, i + 1, fates))
              && (Completes(box, messages, i, fates) <==> !stopped && Completes(next, messages, i + 1, fates))
  {
  }

  class Sender<M> {
    /** The next slot this run of the phase will ask for. */
    var next: nat
    var box: Box<M>

    constructor (box: Box<M>)
      ensures this.box == box && next == 0
    {
      this.box, next := box, 0;
    }

    /** Sends one message, unless its slot was taken before; `threw` stops the run. */
    method Send(message: M, fate: Fate) returns (threw: bool)
      modifies this
      ensures next == old(next) + 1
      ensures box == One(old(box), old(next), message, fate)
      ensures threw <==> old(next) !in old(box).taken && Stops(fate)
    {
      var slot := next;
      next := next + 1;
      if slot in box.taken {
        return false;
      }
      box := Box(box.taken + {slot}, box.log);
      match fate {
        case Sent => box := Box(box.taken, box.log + [(slot, message)]);
        case Withheld =>
        case Threw => box := Box(box.taken - {slot}, box.log);
        case DiedBefore =>
        case DiedAfter => box := Box(box.taken, box.log + [(slot, message)]);
        case Stuck =>
      }
      threw := Stops(fate);
    }

    /** Sends a whole list, until something stops it. */
    method SendAll(messages: seq<M>, fates: nat -> Fate) returns (completed: bool)
      requires next == 0
      modifies this
      ensures box == Pass(old(box), messages, 0, fates)
      ensures completed <==> Completes(old(box), messages, 0, fates)
    {
      for i := 0 to |messages|
        invariant next == i
        invariant Pass(old(box), messages, 0, fates) == Pass(box, messages, i, fates)
        invariant Completes(old(box), messages, 0, fates) <==> Completes(box, messages, i, fates)
      {
        var threw := Send(messages[i], fates(i));
        if threw {
          return false;
        }
      }
      completed := true;
    }
  }

  // ----- What the conversation receives -----

  /** The slots taken are the first `n`; the log holds some of their messages, in order. */
  ghost predicate InOrder<M>(box: Box<M>, list: seq<M>, n: nat) {
    && n <= |list|
    && (forall i: nat :: i in box.taken <==> i < n)
    && (forall k :: 0 <= k < |box.log| ==> box.log[k].0 < n && box.log[k].1 == list[box.log[k].0])
    && (forall j, k :: 0 <= j < k < |box.log| ==> box.log[j].0 < box.log[k].0)
  }

  /** One pass over a prefix of the list keeps the log an in-order part of it, without duplicates. */
  lemma {:induction false} PassInOrder<M>(box: Box<M>, messages: seq<M>, i: nat, fates: nat -> Fate,
                                          list: seq<M>, n: nat)
    returns (m: nat)
    requires InOrder(box, list, n) && messages <= list
    requires i <= |messages| && (i <= n)
    ensures InOrder(Pass(box, messages, i, fates), list, m) && n <= m
    ensures Completes(box, messages, i, fates) ==> |messages| <= m
    decreases |messages| - i
  {
    m := n;
    if i < |messages| {
      var next := One(box, i, messages[i], fates(i));
      if i in box.taken {
        m := PassInOrder(next, messages, i + 1, fates, list, n);
      } else if fates(i) != Threw {
        assert i == n;
        assert InOrder(next, list, n + 1);
        if Stops(fates(i)) {
          m := n + 1;
        } else {
          m := PassInOrder(next, messages, i + 1, fates, list, n + 1);
        }
      }
    }
  }

  predicate Faithful(fates: nat -> Fate, n: nat) {
    forall i :: 0 <= i < n ==> fates(i) in {Sent, Threw}
  }

  /** The log is exactly the first `n` messages. */
  ghost predicate Exactly<M>(box: Box<M>, list: seq<M>, n: nat) {
    && n <= |list|
    && (forall i: nat :: i in box.taken <==> i < n)
    && |box.log| == n
    && (forall k :: 0 <= k < n ==> box.log[k] == (k, list[k]))
  }

  /** Without crashes and policies, what a pass delivers is exactly the first so many messages. */
  lemma {:induction false} PassExactly<M>(box: Box<M>, messages: seq<M>, i: nat, fates: nat -> Fate,
                                          list: seq<M>, n: nat)
    returns (m: nat)
    requires Exactly(box, list, n) && messages <= list
    requires i <= |messages| && i <= n && Faithful(fates, |messages|)
    ensures Exactly(Pass(box, messages, i, fates), list, m) && n <= m
    ensures Completes(box, messages, i, fates) ==> |messages| <= m
    decreases |messages| - i
  {
    m := n;
    if i < |messages| {
      var next := One(box, i, messages[i], fates(i));
      if i in box.taken {
        m := PassExactly(next, messages, i + 1, fates, list, n);
      } else if fates(i) != Threw {
        assert i == n;
        assert Exactly(next, list, n + 1);
        m := PassExactly(next, messages, i + 1, fates, list, n + 1);
      }
    }
  }
}
