/**
 * A turn's batch of reads over the journal, its invocations settling in whatever order they like: each
 * has its position from being launched, and records what it returned there when it comes back. What the
 * journal ends up with, and what the turn makes of it, does not depend on that order.
 */
module Batches {
  import opened Common
  import opened Journal
  import ParallelTasks

  /** What the checkpoint at `p` answers: the journal's entry, else the body's, unless the process dies. */
  function AnswerAt(e: Process, p: nat, name: Name): Option<Value> {
    if p in e.journal then Some(e.journal[p].value)
    else if e.alive(p) then Some(e.world(p, name))
    else None
  }

  lemma {:induction false} InvocationAnswers(e: Process, h: H, claimed: seq<Settled>, i: nat)
    requires i < |claimed|
    ensures InvokeAll(e, h, claimed).1[i] == AnswerAt(e, |h.trace| + i, Tool(claimed[i].id))
    decreases |claimed|
  {
    InvokeFirst(e, h, claimed);
    var first := Ask(e, h, Tool(claimed[0].id));
    AskTrace(e, h, Tool(claimed[0].id));
    if i > 0 {
      InvocationAnswers(e, first.h, claimed[1..], i - 1);
      assert InvokeAll(e, h, claimed).1[i] == InvokeAll(e, h, claimed).1[1..][i - 1];
    }
  }

  function Lookup(journal: map<nat, Entry>, p: nat): Option<Entry> {
    if p in journal then Some(journal[p]) else None
  }

  lemma SameLookups(a: map<nat, Entry>, b: map<nat, Entry>)
    requires forall p: nat :: Lookup(a, p) == Lookup(b, p)
    ensures a == b
  {
    forall p: nat ensures p in a <==> p in b {
      assert Lookup(a, p) == Lookup(b, p);
    }
    forall p | p in a ensures a[p] == b[p] {
      assert Lookup(a, p) == Lookup(b, p);
    }
  }

  /** What `p` holds while the invocations settle: what it held, or what came back there. */
  function GainedAt(journal: map<nat, Entry>, base: nat, claimed: seq<Settled>,
                    results: map<nat, Option<Value>>, p: nat): Option<Entry>
  {
    if p in journal then Some(journal[p])
    else if base <= p < base + |claimed| && p - base in results && results[p - base].Some?
    then Some(Entry(Tool(claimed[p - base].id), results[p - base].value))
    else None
  }

  ghost predicate Gains(journal: map<nat, Entry>, base: nat, claimed: seq<Settled>,
                        results: map<nat, Option<Value>>, after: map<nat, Entry>)
  {
    forall p: nat :: Lookup(after, p) == GainedAt(journal, base, claimed, results, p)
  }

  /** Everything came back, or never will: what is at `p` is what the block of positions records. */
  lemma GainedIsRecorded(journal: map<nat, Entry>, trace: seq<Asked>, claimed: seq<Settled>,
                         outcomes: seq<Option<Value>>, results: map<nat, Option<Value>>, p: nat)
    requires |outcomes| == |claimed|
    requires forall i :: 0 <= i < |claimed| ==> i in results && results[i] == outcomes[i]
    ensures GainedAt(Recorded(journal, trace), |trace|, claimed, results, p)
            == Lookup(Recorded(journal, trace + Invocations(claimed, outcomes)), p)
  {
    var block := Invocations(claimed, outcomes);
    if p < |trace| {
      assert (trace + block)[p] == trace[p];
    } else if p < |trace| + |claimed| {
      assert (trace + block)[p] == block[p - |trace|];
    }
  }

  lemma AllGained(journal: map<nat, Entry>, trace: seq<Asked>, claimed: seq<Settled>,
                  outcomes: seq<Option<Value>>, results: map<nat, Option<Value>>, after: map<nat, Entry>)
    requires |outcomes| == |claimed|
    requires forall i :: 0 <= i < |claimed| ==> i in results && results[i] == outcomes[i]
    requires Gains(Recorded(journal, trace), |trace|, claimed, results, after)
    ensures after == Recorded(journal, trace + Invocations(claimed, outcomes))
  {
    forall p: nat
      ensures Lookup(after, p) == Lookup(Recorded(journal, trace + Invocations(claimed, outcomes)), p)
    {
      GainedIsRecorded(journal, trace, claimed, outcomes, results, p);
    }
    SameLookups(after, Recorded(journal, trace + Invocations(claimed, outcomes)));
  }

  lemma GainsOne(journal: map<nat, Entry>, base: nat, claimed: seq<Settled>,
                 results: map<nat, Option<Value>>, after: map<nat, Entry>, i: nat, answer: Option<Value>)
    requires Gains(journal, base, claimed, results, after) && i < |claimed|
    requires i in results ==> results[i] == answer
    ensures Gains(journal, base, claimed, results[i := answer],
                  if answer.Some? && base + i !in journal
                  then after[base + i := Entry(Tool(claimed[i].id), answer.value)] else after)
  {
    var next := if answer.Some? && base + i !in journal
                then after[base + i := Entry(Tool(claimed[i].id), answer.value)] else after;
    forall p: nat ensures Lookup(next, p) == GainedAt(journal, base, claimed, results[i := answer], p) {
      assert Lookup(after, p) == GainedAt(journal, base, claimed, results, p);
    }
  }

  /** The invocations come back in `order`, each recording its answer at its own position. */
  method ComeBack(e: Process, base: nat, claimed: seq<Settled>, order: seq<nat>,
                  before: map<nat, Entry>, ghost all: seq<Option<Value>>)
    returns (results: map<nat, Option<Value>>, journal: map<nat, Entry>)
    requires ParallelTasks.IsCompletionOrder(order, |claimed|) && |all| == |claimed|
    requires forall i :: 0 <= i < |all| ==> all[i] == AnswerAt(e, base + i, Tool(claimed[i].id))
    ensures forall i :: 0 <= i < |claimed| ==> i in results && results[i] == all[i]
    ensures Gains(before, base, claimed, results, journal)
  {
    results, journal := map[], before;
    for k := 0 to |order|
      invariant forall i :: i in results <==> i in order[..k]
      invariant forall i :: i in results ==> i < |claimed| && results[i] == all[i]
      invariant Gains(before, base, claimed, results, journal)
    {
      var i := order[k];
      assert order[..k + 1] == order[..k] + [i];
      var answer := AnswerAt(e, base + i, Tool(claimed[i].id));
      GainsOne(before, base, claimed, results, journal, i, answer);
      if answer.Some? && base + i !in before {
        journal := journal[base + i := Entry(Tool(claimed[i].id), answer.value)];
      }
      results := results[i := answer];
    }
    assert order[..|order|] == order;
  }

  /**
   * Settles the invocations in `order`: what each returned, and the journal with what came back. Neither
   * depends on the order.
   */
  method SettleInvocations(e: Process, h: H, claimed: seq<Settled>, order: seq<nat>)
    returns (outcomes: seq<Option<Value>>, journal: map<nat, Entry>)
    requires ParallelTasks.IsCompletionOrder(order, |claimed|)
    ensures outcomes == InvokeAll(e, h, claimed).1
    ensures journal == Recorded(e.journal, InvokeAll(e, h, claimed).0.trace)
  {
    ghost var all := InvokeAll(e, h, claimed).1;
    forall i | 0 <= i < |claimed| ensures all[i] == AnswerAt(e, |h.trace| + i, Tool(claimed[i].id)) {
      InvocationAnswers(e, h, claimed, i);
    }
    var results;
    results, journal := ComeBack(e, |h.trace|, claimed, order, Recorded(e.journal, h.trace), all);
    AllGained(e.journal, h.trace, claimed, all, results, journal);
    InvocationPositions(e, h, claimed);
    outcomes := seq(|claimed|, i requires 0 <= i < |claimed| && i in results => results[i]);
    assert outcomes == all;
  }

  lemma RecordedAgain(journal: map<nat, Entry>, shorter: seq<Asked>, longer: seq<Asked>)
    requires shorter <= longer
    ensures Recorded(Recorded(journal, shorter), longer) == Recorded(journal, longer)
  {
    assert forall p :: 0 <= p < |shorter| ==> shorter[p] == longer[p];
  }

  /**
   * Runs a batch whose invocations settle in `order`: the turn goes on the same way, and the journal
   * holds the same, whatever the order.
   */
  method InvokeTogether(e: Process, h: H, claimed: seq<Settled>, order: seq<nat>)
    returns (r: R<bool>, journal: map<nat, Entry>)
    requires ParallelTasks.IsCompletionOrder(order, |claimed|)
    ensures r == Together(e, h, claimed)
    ensures journal == Recorded(e.journal, r.h.trace)
  {
    var noted := NotedAll(h, claimed);
    var outcomes, settled := SettleInvocations(e, noted, claimed, order);
    InvocationPositions(e, noted, claimed);
    var launched := H(noted.trace + Invocations(claimed, outcomes), noted.branches);
    r := if None in outcomes then Stop(launched) else RecordAll(e, launched, claimed, outcomes);
    RecordedAgain(e.journal, launched.trace, r.h.trace);
    journal := Recorded(settled, r.h.trace);
  }
}
