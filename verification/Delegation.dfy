/**
 * How far agents may hand work to one another. Every hop is checked against the chain that led to it;
 * a child run gets its parent's chain with the parent's own name appended, one level deeper.
 */
module Delegation {
  import opened Common
  import opened Sorting

  const DEFAULT_MAX_APPEARANCES := 1
  const MAX_DEPTH := 5

  /** What the host configured, each limit with its default. */
  datatype Limits = Limits(appearances: Option<int>, depth: Option<int>)
  {
    function MaxAppearances(): int {
      if appearances.Some? then appearances.value else DEFAULT_MAX_APPEARANCES
    }

    function MaxDepth(): int {
      if depth.Some? then depth.value else MAX_DEPTH
    }
  }

  /** A run: the agent running, the named agents that led to it, and how deep it is. */
  datatype Run = Run(agentName: Option<Text>, path: seq<Text>, depth: nat)

  datatype Refusal = Cycle(chain: seq<Text>, times: nat) | TooDeep(limit: int)

  /** The chain with the running agent at its end. */
  function Ancestry(run: Run): seq<Text> {
    run.path + (if run.agentName.Some? then [run.agentName.value] else [])
  }

  function Appearances(chain: seq<Text>, agent: Text): nat {
    if chain == [] then 0
    else Appearances(chain[..|chain| - 1], agent) + (if chain[|chain| - 1] == agent then 1 else 0)
  }

  /** Why the hop must not happen: a cycle is named before a depth. */
  function RefusalOf(limits: Limits, run: Run, target: Text): Option<Refusal> {
    var times := Appearances(Ancestry(run), target);
    if times >= limits.MaxAppearances() then Some(Cycle(Ancestry(run) + [target], times + 1))
    else if run.depth >= limits.MaxDepth() then Some(TooDeep(limits.MaxDepth()))
    else None
  }

  function Child(run: Run, target: Text): Run {
    Run(Some(target), Ancestry(run), run.depth + 1)
  }

  /** Where a chain of hops leads. */
  function Reached(root: Run, hops: seq<Text>): Run {
    if hops == [] then root else Child(Reached(root, hops[..|hops| - 1]), hops[|hops| - 1])
  }

  /** Every hop of the chain was let through. */
  ghost predicate LetThrough(limits: Limits, root: Run, hops: seq<Text>) {
    hops == []
    || (LetThrough(limits, root, hops[..|hops| - 1])
        && RefusalOf(limits, Reached(root, hops[..|hops| - 1]), hops[|hops| - 1]).None?)
  }

  /** A turn nobody delegated. */
  function Root(agentName: Option<Text>): Run {
    Run(agentName, [], 0)
  }

  lemma AppearancesMore(chain: seq<Text>, name: Text, agent: Text)
    ensures Appearances(chain + [name], agent)
            == Appearances(chain, agent) + (if name == agent then 1 else 0)
  {
    assert (chain + [name])[..|chain|] == chain;
  }

  /** On a chain the checks let through, no agent occurs more often than allowed. */
  lemma {:induction false} AppearsAtMost(limits: Limits, name: Option<Text>, hops: seq<Text>, agent: Text)
    requires limits.MaxAppearances() >= 1 && LetThrough(limits, Root(name), hops)
    ensures Appearances(Ancestry(Reached(Root(name), hops)), agent) <= limits.MaxAppearances()
  {
    if hops == [] {
      var chain := Ancestry(Root(name));
      if name.Some? {
        assert chain == [] + [name.value];
        AppearancesMore([], name.value, agent);
      }
    } else {
      var front, last := hops[..|hops| - 1], hops[|hops| - 1];
      var run := Reached(Root(name), front);
      AppearsAtMost(limits, name, front, agent);
      AppearancesMore(Ancestry(run), last, agent);
    }
  }

  // ----- When a hop is refused -----

  lemma {:induction false} AppearancesCount(chain: seq<Text>, agent: Text)
    ensures Appearances(chain, agent) == multiset(chain)[agent]
  {
    if chain != [] {
      var front, last := chain[..|chain| - 1], chain[|chain| - 1];
      AppearancesCount(front, agent);
      assert chain == front + [last];
    }
  }

  /** How often the agent is on the chain that led here, counting the one running. */
  function TimesOn(run: Run, agent: Text): nat {
    multiset(run.path)[agent] + if run.agentName == Some(agent) then 1 else 0
  }

  /**
   * A hop is let through exactly while its target is on the chain less often than allowed, once
   * unless told, and the run is less deep than allowed, five unless told; too many appearances are
   * named first, with the chain as the hop would make it.
   */
  lemma RefusedExactly(limits: Limits, run: Run, target: Text)
    ensures var allowed := match limits.appearances case None => 1 case Some(n) => n;
            var deepest := match limits.depth case None => 5 case Some(n) => n;
            var chain := match run.agentName
                         case None => run.path + [target]
                         case Some(name) => run.path + [name, target];
            RefusalOf(limits, run, target)
            == if TimesOn(run, target) >= allowed then Some(Cycle(chain, TimesOn(run, target) + 1))
               else if run.depth >= deepest then Some(TooDeep(deepest))
               else None
  {
    AppearancesCount(Ancestry(run), target);
    if run.agentName.None? {
      assert run.path + [] == run.path;
    } else {
      assert run.path + [run.agentName.value] + [target] == run.path + [run.agentName.value, target];
    }
  }

  /** A child is one deeper, and its chain is its parent's with the parent's own name behind it. */
  lemma ChildIs(run: Run, target: Text)
    ensures var path := match run.agentName case None => run.path case Some(name) => run.path + [name];
            Child(run, target) == Run(Some(target), path, run.depth + 1)
    ensures Root(run.agentName) == Run(run.agentName, [], 0)
  {
    assert run.path + [] == run.path;
  }

  // ----- Pigeonhole -----

  function NotNamed(agent: Text): Text -> bool {
    (x: Text) => x != agent
  }

  lemma {:induction false} WithoutOne(chain: seq<Text>, agent: Text)
    ensures |Filter(chain, NotNamed(agent))| + Appearances(chain, agent) == |chain|
  {
    if chain != [] {
      var front, last := chain[..|chain| - 1], chain[|chain| - 1];
      WithoutOne(front, agent);
      FilterMore(front, last, NotNamed(agent));
      assert chain == front + [last];
    }
  }

  lemma {:induction false} OthersStay(chain: seq<Text>, agent: Text, other: Text)
    requires other != agent
    ensures Appearances(Filter(chain, NotNamed(agent)), other) == Appearances(chain, other)
  {
    if chain != [] {
      var front, last := chain[..|chain| - 1], chain[|chain| - 1];
      OthersStay(front, agent, other);
      FilterMore(front, last, NotNamed(agent));
      assert chain == front + [last];
      AppearancesMore(front, last, other);
      AppearancesMore(Filter(front, NotNamed(agent)), last, other);
      assert Filter(front, NotNamed(agent)) + [] == Filter(front, NotNamed(agent));
    }
  }

  lemma HeadIsIn(chain: seq<Text>)
    ensures chain != [] ==> chain[0] in chain
  {
  }

  lemma OneLess(k: nat, n: nat)
    requires n > 0
    ensures k * n == k * (n - 1) + k
  {
  }

  lemma RestAppearances(chain: seq<Text>, agent: Text, k: nat)
    requires forall x :: Appearances(chain, x) <= k
    ensures forall x :: Appearances(Filter(chain, NotNamed(agent)), x) <= k
  {
    forall x ensures Appearances(Filter(chain, NotNamed(agent)), x) <= k {
      if x == agent {
        NoneLeft(chain, agent);
      } else {
        OthersStay(chain, agent, x);
      }
    }
  }

  /** A chain over `n` names with each at most `k` times has at most `k * n` of them. */
  lemma {:induction false} Pigeonhole(chain: seq<Text>, names: set<Text>, k: nat)
    requires forall x :: x in chain ==> x in names
    requires forall x :: Appearances(chain, x) <= k
    ensures |chain| <= k * |names|
    decreases |names|
  {
    if names == {} {
      HeadIsIn(chain);
    } else {
      var agent :| agent in names;
      WithoutOne(chain, agent);
      RestAppearances(chain, agent, k);
      Pigeonhole(Filter(chain, NotNamed(agent)), names - {agent}, k);
      OneLess(k, |names|);
    }
  }

  lemma {:induction false} NoneLeft(chain: seq<Text>, agent: Text)
    ensures Appearances(Filter(chain, NotNamed(agent)), agent) == 0
  {
    if chain != [] {
      var front, last := chain[..|chain| - 1], chain[|chain| - 1];
      NoneLeft(front, agent);
      FilterMore(front, last, NotNamed(agent));
      assert chain == front + [last];
      AppearancesMore(Filter(front, NotNamed(agent)), last, agent);
      assert Filter(front, NotNamed(agent)) + [] == Filter(front, NotNamed(agent));
    }
  }

  /**
   * With `k` appearances allowed and N named agents, no chain the checks let through has more than
   * k * N agents on it.
   */
  lemma ChainIsBounded(limits: Limits, name: Option<Text>, hops: seq<Text>, names: set<Text>)
    requires limits.MaxAppearances() >= 1 && LetThrough(limits, Root(name), hops)
    requires forall x :: x in Ancestry(Reached(Root(name), hops)) ==> x in names
    ensures |Ancestry(Reached(Root(name), hops))| <= limits.MaxAppearances() * |names|
  {
    var chain := Ancestry(Reached(Root(name), hops));
    forall x ensures Appearances(chain, x) <= limits.MaxAppearances() {
      AppearsAtMost(limits, name, hops, x);
    }
    Pigeonhole(chain, names, limits.MaxAppearances());
  }

  /** Nor does one nest deeper than the depth limit; its depth is its number of hops. */
  lemma {:induction false} DepthIsBounded(limits: Limits, root: Run, hops: seq<Text>)
    requires LetThrough(limits, root, hops)
    ensures Reached(root, hops).depth == root.depth + |hops|
    ensures hops != [] ==> Reached(root, hops).depth <= limits.MaxDepth()
  {
    if hops != [] {
      var front, last := hops[..|hops| - 1], hops[|hops| - 1];
      DepthIsBounded(limits, root, front);
    }
  }

  /** With one appearance allowed, an agent cannot hand work to itself, at any depth. */
  lemma SelfHandoffRefused(limits: Limits, run: Run, agent: Text)
    requires limits.MaxAppearances() <= 1 && run.agentName == Some(agent)
    ensures RefusalOf(limits, run, agent).Some? && RefusalOf(limits, run, agent).value.Cycle?
  {
    AppearancesMore(run.path, agent, agent);
  }

  /** Nor can one hand it back to any agent above it: the hop that would close the cycle is refused. */
  lemma HandingBackRefused(limits: Limits, run: Run, back: Text)
    requires limits.MaxAppearances() <= 1 && back in Ancestry(run)
    ensures RefusalOf(limits, run, back).Some? && RefusalOf(limits, run, back).value.Cycle?
  {
    Appears(Ancestry(run), back);
  }

  lemma {:induction false} Appears(chain: seq<Text>, agent: Text)
    requires agent in chain
    ensures Appearances(chain, agent) >= 1
  {
    var front, last := chain[..|chain| - 1], chain[|chain| - 1];
    assert chain == front + [last];
    if last != agent {
      Appears(front, agent);
    }
  }

  /** A mutual handoff is refused at the hop that closes it. */
  lemma MutualHandoffRefused(limits: Limits, run: Run, other: Text)
    requires limits.MaxAppearances() <= 1 && run.agentName.Some?
    ensures RefusalOf(limits, Child(run, other), run.agentName.value).Some?
    ensures RefusalOf(limits, Child(run, other), run.agentName.value).value.Cycle?
  {
    assert Ancestry(run)[|run.path|] == run.agentName.value;
    assert Ancestry(Child(run, other))[|run.path|] == run.agentName.value;
    HandingBackRefused(limits, Child(run, other), run.agentName.value);
  }
}
