/**
 * What the phases of a channel's jobs run in: attempts with growing delays between them, and, in one
 * process, a chain of jobs per conversation.
 */
module Executor {
  import opened Common

  // ----- Attempts -----

  datatype Attempt<T> = Returned(value: T) | Threw(retryable: bool)

  const DEFAULT_ATTEMPTS := 3
  const DEFAULT_BACKOFF_MS := 1000.0
  const DEFAULT_MAX_BACKOFF_MS := 30000.0

  datatype Options = Options(attempts: Option<int>, backoffMs: Option<real>, maxBackoffMs: Option<real>)

  function OrElse<T>(given: Option<T>, default: T): T {
    if given.Some? then given.value else default
  }

  function Attempts(o: Options): (n: nat)
    ensures n >= 1
  {
    Max(1, OrElse(o.attempts, DEFAULT_ATTEMPTS))
  }

  function MaxReal(a: real, b: real): real {
    if a < b then b else a
  }

  function MinReal(a: real, b: real): real {
    if a < b then a else b
  }

  /** `2 ** n` */
  function PowerOfTwo(n: nat): (r: real)
    ensures r >= 1.0
  {
    if n == 0 then 1.0 else 2.0 * PowerOfTwo(n - 1)
  }

  function Base(o: Options): real {
    MaxReal(0.0, OrElse(o.backoffMs, DEFAULT_BACKOFF_MS))
  }

  function Longest(o: Options): real {
    MaxReal(Base(o), OrElse(o.maxBackoffMs, DEFAULT_MAX_BACKOFF_MS))
  }

  /** Before jitter, the delay after attempt `n`. */
  function Delay(o: Options, n: nat): (r: real)
    requires n > 0
  {
    MinReal(Longest(o), Base(o) * PowerOfTwo(n - 1))
  }

  lemma DelayGrows(o: Options, n: nat)
    requires n > 0
    ensures Delay(o, n) <= Delay(o, n + 1)
  {
    var power := PowerOfTwo(n - 1);
    assert PowerOfTwo(n) == 2.0 * power;
    assert Delay(o, n + 1) == MinReal(Longest(o), Base(o) * (2.0 * power));
  }

  /** Delays grow up to the longest. */
  lemma {:induction false} DelaysGrow(o: Options, n: nat, m: nat)
    requires 0 < n <= m
    ensures Base(o) <= Delay(o, n) <= Delay(o, m) <= Longest(o)
  {
    if n < m {
      DelaysGrow(o, n, m - 1);
      DelayGrows(o, m - 1);
    } else {
      AtLeast(Base(o), PowerOfTwo(n - 1));
    }
  }

  /**
   * The first delay is the base, one second unless told, and each next one twice the last, up to the
   * longest, half a minute unless told and never less than the base.
   */
  lemma DelaysDouble(o: Options, n: nat)
    requires n > 0
    ensures var base := match o.backoffMs
                        case None => 1000.0
                        case Some(ms) => if ms < 0.0 then 0.0 else ms;
            var given := match o.maxBackoffMs case None => 30000.0 case Some(ms) => ms;
            var longest := if given < base then base else given;
            var twice := 2.0 * Delay(o, n);
            && Delay(o, 1) == base
            && Delay(o, n + 1) == if twice < longest then twice else longest
  {
    var power := PowerOfTwo(n - 1);
    assert PowerOfTwo(n) == 2.0 * power;
    assert Base(o) * (2.0 * power) == 2.0 * (Base(o) * power);
    assert PowerOfTwo(0) == 1.0;
  }

  /** At least one attempt is made; three unless told. */
  lemma AttemptsAre(o: Options)
    ensures Attempts(o) == match o.attempts case None => 3 case Some(n) => if n < 1 then 1 else n
  {
  }

  lemma AtLeast(base: real, power: real)
    requires base >= 0.0 && power >= 1.0
    ensures base <= base * power
  {
  }

  /** At most the delay after its attempt, and at least half of it. */
  predicate Jittered(o: Options, n: nat, wait: real)
    requires n > 0
  {
    Delay(o, n) / 2.0 <= wait <= Delay(o, n)
  }

  lemma JitterFits(o: Options, n: nat, jitter: real)
    requires n > 0 && 0.0 <= jitter < 1.0
    ensures Jittered(o, n, Delay(o, n) * (0.5 + jitter / 2.0))
  {
    DelaysGrow(o, n, n);
  }

  /** Nothing but retryable failures so far. */
  predicate OnlyRetryable<T>(fn: nat -> Attempt<T>, n: nat) {
    forall k :: 0 <= k < n ==> fn(k) == Threw(true)
  }

  /**
   * Runs `fn` (`fn(k)` is what its `k`-th run comes to) until it returns, its attempts are used up, or
   * it fails for good; `jitter` is the random number drawn before each further attempt.
   */
  method WithRetries<T>(fn: nat -> Attempt<T>, o: Options, jitter: nat -> real)
    returns (result: Attempt<T>, runs: nat, waits: seq<real>)
    requires forall k :: 0.0 <= jitter(k) < 1.0
    ensures 1 <= runs <= Attempts(o) && |waits| == runs - 1
    ensures result == fn(runs - 1) && forall k :: 0 <= k < runs - 1 ==> fn(k) == Threw(true)
    ensures result.Returned? || !result.retryable || runs == Attempts(o)
    ensures forall k :: 0 <= k < |waits| ==> Jittered(o, k + 1, waits[k])
  {
    var attempt := 1;
    waits := [];
    while true
      invariant 1 <= attempt <= Attempts(o) && |waits| == attempt - 1
      invariant OnlyRetryable(fn, attempt - 1)
      invariant forall k :: 0 <= k < |waits| ==> Jittered(o, k + 1, waits[k])
      decreases Attempts(o) - attempt
    {
      result := fn(attempt - 1);
      if result.Returned? || attempt >= Attempts(o) || !result.retryable {
        return result, attempt, waits;
      }
      var wait := Delay(o, attempt) * (0.5 + jitter(attempt) / 2.0);
      JitterFits(o, attempt, jitter(attempt));
      waits := waits + [wait];
      attempt := attempt + 1;
    }
  }

  // ----- One conversation's jobs, in one process -----

  datatype Stage = Waiting | Running | Settled

  /** A job, and the one whose promise it was chained behind. */
  datatype Job = Job(key: Text, previous: Option<nat>, stage: Stage)

  /** Every job so far in the order they were enqueued, and the end of each conversation's chain. */
  datatype Chains = Chains(jobs: seq<Job>, chains: map<Text, nat>)

  datatype Event =
    | Enqueue(key: Text)
    | Begin(job: nat)
    | End(job: nat)
    | Forget(job: nat)

  /** Whether an event can happen: a job begins once what it waits for is settled. */
  predicate Enabled(c: Chains, e: Event) {
    match e
    case Enqueue(_) => true
    case Begin(i) =>
      && i < |c.jobs| && c.jobs[i].stage == Waiting
      && (c.jobs[i].previous.Some? ==>
            c.jobs[i].previous.value < |c.jobs| && c.jobs[c.jobs[i].previous.value].stage == Settled)
    case End(i) => i < |c.jobs| && c.jobs[i].stage == Running
    case Forget(i) => i < |c.jobs| && c.jobs[i].stage == Settled
  }

  function SetStage(c: Chains, i: nat, stage: Stage): Chains
    requires i < |c.jobs|
  {
    c.(jobs := c.jobs[i := c.jobs[i].(stage := stage)])
  }

  function Happens(c: Chains, e: Event): Chains
    requires Enabled(c, e)
  {
    match e
    case Enqueue(key) =>
      var previous := if key in c.chains then Some(c.chains[key]) else None;
      Chains(c.jobs + [Job(key, previous, Waiting)], c.chains[key := |c.jobs|])
    case Begin(i) => SetStage(c, i, Running)
    case End(i) => SetStage(c, i, Settled)
    case Forget(i) =>
      var key := c.jobs[i].key;
      if key in c.chains && c.chains[key] == i then c.(chains := c.chains - {key}) else c
  }

  ghost predicate Reaches(c: Chains, events: seq<Event>, last: Chains)
    decreases |events|
  {
    if events == [] then last == c
    else Enabled(c, events[0]) && Reaches(Happens(c, events[0]), events[1..], last)
  }

  const IDLE := Chains([], map[])

  predicate SettledIn(c: Chains, i: nat) {
    i < |c.jobs| && c.jobs[i].stage == Settled
  }

  /** A job of the conversation is settled, or the chain's end is it or a later one. */
  predicate Kept(c: Chains, i: nat)
    requires i < |c.jobs|
  {
    var key := c.jobs[i].key;
    SettledIn(c, i) || (key in c.chains && i <= c.chains[key] < |c.jobs| && c.jobs[c.chains[key]].key == key)
  }

  /** Of two jobs of one conversation, the later one has not begun unless the earlier one is settled. */
  predicate Ordered(c: Chains, i: nat, j: nat)
    requires i < j < |c.jobs|
  {
    c.jobs[i].key == c.jobs[j].key && c.jobs[j].stage != Waiting ==> SettledIn(c, i)
  }

  /** What an earlier job of the same conversation is to a waiting one: settled, or waited for. */
  predicate WaitedFor(c: Chains, i: nat, j: nat)
    requires i < j < |c.jobs|
  {
    c.jobs[i].key == c.jobs[j].key ==>
      || SettledIn(c, i)
      || (c.jobs[j].previous.Some? && i <= c.jobs[j].previous.value < j
          && c.jobs[c.jobs[j].previous.value].key == c.jobs[j].key)
  }

  ghost predicate InOrder(c: Chains) {
    && (forall i :: 0 <= i < |c.jobs| ==> Kept(c, i))
    && (forall i, j :: 0 <= i < j < |c.jobs| ==> Ordered(c, i, j))
    && (forall i, j :: 0 <= i < j < |c.jobs| ==> WaitedFor(c, i, j))
  }

  lemma EnqueueKeepsOrder(c: Chains, key: Text)
    requires InOrder(c)
    ensures InOrder(Happens(c, Enqueue(key)))
  {
    var d := Happens(c, Enqueue(key));
    forall i | 0 <= i < |d.jobs| ensures Kept(d, i) {
      if i < |c.jobs| {
        assert Kept(c, i);
      }
    }
    forall i, j | 0 <= i < j < |d.jobs| ensures Ordered(d, i, j) && WaitedFor(d, i, j) {
      assert Kept(c, i);
      if j < |c.jobs| {
        assert Ordered(c, i, j) && WaitedFor(c, i, j);
      }
    }
  }

  lemma BeginKeepsOrder(c: Chains, n: nat)
    requires InOrder(c) && Enabled(c, Begin(n))
    ensures InOrder(Happens(c, Begin(n)))
  {
    var d := Happens(c, Begin(n));
    forall i | 0 <= i < |d.jobs| ensures Kept(d, i) {
      assert Kept(c, i);
    }
    forall i, j | 0 <= i < j < |d.jobs| ensures Ordered(d, i, j) && WaitedFor(d, i, j) {
      assert Ordered(c, i, j) && WaitedFor(c, i, j);
      if j == n && c.jobs[j].previous.Some? && i < c.jobs[j].previous.value < j {
        assert Ordered(c, i, c.jobs[j].previous.value);
      }
    }
  }

  lemma EndKeepsOrder(c: Chains, n: nat)
    requires InOrder(c) && Enabled(c, End(n))
    ensures InOrder(Happens(c, End(n)))
  {
    var d := Happens(c, End(n));
    forall i | 0 <= i < |d.jobs| ensures Kept(d, i) {
      assert Kept(c, i);
    }
    forall i, j | 0 <= i < j < |d.jobs| ensures Ordered(d, i, j) && WaitedFor(d, i, j) {
      assert Ordered(c, i, j) && WaitedFor(c, i, j);
    }
  }

  /** Forgetting a chain whose end is settled loses nothing: all of its jobs are settled by then. */
  lemma ForgetKeepsOrder(c: Chains, n: nat)
    requires InOrder(c) && Enabled(c, Forget(n))
    ensures InOrder(Happens(c, Forget(n)))
  {
    var d := Happens(c, Forget(n));
    forall i | 0 <= i < |d.jobs| ensures Kept(d, i) {
      assert Kept(c, i);
      if i < n {
        assert Ordered(c, i, n);
      }
    }
    forall i, j | 0 <= i < j < |d.jobs| ensures Ordered(d, i, j) && WaitedFor(d, i, j) {
      assert Ordered(c, i, j) && WaitedFor(c, i, j);
    }
  }

  lemma {:induction false} StaysInOrder(c: Chains, events: seq<Event>, last: Chains)
    requires InOrder(c) && Reaches(c, events, last)
    ensures InOrder(last)
    decreases |events|
  {
    if events != [] {
      match events[0] {
        case Enqueue(key) => EnqueueKeepsOrder(c, key);
        case Begin(n) => BeginKeepsOrder(c, n);
        case End(n) => EndKeepsOrder(c, n);
        case Forget(n) => ForgetKeepsOrder(c, n);
      }
      StaysInOrder(Happens(c, events[0]), events[1..], last);
    }
  }

  /**
   * However jobs are enqueued, begin, end, and have their chains forgotten: of one conversation's jobs
   * at most one runs at a time, and a job has not begun before every earlier one settled.
   */
  lemma OneAtATimeInOrder(events: seq<Event>, last: Chains, i: nat, j: nat)
    requires Reaches(IDLE, events, last) && i < j < |last.jobs| && last.jobs[i].key == last.jobs[j].key
    ensures last.jobs[j].stage != Waiting ==> last.jobs[i].stage == Settled
    ensures !(last.jobs[i].stage == Running && last.jobs[j].stage == Running)
  {
    StaysInOrder(IDLE, events, last);
    assert Ordered(last, i, j);
  }

  // ----- Nothing waits for ever -----

  /** What a job waits for came before it. */
  ghost predicate LooksBack(c: Chains) {
    && (forall i :: 0 <= i < |c.jobs| && c.jobs[i].previous.Some? ==> c.jobs[i].previous.value < i)
    && (forall key :: key in c.chains ==> c.chains[key] < |c.jobs|)
  }

  lemma {:induction false} StillLooksBack(c: Chains, events: seq<Event>, last: Chains)
    requires LooksBack(c) && Reaches(c, events, last)
    ensures LooksBack(last)
    decreases |events|
  {
    if events != [] {
      StillLooksBack(Happens(c, events[0]), events[1..], last);
    }
  }

  /** The first job that is not settled. */
  lemma {:induction false} FirstUnsettled(c: Chains, n: nat) returns (i: nat)
    requires n < |c.jobs| && !SettledIn(c, n)
    ensures i <= n && !SettledIn(c, i) && forall j: nat :: j < i ==> SettledIn(c, j)
  {
    i := n;
    if j :| 0 <= j < n && !SettledIn(c, j) {
      i := FirstUnsettled(c, j);
    }
  }

  /**
   * While any job is not settled, one of them can begin or end: the earliest of them, which waits for
   * no other. And what happens to it is what its stage says.
   */
  lemma SomethingCanHappen(events: seq<Event>, last: Chains, n: nat) returns (i: nat)
    requires Reaches(IDLE, events, last) && n < |last.jobs| && last.jobs[n].stage != Settled
    ensures i <= n
    ensures if last.jobs[i].stage == Waiting then
              Enabled(last, Begin(i))
              && Happens(last, Begin(i)).jobs == last.jobs[i := last.jobs[i].(stage := Running)]
            else
              last.jobs[i].stage == Running && Enabled(last, End(i))
              && Happens(last, End(i)).jobs == last.jobs[i := last.jobs[i].(stage := Settled)]
  {
    StillLooksBack(IDLE, events, last);
    i := FirstUnsettled(last, n);
    if last.jobs[i].previous.Some? {
      assert SettledIn(last, last.jobs[i].previous.value);
    }
  }

  /** A job enqueued waits for the end of its conversation's chain, if there is one, and becomes it. */
  lemma EnqueuedLast(c: Chains, key: Text)
    ensures Enabled(c, Enqueue(key))
    ensures var d := Happens(c, Enqueue(key));
            && |d.jobs| == |c.jobs| + 1 && d.jobs[..|c.jobs|] == c.jobs
            && d.jobs[|c.jobs|].key == key && d.jobs[|c.jobs|].stage == Waiting
            && (d.jobs[|c.jobs|].previous.Some? <==> key in c.chains)
            && (key in c.chains ==> d.jobs[|c.jobs|].previous.value == c.chains[key])
            && d.chains.Keys == c.chains.Keys + {key} && d.chains[key] == |c.jobs|
            && (forall other :: other in c.chains && other != key ==> d.chains[other] == c.chains[other])
  {
  }

  /** A chain is forgotten once its end is settled and nothing was chained behind it. */
  lemma ForgottenWhenSettled(c: Chains, n: nat)
    requires n < |c.jobs|
    ensures Enabled(c, Forget(n)) <==> c.jobs[n].stage == Settled
    ensures Enabled(c, Forget(n)) ==>
              var d := Happens(c, Forget(n));
              && d.jobs == c.jobs
              && (forall key :: key in d.chains <==>
                    key in c.chains && !(key == c.jobs[n].key && c.chains[key] == n))
              && (forall key :: key in d.chains ==> d.chains[key] == c.chains[key])
  {
  }
}
