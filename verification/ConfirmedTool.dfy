/**
 * Confirming a tool's preview with its token, where a store marks tokens as spent: the token is
 * verified, the tool prepares, the token is claimed, and the tool commits. Any number of confirmations
 * may be under way at once, each may die or throw in between, and the clock moves on meanwhile. A token
 * is its exact text.
 */
module ConfirmedTool {
  import opened Common
  import ConfirmToken

  /**
   * One confirmation of one token, with a store to claim it in: it verified the token and is preparing,
   * it claimed the token and is committing, or it is over.
   */
  datatype Pc = Verified(token: Text) | Committing(token: Text) | Done(token: Text) | Failed | Died

  /** The tokens marked as spent, with when they run out; the confirmations; what was committed. */
  datatype World = World(marks: map<Text, int>, runs: map<nat, Pc>, commits: multiset<Text>, now: int)

  datatype Act =
    | Verify(run: nat, token: Text, at: int)
    | PrepareThrows(run: nat)
    | Claim(run: nat, at: int)
    | CommitOk(run: nat)
    | CommitThrows(run: nat, released: bool)
    | Die(run: nat)

  predicate IsVerified(w: World, run: nat, token: Text) {
    run in w.runs && w.runs[run] == Verified(token)
  }

  predicate IsCommitting(w: World, run: nat, token: Text) {
    run in w.runs && w.runs[run] == Committing(token)
  }

  /** `expiry` is what a token says of when it runs out; the clock does not go back. */
  function Step(w: World, act: Act, expiry: Text -> int): World {
    match act
    case Verify(run, token, at) =>
      if run in w.runs || at < w.now then w
      else if expiry(token) < at then w.(now := at)
      else w.(runs := w.runs[run := Verified(token)], now := at)
    case PrepareThrows(run) =>
      if run in w.runs && w.runs[run].Verified? then w.(runs := w.runs[run := Failed]) else w
    case Claim(run, at) =>
      if run !in w.runs || !w.runs[run].Verified? || at < w.now then w
      else
        var token, marks := w.runs[run].token, ConfirmToken.Purged(w.marks, at);
        if token in marks then World(marks, w.runs[run := Failed], w.commits, at)
        else World(marks[token := expiry(token)], w.runs[run := Committing(token)], w.commits, at)
    case CommitOk(run) =>
      if run in w.runs && w.runs[run].Committing? then
        var token := w.runs[run].token;
        w.(runs := w.runs[run := Done(token)], commits := w.commits + multiset{token})
      else w
    case CommitThrows(run, released) =>
      if run in w.runs && w.runs[run].Committing? then
        w.(runs := w.runs[run := Failed],
           marks := if released then w.marks - {w.runs[run].token} else w.marks)
      else w
    case Die(run) =>
      if run in w.runs && (w.runs[run].Verified? || w.runs[run].Committing?)
      then w.(runs := w.runs[run := Died]) else w
  }

  function Run(acts: seq<Act>, start: int, expiry: Text -> int): World {
    if acts == [] then World(map[], map[], multiset{}, start)
    else Step(Run(acts[..|acts| - 1], start, expiry), acts[|acts| - 1], expiry)
  }

  /** The token is marked, or has run out for good. */
  /** Where a confirmation is, if it has begun. */
  function PointOf(w: World, run: nat): (pc: Option<Pc>) {
    if run in w.runs then Some(w.runs[run]) else None
  }

  predicate Becomes(w: World, next: World, run: nat, pc: Pc, marks: map<Text, int>, commits: multiset<Text>,
                    now: int)
  {
    && next.runs.Keys == w.runs.Keys + {run} && next.runs[run] == pc
    && (forall other :: other in w.runs && other != run ==> next.runs[other] == w.runs[other])
    && next.marks == marks && next.commits == commits && next.now == now
  }

  /** The marks that have not run out. */
  ghost predicate AreLive(marks: map<Text, int>, live: map<Text, int>, now: int) {
    && (forall t :: t in live <==> t in marks && now <= marks[t])
    && (forall t :: t in live ==> live[t] == marks[t])
  }

  /**
   * A claim forgets the marks that ran out and takes a token that has none left, for as long as the
   * token is good; a token still marked is refused.
   */
  lemma ClaimSays(w: World, run: nat, at: int, expiry: Text -> int)
    ensures var next := Step(w, Claim(run, at), expiry);
            match PointOf(w, run)
            case Some(Verified(token)) =>
              if at < w.now then next == w
              else
                exists live ::
                  && AreLive(w.marks, live, at)
                  && if token in live then Becomes(w, next, run, Failed, live, w.commits, at)
                     else Becomes(w, next, run, Committing(token), live[token := expiry(token)], w.commits, at)
            case _ => next == w
  {
    assert AreLive(w.marks, ConfirmToken.Purged(w.marks, at), at);
  }

  /**
   * Every other step: a token is verified only while it is good, a commit counts once, and a commit
   * that throws gives its token back unless that fails.
   */
  lemma StepSays(w: World, act: Act, expiry: Text -> int)
    requires !act.Claim?
    ensures var next, point := Step(w, act, expiry), PointOf(w, act.run);
            match (act, point)
            case (Verify(run, token, at), None) =>
              if at < w.now then next == w
              else if at <= expiry(token) then Becomes(w, next, run, Verified(token), w.marks, w.commits, at)
              else next == w.(now := at)
            case (PrepareThrows(run), Some(Verified(_))) => Becomes(w, next, run, Failed, w.marks, w.commits, w.now)
            case (CommitOk(run), Some(Committing(token))) =>
              Becomes(w, next, run, Done(token), w.marks, w.commits[token := w.commits[token] + 1], w.now)
            case (CommitThrows(run, true), Some(Committing(token))) =>
              Becomes(w, next, run, Failed, w.marks - {token}, w.commits, w.now)
            case (CommitThrows(run, false), Some(Committing(_))) =>
              Becomes(w, next, run, Failed, w.marks, w.commits, w.now)
            case (Die(run), Some(Verified(_))) => Becomes(w, next, run, Died, w.marks, w.commits, w.now)
            case (Die(run), Some(Committing(_))) => Becomes(w, next, run, Died, w.marks, w.commits, w.now)
            case _ => next == w
  {
  }

  lemma RunSays(acts: seq<Act>, act: Act, start: int, expiry: Text -> int)
    ensures Run([], start, expiry) == World(map[], map[], multiset{}, start)
    ensures Run(acts + [act], start, expiry) == Step(Run(acts, start, expiry), act, expiry)
  {
    assert (acts + [act])[..|acts|] == acts;
  }

  predicate Spent(w: World, token: Text, expiry: Text -> int) {
    token in w.marks || expiry(token) < w.now
  }

  /** A confirmation that verified `token` does not claim it after it ran out. */
  predicate Timely(w: World, act: Act, token: Text, expiry: Text -> int) {
    act.Claim? && IsVerified(w, act.run, token) ==> act.at <= expiry(token)
  }

  /** Every claim of `token` among `acts` is timely. */
  ghost predicate AllTimely(acts: seq<Act>, start: int, token: Text, expiry: Text -> int) {
    acts == []
    || (AllTimely(acts[..|acts| - 1], start, token, expiry)
        && Timely(Run(acts[..|acts| - 1], start, expiry), acts[|acts| - 1], token, expiry))
  }

  ghost predicate Safe(w: World, token: Text, expiry: Text -> int) {
    && (forall a, b :: IsCommitting(w, a, token) && IsCommitting(w, b, token) ==> a == b)
    && (forall a :: IsCommitting(w, a, token) ==> Spent(w, token, expiry) && w.commits[token] == 0)
    && w.commits[token] <= 1
    && (w.commits[token] == 1 ==> Spent(w, token, expiry))
  }

  /** A mark says when its token runs out. */
  ghost predicate MarksTell(w: World, expiry: Text -> int) {
    forall t :: t in w.marks ==> w.marks[t] == expiry(t)
  }

  lemma {:induction false} RunMarksTell(acts: seq<Act>, start: int, expiry: Text -> int)
    ensures MarksTell(Run(acts, start, expiry), expiry)
  {
    if acts != [] {
      RunMarksTell(acts[..|acts| - 1], start, expiry);
    }
  }

  lemma SpentStays(w: World, act: Act, token: Text, expiry: Text -> int)
    requires MarksTell(w, expiry) && Spent(w, token, expiry)
    requires act.CommitThrows? ==> !IsCommitting(w, act.run, token)
    ensures Spent(Step(w, act, expiry), token, expiry)
  {
  }

  lemma ClaimKeepsSafe(w: World, act: Act, token: Text, expiry: Text -> int)
    requires act.Claim? && MarksTell(w, expiry) && Safe(w, token, expiry) && Timely(w, act, token, expiry)
    ensures Safe(Step(w, act, expiry), token, expiry)
  {
    var next := Step(w, act, expiry);
    if Spent(w, token, expiry) {
      SpentStays(w, act, token, expiry);
    }
    forall a | IsCommitting(next, a, token)
      ensures IsCommitting(w, a, token) || (a == act.run && !Spent(w, token, expiry) && token in next.marks)
    {
    }
  }

  lemma StepKeepsSafe(w: World, act: Act, token: Text, expiry: Text -> int)
    requires MarksTell(w, expiry) && Safe(w, token, expiry) && Timely(w, act, token, expiry)
    ensures Safe(Step(w, act, expiry), token, expiry)
  {
    if act.Claim? {
      ClaimKeepsSafe(w, act, token, expiry);
    } else {
      var next := Step(w, act, expiry);
      assert IsCommitting(w, act.run, token) ==> w.commits[token] == 0 && Spent(w, token, expiry);
      if Spent(w, token, expiry) && !(act.CommitThrows? && IsCommitting(w, act.run, token)) {
        SpentStays(w, act, token, expiry);
      }
      forall a | IsCommitting(next, a, token)
        ensures IsCommitting(w, a, token) && (act.CommitOk? || act.CommitThrows? ==> a != act.run)
      {
      }
    }
  }

  /**
   * However confirmations of a token interleave, throw and die, while the clock does not go back: as
   * long as none claims it after it ran out, it leads to at most one successful commit.
   */
  lemma {:induction false} CommittedAtMostOnce(acts: seq<Act>, start: int, token: Text, expiry: Text -> int)
    requires AllTimely(acts, start, token, expiry)
    ensures Safe(Run(acts, start, expiry), token, expiry)
    ensures Run(acts, start, expiry).commits[token] <= 1
  {
    if acts != [] {
      var front, last := acts[..|acts| - 1], acts[|acts| - 1];
      CommittedAtMostOnce(front, start, token, expiry);
      RunMarksTell(front, start, expiry);
      StepKeepsSafe(Run(front, start, expiry), last, token, expiry);
    }
  }

  lemma RunMore(acts: seq<Act>, more: seq<Act>, act: Act, start: int, expiry: Text -> int)
    ensures Run(acts + (more + [act]), start, expiry) == Step(Run(acts + more, start, expiry), act, expiry)
  {
    assert (acts + (more + [act]))[..|acts + more|] == acts + more;
  }

  lemma RunTwo(acts: seq<Act>, a: Act, b: Act, start: int, expiry: Text -> int)
    ensures Run(acts + [a, b], start, expiry) == Step(Step(Run(acts, start, expiry), a, expiry), b, expiry)
  {
    assert acts + [] == acts && [] + [a] == [a] && [a] + [b] == [a, b];
    RunMore(acts, [], a, start, expiry);
    RunMore(acts, [a], b, start, expiry);
  }

  // ----- Whether a token can still be committed -----

  /** Someone holds it verified or is committing it, or it has not run out. */
  ghost predicate CanCommit(w: World, token: Text, expiry: Text -> int) {
    || (exists run :: IsVerified(w, run, token) || IsCommitting(w, run, token))
    || w.now <= expiry(token)
  }

  lemma CannotCommitStays(w: World, act: Act, token: Text, expiry: Text -> int)
    requires !CanCommit(w, token, expiry)
    ensures Step(w, act, expiry).commits[token] == w.commits[token]
    ensures !CanCommit(Step(w, act, expiry), token, expiry)
  {
    var next := Step(w, act, expiry);
    assert !IsVerified(w, act.run, token) && !IsCommitting(w, act.run, token);
    forall run ensures !IsVerified(next, run, token) && !IsCommitting(next, run, token) {
      assert !IsVerified(w, run, token) && !IsCommitting(w, run, token);
    }
  }

  lemma {:induction false} CannotCommitForGood(acts: seq<Act>, more: seq<Act>, start: int, token: Text,
                                               expiry: Text -> int)
    requires !CanCommit(Run(acts, start, expiry), token, expiry)
    ensures Run(acts + more, start, expiry).commits[token] == Run(acts, start, expiry).commits[token]
    ensures !CanCommit(Run(acts + more, start, expiry), token, expiry)
    decreases |more|
  {
    if more == [] {
      assert acts + more == acts;
    } else {
      var front, act := more[..|more| - 1], more[|more| - 1];
      assert front + [act] == more;
      CannotCommitForGood(acts, front, start, token, expiry);
      RunMore(acts, front, act, start, expiry);
      CannotCommitStays(Run(acts + front, start, expiry), act, token, expiry);
    }
  }

  lemma CommitSucceeds(acts: seq<Act>, start: int, run: nat, token: Text, expiry: Text -> int)
    requires IsCommitting(Run(acts, start, expiry), run, token)
    ensures Run(acts + [CommitOk(run)], start, expiry).commits[token]
            == Run(acts, start, expiry).commits[token] + 1
  {
    assert acts + [] == acts && [] + [CommitOk(run)] == [CommitOk(run)];
    RunMore(acts, [], CommitOk(run), start, expiry);
  }

  /** Past its token's expiry, the mark no longer stops a confirmation that verified before. */
  lemma LateClaimIsTaken(w: World, run: nat, token: Text, expiry: Text -> int)
    requires MarksTell(w, expiry) && IsVerified(w, run, token)
    ensures var next := Step(w, Claim(run, Max(w.now, expiry(token) + 1)), expiry);
            IsCommitting(next, run, token) && next.commits == w.commits
  {
  }

  lemma CommitsFromVerified(acts: seq<Act>, start: int, run: nat, token: Text, expiry: Text -> int)
    returns (more: seq<Act>)
    requires IsVerified(Run(acts, start, expiry), run, token)
    ensures Run(acts + more, start, expiry).commits[token] == Run(acts, start, expiry).commits[token] + 1
  {
    var w := Run(acts, start, expiry);
    var claim := Claim(run, Max(w.now, expiry(token) + 1));
    assert acts + [] == acts && [] + [claim] == [claim];
    RunMore(acts, [], claim, start, expiry);
    RunMarksTell(acts, start, expiry);
    LateClaimIsTaken(w, run, token, expiry);
    CommitSucceeds(acts + [claim], start, run, token, expiry);
    more := [claim] + [CommitOk(run)];
    assert acts + more == (acts + [claim]) + [CommitOk(run)];
  }

  lemma VerifyIsTaken(w: World, run: nat, token: Text, expiry: Text -> int)
    requires run !in w.runs && w.now <= expiry(token)
    ensures var next := Step(w, Verify(run, token, w.now), expiry);
            IsVerified(next, run, token) && next.commits == w.commits
  {
  }

  lemma CommitsFromUnexpired(acts: seq<Act>, start: int, token: Text, expiry: Text -> int)
    returns (more: seq<Act>)
    requires Run(acts, start, expiry).now <= expiry(token)
    ensures Run(acts + more, start, expiry).commits[token] == Run(acts, start, expiry).commits[token] + 1
  {
    var w := Run(acts, start, expiry);
    var run := Fresh(w.runs.Keys);
    var verify := Verify(run, token, w.now);
    assert acts + [] == acts && [] + [verify] == [verify];
    RunMore(acts, [], verify, start, expiry);
    VerifyIsTaken(w, run, token, expiry);
    var rest := CommitsFromVerified(acts + [verify], start, run, token, expiry);
    more := [verify] + rest;
    assert acts + more == (acts + [verify]) + rest;
  }

  lemma CommitsFromHere(acts: seq<Act>, start: int, token: Text, expiry: Text -> int) returns (more: seq<Act>)
    requires CanCommit(Run(acts, start, expiry), token, expiry)
    ensures Run(acts + more, start, expiry).commits[token] == Run(acts, start, expiry).commits[token] + 1
  {
    var w := Run(acts, start, expiry);
    if run :| IsCommitting(w, run, token) {
      CommitSucceeds(acts, start, run, token, expiry);
      more := [CommitOk(run)];
    } else if run :| IsVerified(w, run, token) {
      more := CommitsFromVerified(acts, start, run, token, expiry);
    } else {
      more := CommitsFromUnexpired(acts, start, token, expiry);
    }
  }

  /**
   * At any point, committed or not, another commit of a token can still follow exactly when some
   * confirmation holds it verified or is committing it, or it has not run out: a mark only keeps others
   * out until then.
   */
  lemma CanStillCommit(acts: seq<Act>, start: int, token: Text, expiry: Text -> int)
    ensures (exists more :: Run(acts + more, start, expiry).commits[token]
                            > Run(acts, start, expiry).commits[token])
            <==> CanCommit(Run(acts, start, expiry), token, expiry)
  {
    if more :| Run(acts + more, start, expiry).commits[token] > Run(acts, start, expiry).commits[token] {
      if !CanCommit(Run(acts, start, expiry), token, expiry) {
        CannotCommitForGood(acts, more, start, token, expiry);
      }
    }
    if CanCommit(Run(acts, start, expiry), token, expiry) {
      var more := CommitsFromHere(acts, start, token, expiry);
    }
  }

  lemma BothVerified(token: Text, expiry: Text -> int)
    requires expiry(token) == 10
    ensures Run([Verify(0, token, 5), Verify(1, token, 10)], 0, expiry)
            == World(map[], map[0 := Verified(token), 1 := Verified(token)], multiset{}, 10)
  {
    var acts := [Verify(0, token, 5), Verify(1, token, 10)];
    assert [] + acts == acts;
    RunTwo([], Verify(0, token, 5), Verify(1, token, 10), 0, expiry);
  }

  lemma FirstCommits(acts: seq<Act>, start: int, token: Text, expiry: Text -> int)
    requires Run(acts, start, expiry)
             == World(map[], map[0 := Verified(token), 1 := Verified(token)], multiset{}, 10)
    ensures var w := Run(acts + [Claim(0, 10), CommitOk(0)], start, expiry);
            IsVerified(w, 1, token) && w.commits[token] == 1
  {
    RunTwo(acts, Claim(0, 10), CommitOk(0), start, expiry);
    var claimed := Step(Run(acts, start, expiry), Claim(0, 10), expiry);
    assert claimed.runs == map[0 := Committing(token), 1 := Verified(token)] && claimed.commits == multiset{};
  }

  /**
   * One token can lead to two commits: of two confirmations that verified it in time, one claims and
   * commits, and the other claims just after it ran out, when the mark is forgotten.
   */
  lemma CommittedTwice(token: Text)
    ensures exists acts: seq<Act>, start: int, expiry: Text -> int ::
              Run(acts, start, expiry).commits[token] == 2
  {
    var expiry := (t: Text) => 10;
    var verified := [Verify(0, token, 5), Verify(1, token, 10)];
    BothVerified(token, expiry);
    FirstCommits(verified, 0, token, expiry);
    var acts := verified + [Claim(0, 10), CommitOk(0)];
    var more := CommitsFromVerified(acts, 0, 1, token, expiry);
    assert Run(acts + more, 0, expiry).commits[token] == 2;
  }

  // ----- The same, claiming in time -----

  /** Someone is committing it, or it is unmarked and has not run out. */
  ghost predicate CanCommitInTime(w: World, token: Text, expiry: Text -> int) {
    (exists run :: IsCommitting(w, run, token)) || !Spent(w, token, expiry)
  }

  lemma CannotCommitInTimeStays(w: World, act: Act, token: Text, expiry: Text -> int)
    requires MarksTell(w, expiry) && Timely(w, act, token, expiry) && !CanCommitInTime(w, token, expiry)
    ensures Step(w, act, expiry).commits[token] == w.commits[token]
    ensures !CanCommitInTime(Step(w, act, expiry), token, expiry)
  {
    var next := Step(w, act, expiry);
    assert !IsCommitting(w, act.run, token);
    SpentStays(w, act, token, expiry);
    forall run ensures !IsCommitting(next, run, token) {
      assert !IsCommitting(w, run, token);
    }
  }

  lemma TimelyMore(acts: seq<Act>, more: seq<Act>, act: Act, start: int, token: Text, expiry: Text -> int)
    ensures AllTimely(acts + (more + [act]), start, token, expiry)
            <==> AllTimely(acts + more, start, token, expiry)
                 && Timely(Run(acts + more, start, expiry), act, token, expiry)
  {
    var all := acts + (more + [act]);
    assert all[..|all| - 1] == acts + more && all[|all| - 1] == act;
  }

  lemma {:induction false} CannotCommitInTimeForGood(acts: seq<Act>, more: seq<Act>, start: int, token: Text,
                                                     expiry: Text -> int)
    requires AllTimely(acts + more, start, token, expiry)
    requires !CanCommitInTime(Run(acts, start, expiry), token, expiry)
    ensures Run(acts + more, start, expiry).commits[token] == Run(acts, start, expiry).commits[token]
    ensures !CanCommitInTime(Run(acts + more, start, expiry), token, expiry)
    decreases |more|
  {
    if more == [] {
      assert acts + more == acts;
    } else {
      var front, act := more[..|more| - 1], more[|more| - 1];
      assert front + [act] == more;
      TimelyMore(acts, front, act, start, token, expiry);
      CannotCommitInTimeForGood(acts, front, start, token, expiry);
      RunMore(acts, front, act, start, expiry);
      RunMarksTell(acts + front, start, expiry);
      CannotCommitInTimeStays(Run(acts + front, start, expiry), act, token, expiry);
    }
  }

  lemma ConfirmedInTime(w: World, run: nat, token: Text, expiry: Text -> int)
    requires run !in w.runs && !Spent(w, token, expiry)
    ensures var verified := Step(w, Verify(run, token, w.now), expiry);
            var claimed := Step(verified, Claim(run, w.now), expiry);
            IsCommitting(claimed, run, token) && claimed.commits == w.commits
  {
  }

  lemma ConfirmingIsTimely(acts: seq<Act>, run: nat, at: int, start: int, token: Text, expiry: Text -> int)
    requires AllTimely(acts, start, token, expiry) && at <= expiry(token)
    ensures AllTimely(acts + [Verify(run, token, at), Claim(run, at), CommitOk(run)], start, token, expiry)
  {
    var verify, claim, commit := Verify(run, token, at), Claim(run, at), CommitOk(run);
    assert acts + [] == acts && [] + [verify] == [verify];
    assert [verify] + [claim] == [verify, claim] && [verify, claim] + [commit] == [verify, claim, commit];
    TimelyMore(acts, [], verify, start, token, expiry);
    TimelyMore(acts, [verify], claim, start, token, expiry);
    TimelyMore(acts, [verify, claim], commit, start, token, expiry);
  }

  lemma ConfirmingCommits(acts: seq<Act>, run: nat, start: int, token: Text, expiry: Text -> int)
    requires run !in Run(acts, start, expiry).runs && !Spent(Run(acts, start, expiry), token, expiry)
    ensures var at := Run(acts, start, expiry).now;
            Run(acts + [Verify(run, token, at), Claim(run, at), CommitOk(run)], start, expiry).commits[token]
            == Run(acts, start, expiry).commits[token] + 1
  {
    var w := Run(acts, start, expiry);
    var two := [Verify(run, token, w.now), Claim(run, w.now)];
    RunTwo(acts, Verify(run, token, w.now), Claim(run, w.now), start, expiry);
    ConfirmedInTime(w, run, token, expiry);
    CommitSucceeds(acts + two, start, run, token, expiry);
    assert acts + [Verify(run, token, w.now), Claim(run, w.now), CommitOk(run)] == (acts + two) + [CommitOk(run)];
  }

  lemma CommitsInTime(acts: seq<Act>, start: int, token: Text, expiry: Text -> int) returns (more: seq<Act>)
    requires AllTimely(acts, start, token, expiry)
    requires CanCommitInTime(Run(acts, start, expiry), token, expiry)
    ensures AllTimely(acts + more, start, token, expiry)
    ensures Run(acts + more, start, expiry).commits[token] == Run(acts, start, expiry).commits[token] + 1
  {
    var w := Run(acts, start, expiry);
    if run :| IsCommitting(w, run, token) {
      CommitSucceeds(acts, start, run, token, expiry);
      assert acts + [] == acts && [] + [CommitOk(run)] == [CommitOk(run)];
      TimelyMore(acts, [], CommitOk(run), start, token, expiry);
      more := [CommitOk(run)];
    } else {
      var run := Fresh(w.runs.Keys);
      ConfirmingCommits(acts, run, start, token, expiry);
      ConfirmingIsTimely(acts, run, w.now, start, token, expiry);
      more := [Verify(run, token, w.now), Claim(run, w.now), CommitOk(run)];
    }
  }

  /**
   * Where every claim comes in time, a commit can still follow exactly when someone is committing the
   * token, or it is unmarked and has not run out: a commit that throws gives it back, and a confirmation
   * that dies on the way spends it.
   */
  lemma CanStillCommitInTime(acts: seq<Act>, start: int, token: Text, expiry: Text -> int)
    requires AllTimely(acts, start, token, expiry)
    ensures (exists more :: AllTimely(acts + more, start, token, expiry)
                            && Run(acts + more, start, expiry).commits[token]
                               > Run(acts, start, expiry).commits[token])
            <==> CanCommitInTime(Run(acts, start, expiry), token, expiry)
  {
    if more :| AllTimely(acts + more, start, token, expiry)
               && Run(acts + more, start, expiry).commits[token] > Run(acts, start, expiry).commits[token]
    {
      if !CanCommitInTime(Run(acts, start, expiry), token, expiry) {
        CannotCommitInTimeForGood(acts, more, start, token, expiry);
      }
    }
    if CanCommitInTime(Run(acts, start, expiry), token, expiry) {
      var more := CommitsInTime(acts, start, token, expiry);
    }
  }

  // ----- Over the store -----

  datatype Answer = Committed | Used | Threw

  /** The end of one confirmation, from its claim on, with nobody else in between. */
  function Alone(marks: map<Text, int>, token: Text, at: int, succeeds: bool, expiry: Text -> int): World {
    var claimed := Step(World(marks, map[0 := Verified(token)], multiset{}, at), Claim(0, at), expiry);
    Step(claimed, if succeeds then CommitOk(0) else CommitThrows(0, true), expiry)
  }

  /** Claims a verified token, commits, and gives the token back if the commit throws. */
  method Confirm(store: ConfirmToken.Store, token: Text, at: int, succeeds: bool, expiry: Text -> int)
    returns (answer: Answer)
    modifies store
    ensures var alone := Alone(old(store.claims), token, at, succeeds, expiry);
            && store.claims == alone.marks
            && (answer == Committed <==> alone.runs[0] == Done(token))
            && (answer == Used <==> token in ConfirmToken.Purged(old(store.claims), at))
  {
    var claimed := store.Claim(token, expiry(token), at);
    if !claimed {
      return Used;
    }
    if succeeds {
      return Committed;
    }
    store.Release(token);
    answer := Threw;
  }
}
