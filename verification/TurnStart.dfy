/**
 * Starting the turn of one inbound message. Any number of runs of the phase may be under way at once
 * (redeliveries, retries, recoveries), each a few store operations around one `send`, and each may
 * die between any two of them. The store key of the message is within its time to live.
 */
module TurnStart {
  import opened Common

  /** What the phase came to: the turn it started, or what another branch of it returned. */
  datatype Outcome = StartedTurn(runId: Text) | Otherwise(result: Option<Text>)

  datatype Key = Free | Claimed | Recorded(outcome: Outcome)

  /** Where one run of the phase is. */
  datatype Pc =
    | Begun
    | Working
    | Sending
    | Failing
    | Sent(runId: Text)
    | Decided
    | Refused
    | Threw
    | Done(outcome: Outcome)
    | Dead

  datatype World = World(key: Key, runs: map<nat, Pc>, started: seq<Text>)

  datatype Act =
    | Begin(run: nat)
    | Look(run: nat)
    | Branch(run: nat, result: Option<Text>)
    | Claim(run: nat)
    | SendOk(run: nat, runId: Text)
    | SendDecides(run: nat)
    | SendThrows(run: nat)
    | SendOkThenDies(run: nat, runId: Text)
    | Release(run: nat)
    | ReleaseFails(run: nat)
    | Record(run: nat)
    | HookThrows(run: nat)
    | Die(run: nat)

  predicate At(w: World, run: nat, pc: Pc) {
    run in w.runs && w.runs[run] == pc
  }

  predicate Ended(pc: Pc) {
    pc.Refused? || pc.Threw? || pc.Done? || pc.Dead?
  }

  function Go(w: World, run: nat, pc: Pc): World {
    w.(runs := w.runs[run := pc])
  }

  /** One step of one run; a step that does not apply where the run is changes nothing. */
  function Step(w: World, act: Act): World {
    match act
    case Begin(r) => if r in w.runs then w else Go(w, r, Begun)
    case Look(r) =>
      if !At(w, r, Begun) then w
      else if w.key.Recorded? then Go(w, r, Done(w.key.outcome))
      else Go(w, r, Working)
    case Branch(r, result) =>
      if !At(w, r, Working) then w
      else Go(w, r, Done(Otherwise(result))).(key := Recorded(Otherwise(result)))
    case Claim(r) =>
      if !At(w, r, Working) then w
      else if w.key.Free? then Go(w, r, Sending).(key := Claimed)
      else Go(w, r, Refused)
    case SendOk(r, runId) =>
      if !At(w, r, Sending) then w
      else Go(w, r, Sent(runId)).(started := w.started + [runId])
    case SendDecides(r) => if !At(w, r, Sending) then w else Go(w, r, Decided)
    case SendThrows(r) => if !At(w, r, Sending) then w else Go(w, r, Failing)
    case SendOkThenDies(r, runId) =>
      if !At(w, r, Sending) then w
      else Go(w, r, Dead).(started := w.started + [runId])
    case Release(r) => if !At(w, r, Failing) then w else Go(w, r, Threw).(key := Free)
    case ReleaseFails(r) => if !At(w, r, Failing) then w else Go(w, r, Threw)
    case Record(r) =>
      if r in w.runs && w.runs[r].Sent? then
        var outcome := StartedTurn(w.runs[r].runId);
        Go(w, r, Done(outcome)).(key := Recorded(outcome))
      else if At(w, r, Decided) then Go(w, r, Done(Otherwise(None))).(key := Recorded(Otherwise(None)))
      else w
    case HookThrows(r) =>
      if r in w.runs && (w.runs[r].Sent? || w.runs[r].Decided?) then Go(w, r, Threw) else w
    case Die(r) => if r in w.runs && !Ended(w.runs[r]) then Go(w, r, Dead) else w
  }

  function Run(acts: seq<Act>): World {
    if acts == [] then World(Free, map[], [])
    else Step(Run(acts[..|acts| - 1]), acts[|acts| - 1])
  }

  // ----- At most one turn -----

  /** The run holds the key, and has not come through `send`. */
  // ----- What each step does -----

  /** Where a run of the phase is, if it has begun. */
  function PointOf(w: World, run: nat): (pc: Option<Pc>) {
    if run in w.runs then Some(w.runs[run]) else None
  }

  /** From `w` to `next` this one run moved on, and the key and the turns started came to be these. */
  predicate Becomes(w: World, next: World, run: nat, pc: Pc, key: Key, started: seq<Text>) {
    && next.runs.Keys == w.runs.Keys + {run} && next.runs[run] == pc
    && (forall other :: other in w.runs && other != run ==> next.runs[other] == w.runs[other])
    && next.key == key && next.started == started
  }

  /**
   * Which steps move a run, from where to where, and what they do to the key: a run looks first, then
   * takes another branch, which it records, or claims the key, starts a turn only on a key it claimed,
   * gives the key back only after a start that threw, and records what its start came to.
   */
  lemma StepSays(w: World, act: Act)
    ensures var next, at := Step(w, act), PointOf(w, act.run);
            match (act, at)
            case (Begin(r), None) => Becomes(w, next, r, Begun, w.key, w.started)
            case (Look(r), Some(Begun)) =>
              (match w.key
               case Recorded(outcome) => Becomes(w, next, r, Done(outcome), w.key, w.started)
               case _ => Becomes(w, next, r, Working, w.key, w.started))
            case (Branch(r, result), Some(Working)) =>
              Becomes(w, next, r, Done(Otherwise(result)), Recorded(Otherwise(result)), w.started)
            case (Claim(r), Some(Working)) =>
              if w.key == Free then Becomes(w, next, r, Sending, Claimed, w.started)
              else Becomes(w, next, r, Refused, w.key, w.started)
            case (SendOk(r, runId), Some(Sending)) => Becomes(w, next, r, Sent(runId), w.key, w.started + [runId])
            case (SendDecides(r), Some(Sending)) => Becomes(w, next, r, Decided, w.key, w.started)
            case (SendThrows(r), Some(Sending)) => Becomes(w, next, r, Failing, w.key, w.started)
            case (SendOkThenDies(r, runId), Some(Sending)) =>
              Becomes(w, next, r, Dead, w.key, w.started + [runId])
            case (Release(r), Some(Failing)) => Becomes(w, next, r, Threw, Free, w.started)
            case (ReleaseFails(r), Some(Failing)) => Becomes(w, next, r, Threw, w.key, w.started)
            case (Record(r), Some(Sent(runId))) =>
              Becomes(w, next, r, Done(StartedTurn(runId)), Recorded(StartedTurn(runId)), w.started)
            case (Record(r), Some(Decided)) =>
              Becomes(w, next, r, Done(Otherwise(None)), Recorded(Otherwise(None)), w.started)
            case (HookThrows(r), Some(Sent(_))) => Becomes(w, next, r, Threw, w.key, w.started)
            case (HookThrows(r), Some(Decided)) => Becomes(w, next, r, Threw, w.key, w.started)
            case (Die(r), Some(Refused)) => next == w
            case (Die(r), Some(Threw)) => next == w
            case (Die(r), Some(Done(_))) => next == w
            case (Die(r), Some(Dead)) => next == w
            case (Die(r), Some(_)) => Becomes(w, next, r, Dead, w.key, w.started)
            case _ => next == w
  {
  }

  /** A run of steps takes them one after the other, from a message nobody has looked at. */
  lemma RunSays(acts: seq<Act>, act: Act)
    ensures Run([]) == World(Free, map[], [])
    ensures Run(acts + [act]) == Step(Run(acts), act)
  {
    assert (acts + [act])[..|acts|] == acts;
  }

  predicate Holds(w: World, run: nat) {
    run in w.runs && (w.runs[run].Sending? || w.runs[run].Failing?)
  }

  /** The turn started, if any, is the only one ever reported as started. */
  predicate Reports(w: World, outcome: Outcome) {
    outcome.StartedTurn? ==> w.started == [outcome.runId]
  }

  /** A run past its claim may still start the turn, or give the key back; a free key lets any run. */
  ghost predicate CanStart(w: World) {
    w.key.Free? || exists r :: Holds(w, r)
  }

  ghost predicate Safe(w: World) {
    && |w.started| <= 1
    && (forall a, b :: Holds(w, a) && Holds(w, b) ==> a == b)
    && (w.started != [] || w.key.Free? ==> forall r :: !Holds(w, r))
    && (w.started != [] ==> !w.key.Free?)
    && (w.key.Recorded? ==> Reports(w, w.key.outcome))
    && (forall r :: r in w.runs && w.runs[r].Sent? ==> w.started == [w.runs[r].runId])
    && (forall r :: r in w.runs && w.runs[r].Done? ==> Reports(w, w.runs[r].outcome))
    && (forall r :: At(w, r, Decided) ==> w.started == [] && !CanStart(w))
  }

  lemma CannotStartStays(w: World, act: Act)
    requires Safe(w) && w.started == [] && !CanStart(w)
    ensures Step(w, act).started == [] && !CanStart(Step(w, act))
  {
    assert !Holds(w, act.run);
    forall r ensures !Holds(Step(w, act), r) {
      assert !Holds(w, r);
    }
  }

  /** The only holder is past `send`, and kept the key: nobody else can start the turn. */
  lemma OnlyHolderGone(w: World, act: Act)
    requires Safe(w) && Holds(w, act.run)
    requires At(Step(w, act), act.run, Decided) || At(Step(w, act), act.run, Threw)
    requires act.SendDecides? || act.ReleaseFails?
    ensures Step(w, act).started == [] && !CanStart(Step(w, act))
  {
    assert w.started == [] && !w.key.Free?;
    forall r ensures !Holds(Step(w, act), r) {
      assert Holds(Step(w, act), r) ==> Holds(w, r) && r != act.run;
    }
  }

  /** Once a run was answered with a decision, no turn starts. */
  lemma DecidedStays(w: World, act: Act, r: nat)
    requires Safe(w) && At(Step(w, act), r, Decided)
    ensures Step(w, act).started == [] && !CanStart(Step(w, act))
  {
    if At(w, r, Decided) {
      CannotStartStays(w, act);
    } else {
      OnlyHolderGone(w, act);
    }
  }

  lemma StepKeepsSafe(w: World, act: Act)
    requires Safe(w)
    ensures Safe(Step(w, act))
  {
    var r := act.run;
    if Holds(w, r) {
      assert w.started == [] && !w.key.Free?;
    }
    forall a | Holds(Step(w, act), a) ensures Holds(w, a) || (act.Claim? && a == r) {
    }
    forall a | At(Step(w, act), a, Decided) ensures Step(w, act).started == [] && !CanStart(Step(w, act)) {
      DecidedStays(w, act, a);
    }
  }

  /**
   * Whatever the interleaving of redeliveries, retries and crashes, at most one turn is started, and
   * every run that reports a started turn reports that one.
   */
  lemma {:induction false} AtMostOneTurn(acts: seq<Act>)
    ensures Safe(Run(acts))
    ensures |Run(acts).started| <= 1
    ensures forall r :: r in Run(acts).runs && Run(acts).runs[r].Done? ==>
              Reports(Run(acts), Run(acts).runs[r].outcome)
  {
    if acts != [] {
      AtMostOneTurn(acts[..|acts| - 1]);
      StepKeepsSafe(Run(acts[..|acts| - 1]), acts[|acts| - 1]);
    }
  }

  lemma StepKeepsStarted(w: World, act: Act)
    requires Safe(w) && w.started != []
    ensures Step(w, act).started == w.started
  {
    assert !Holds(w, act.run);
  }

  /** After a turn started, nothing that happens later starts another. */
  lemma {:induction false} StartedForGood(acts: seq<Act>, more: seq<Act>)
    requires Run(acts).started != []
    ensures Run(acts + more).started == Run(acts).started
    decreases |more|
  {
    if more == [] {
      assert acts + more == acts;
    } else {
      var front := more[..|more| - 1];
      StartedForGood(acts, front);
      AtMostOneTurn(acts + front);
      assert (acts + more)[..|acts + more| - 1] == acts + front;
      StepKeepsStarted(Run(acts + front), more[|more| - 1]);
    }
  }

  lemma RunMore(acts: seq<Act>, more: seq<Act>, act: Act)
    ensures Run(acts + (more + [act])) == Step(Run(acts + more), act)
  {
    assert (acts + (more + [act]))[..|acts + more|] == acts + more;
  }

  // ----- What a later run comes to -----

  /**
   * What a run begun after a turn started may have come to: it is under way before its claim, was
   * refused there, died, or ended with a result that reports no other turn.
   */
  predicate IsLate(w: World, pc: Pc) {
    match pc
    case Begun => true
    case Working => true
    case Refused => true
    case Dead => true
    case Done(outcome) => Reports(w, outcome)
    case _ => false
  }

  predicate LateIn(w: World, run: nat) {
    run in w.runs ==> IsLate(w, w.runs[run])
  }

  lemma StepStaysLate(w: World, act: Act, run: nat)
    requires Safe(w) && w.started != [] && LateIn(w, run)
    ensures LateIn(Step(w, act), run)
  {
    StepKeepsStarted(w, act);
  }

  lemma {:induction false} StaysLate(acts: seq<Act>, more: seq<Act>, run: nat)
    requires Run(acts).started != [] && run !in Run(acts).runs
    ensures LateIn(Run(acts + more), run)
    decreases |more|
  {
    if more == [] {
      assert acts + more == acts;
    } else {
      var front, act := more[..|more| - 1], more[|more| - 1];
      assert front + [act] == more;
      RunMore(acts, front, act);
      AtMostOneTurn(acts + front);
      StartedForGood(acts, front);
      StaysLate(acts, front, run);
      StepStaysLate(Run(acts + front), act, run);
    }
  }

  /**
   * A run of the phase begun after a turn started, whatever else happens: once it has ended, it was
   * refused, died, or returned a result, and a turn it returns is the one that started.
   */
  lemma LaterRunReturnsOrIsRefused(acts: seq<Act>, more: seq<Act>, run: nat)
    requires Run(acts).started != [] && run !in Run(acts).runs
    requires run in Run(acts + more).runs && Ended(Run(acts + more).runs[run])
    ensures var pc := Run(acts + more).runs[run];
            || pc == Refused
            || pc == Dead
            || pc == Done(StartedTurn(Run(acts).started[0]))
            || (pc.Done? && pc.outcome.Otherwise?)
  {
    StaysLate(acts, more, run);
    StartedForGood(acts, more);
  }

  /** The run ends with the result of another branch than `send`. */
  predicate EndsOtherwise(w: World, run: nat) {
    run in w.runs && w.runs[run].Done? && w.runs[run].outcome.Otherwise?
  }

  /** The store holds the result of another branch. */
  predicate RecordedOtherwise(w: World) {
    w.key.Recorded? && w.key.outcome.Otherwise?
  }

  /** The run, past its first look, takes another branch; or it looks and finds another's result there. */
  predicate Diverts(w: World, act: Act, run: nat) {
    || (act.Branch? && act.run == run && At(w, run, Working))
    || (act == Look(run) && At(w, run, Begun) && RecordedOtherwise(w))
  }

  ghost predicate DivertsIn(acts: seq<Act>, more: seq<Act>, run: nat) {
    exists i :: 0 <= i < |more| && DivertsAt(acts, more, run, i)
  }

  predicate DivertsAt(acts: seq<Act>, more: seq<Act>, run: nat, i: nat)
    requires i < |more|
  {
    Diverts(Run(acts + more[..i]), more[i], run)
  }

  lemma DivertsStep(w: World, act: Act, run: nat)
    requires Safe(w) && w.started != []
    ensures EndsOtherwise(Step(w, act), run) <==> EndsOtherwise(w, run) || Diverts(w, act, run)
  {
  }

  lemma DivertsMore(acts: seq<Act>, front: seq<Act>, act: Act, run: nat)
    ensures DivertsIn(acts, front + [act], run)
            <==> DivertsIn(acts, front, run) || Diverts(Run(acts + front), act, run)
  {
    var more := front + [act];
    assert more[..|front|] == front;
    forall i | 0 <= i < |front| ensures DivertsAt(acts, more, run, i) <==> DivertsAt(acts, front, run, i) {
      assert more[..i] == front[..i];
    }
    if Diverts(Run(acts + front), act, run) {
      assert DivertsAt(acts, more, run, |front|);
    }
    if DivertsIn(acts, front, run) {
      var i :| 0 <= i < |front| && DivertsAt(acts, front, run, i);
      assert DivertsAt(acts, more, run, i);
    }
  }

  /**
   * Exactly when such a run does not return the turn: it took another branch itself, or another run
   * had recorded one before it looked.
   */
  lemma {:induction false} LaterRunDiverts(acts: seq<Act>, more: seq<Act>, run: nat)
    requires Run(acts).started != [] && run !in Run(acts).runs
    ensures EndsOtherwise(Run(acts + more), run) <==> DivertsIn(acts, more, run)
    decreases |more|
  {
    if more == [] {
      assert acts + more == acts;
    } else {
      var front, act := more[..|more| - 1], more[|more| - 1];
      assert front + [act] == more;
      LaterRunDiverts(acts, front, run);
      RunMore(acts, front, act);
      AtMostOneTurn(acts + front);
      StartedForGood(acts, front);
      DivertsStep(Run(acts + front), act, run);
      DivertsMore(acts, front, act, run);
    }
  }

  lemma {:induction false} NothingOtherwise(acts: seq<Act>, more: seq<Act>)
    requires Run(acts).started != [] && !RecordedOtherwise(Run(acts))
    requires forall i :: 0 <= i < |more| ==> !more[i].Branch?
    ensures !RecordedOtherwise(Run(acts + more))
    decreases |more|
  {
    if more == [] {
      assert acts + more == acts;
    } else {
      var front, act := more[..|more| - 1], more[|more| - 1];
      assert front + [act] == more;
      NothingOtherwise(acts, front);
      RunMore(acts, front, act);
      AtMostOneTurn(acts + front);
      StartedForGood(acts, front);
    }
  }

  /**
   * Where no branch but `send` is taken once the turn started, and none was recorded by then, a later
   * run that has ended was refused, died, or returns exactly that turn.
   */
  lemma LaterRunReturnsTheTurn(acts: seq<Act>, more: seq<Act>, run: nat)
    requires Run(acts).started != [] && run !in Run(acts).runs
    requires !RecordedOtherwise(Run(acts)) && forall i :: 0 <= i < |more| ==> !more[i].Branch?
    requires run in Run(acts + more).runs && Ended(Run(acts + more).runs[run])
    ensures Run(acts + more).runs[run] in {Refused, Dead, Done(StartedTurn(Run(acts).started[0]))}
  {
    LaterRunReturnsOrIsRefused(acts, more, run);
    LaterRunDiverts(acts, more, run);
    if DivertsIn(acts, more, run) {
      var i :| 0 <= i < |more| && DivertsAt(acts, more, run, i);
      NothingOtherwise(acts, more[..i]);
    }
  }

  lemma RunMoreTwo(acts: seq<Act>, a: Act, b: Act)
    ensures Run(acts + [a, b]) == Step(Step(Run(acts), a), b)
  {
    assert acts + [] == acts && [] + [a] == [a] && [a] + [b] == [a, b];
    RunMore(acts, [], a);
    RunMore(acts, [a], b);
  }

  lemma LooksAndWorks(r: nat)
    ensures Run([Begin(r), Look(r)]) == World(Free, map[r := Working], [])
  {
    assert [] + [Begin(r), Look(r)] == [Begin(r), Look(r)];
    RunMoreTwo([], Begin(r), Look(r));
    assert Step(Run([]), Begin(r)) == World(Free, map[r := Begun], []);
  }

  /** A run starts the turn and dies before recording it. */
  lemma DiesUnrecorded() returns (acts: seq<Act>)
    ensures Run(acts) == World(Claimed, map[0 := Dead], [[7]])
  {
    var front := [Begin(0), Look(0)];
    LooksAndWorks(0);
    acts := front + [Claim(0), SendOkThenDies(0, [7])];
    RunMoreTwo(front, Claim(0), SendOkThenDies(0, [7]));
    assert Step(Run(front), Claim(0)) == World(Claimed, map[0 := Sending], []);
  }

  /**
   * It does happen: a run dies right after starting the turn, and the next one, finding only the
   * claim, answers the message by another branch.
   */
  lemma LaterRunMayDivert()
    ensures exists acts: seq<Act>, more: seq<Act>, run: nat ::
              && Run(acts).started != [] && run !in Run(acts).runs
              && run in Run(acts + more).runs && Run(acts + more).runs[run] == Done(Otherwise(None))
  {
    var acts := DiesUnrecorded();
    RunMoreTwo(acts, Begin(1), Look(1));
    RunMore(acts, [Begin(1), Look(1)], Branch(1, None));
    var more := [Begin(1), Look(1)] + [Branch(1, None)];
    assert Run(acts + more).runs[1] == Done(Otherwise(None));
  }

  // ----- Whether a turn can still start -----

  lemma {:induction false} CannotStartForGood(acts: seq<Act>, more: seq<Act>)
    requires Run(acts).started == [] && !CanStart(Run(acts))
    ensures Run(acts + more).started == [] && !CanStart(Run(acts + more))
    decreases |more|
  {
    if more == [] {
      assert acts + more == acts;
    } else {
      var front, act := more[..|more| - 1], more[|more| - 1];
      assert front + [act] == more;
      CannotStartForGood(acts, front);
      RunMore(acts, front, act);
      AtMostOneTurn(acts + front);
      CannotStartStays(Run(acts + front), act);
    }
  }

  lemma StartsFromFree(acts: seq<Act>) returns (more: seq<Act>)
    requires Run(acts).started == [] && Run(acts).key.Free?
    ensures Run(acts + more).started != []
  {
    var w := Run(acts);
    var r := Fresh(w.runs.Keys);
    RunMoreTwo(acts, Begin(r), Look(r));
    RunMoreTwo(acts + [Begin(r), Look(r)], Claim(r), SendOk(r, []));
    more := [Begin(r), Look(r)] + [Claim(r), SendOk(r, [])];
    assert acts + more == (acts + [Begin(r), Look(r)]) + [Claim(r), SendOk(r, [])];
  }

  lemma StartsFromHolder(acts: seq<Act>, r: nat) returns (more: seq<Act>)
    requires Run(acts).started == [] && Holds(Run(acts), r)
    ensures Run(acts + more).started != []
  {
    if Run(acts).runs[r].Sending? {
      more := [SendOk(r, [])];
      RunSays(acts, SendOk(r, []));
    } else {
      RunSays(acts, Release(r));
      var rest := StartsFromFree(acts + [Release(r)]);
      more := [Release(r)] + rest;
      assert acts + more == (acts + [Release(r)]) + rest;
    }
  }

  /**
   * A message without its turn can still get one exactly when its key is free or a run that claimed it
   * is still under way.
   */
  lemma TurnCanStillStart(acts: seq<Act>)
    requires Run(acts).started == []
    ensures (exists more :: Run(acts + more).started != []) <==> CanStart(Run(acts))
  {
    if more :| Run(acts + more).started != [] {
      if !CanStart(Run(acts)) {
        CannotStartForGood(acts, more);
      }
    }
    if CanStart(Run(acts)) {
      var more: seq<Act>;
      if Run(acts).key.Free? {
        more := StartsFromFree(acts);
      } else {
        var r :| Holds(Run(acts), r);
        more := StartsFromHolder(acts, r);
      }
      assert Run(acts + more).started != [];
    }
  }

  /** So a start that threw, and whose key could not be deleted, leaves the message without a turn. */
  lemma UnreleasedStartIsLost(acts: seq<Act>, run: nat, more: seq<Act>)
    requires At(Run(acts), run, Failing) && Run(acts).started == []
    ensures Run(acts + ([ReleaseFails(run)] + more)).started == []
  {
    AtMostOneTurn(acts);
    assert acts + [] == acts && [] + [ReleaseFails(run)] == [ReleaseFails(run)];
    RunMore(acts, [], ReleaseFails(run));
    OnlyHolderGone(Run(acts), ReleaseFails(run));
    CannotStartForGood(acts + [ReleaseFails(run)], more);
    assert acts + ([ReleaseFails(run)] + more) == (acts + [ReleaseFails(run)]) + more;
  }

  /** And a message that `send` answered with a decision instead of a turn never gets one. */
  lemma DecisionStartsNothing(acts: seq<Act>, run: nat, more: seq<Act>)
    requires At(Run(acts), run, Decided)
    ensures Run(acts + more).started == []
  {
    AtMostOneTurn(acts);
    CannotStartForGood(acts, more);
  }
}
