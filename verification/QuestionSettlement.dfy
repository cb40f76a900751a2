/**
 * Settling one question: its answer, its timeout and a skip race for a store key, each run of each
 * phase asking on behalf of its owner. A run may die between any two store operations; the key is
 * within its time to live and nothing deletes it.
 */
module QuestionSettlement {
  import opened Common
  import ChannelStore

  datatype Key = Free | Claimed | Owned(owner: Text)

  datatype Pc =
    | Asking(owner: Text)
    | Setting(owner: Text)
    | Reading(owner: Text)
    | Won(owner: Text)
    | Lost(owner: Text)
    | Dead

  datatype World = World(key: Key, runs: map<nat, Pc>)

  datatype Act =
    | Begin(run: nat, owner: Text)
    | Claim(run: nat)
    | Set(run: nat)
    | Get(run: nat)
    | Die(run: nat)

  function Go(w: World, run: nat, pc: Pc): World {
    w.(runs := w.runs[run := pc])
  }

  function Step(w: World, act: Act): World {
    match act
    case Begin(r, owner) => if r in w.runs then w else Go(w, r, Asking(owner))
    case Claim(r) =>
      if r !in w.runs || !w.runs[r].Asking? then w
      else if w.key.Free? then Go(w, r, Setting(w.runs[r].owner)).(key := Claimed)
      else Go(w, r, Reading(w.runs[r].owner))
    case Set(r) =>
      if r !in w.runs || !w.runs[r].Setting? then w
      else Go(w, r, Won(w.runs[r].owner)).(key := Owned(w.runs[r].owner))
    case Get(r) =>
      if r !in w.runs || !w.runs[r].Reading? then w
      else
        var owner := w.runs[r].owner;
        Go(w, r, if w.key == Owned(owner) then Won(owner) else Lost(owner))
    case Die(r) =>
      if r !in w.runs || w.runs[r].Won? || w.runs[r].Lost? then w else Go(w, r, Dead)
  }

  function Run(acts: seq<Act>): World {
    if acts == [] then World(Free, map[]) else Step(Run(acts[..|acts| - 1]), acts[|acts| - 1])
  }

  /** Where a run of a phase is, if it has begun. */
  function PointOf(w: World, run: nat): (pc: Option<Pc>) {
    if run in w.runs then Some(w.runs[run]) else None
  }

  predicate Becomes(w: World, next: World, run: nat, pc: Pc, key: Key) {
    && next.runs.Keys == w.runs.Keys + {run} && next.runs[run] == pc
    && (forall other :: other in w.runs && other != run ==> next.runs[other] == w.runs[other])
    && next.key == key
  }

  /**
   * Which steps move a run, and what they do to the key: it is claimed only while free, named only by
   * the run that claimed it, and a run that found it taken wins exactly if it names its own owner.
   */
  lemma StepSays(w: World, act: Act)
    ensures var next, at := Step(w, act), PointOf(w, act.run);
            match (act, at)
            case (Begin(r, owner), None) => Becomes(w, next, r, Asking(owner), w.key)
            case (Claim(r), Some(Asking(owner))) =>
              if w.key == Free then Becomes(w, next, r, Setting(owner), Claimed)
              else Becomes(w, next, r, Reading(owner), w.key)
            case (Set(r), Some(Setting(owner))) => Becomes(w, next, r, Won(owner), Owned(owner))
            case (Get(r), Some(Reading(owner))) =>
              (match w.key
               case Owned(name) => Becomes(w, next, r, if name == owner then Won(owner) else Lost(owner), w.key)
               case _ => Becomes(w, next, r, Lost(owner), w.key))
            case (Die(r), Some(Won(_))) => next == w
            case (Die(r), Some(Lost(_))) => next == w
            case (Die(r), Some(_)) => Becomes(w, next, r, Dead, w.key)
            case _ => next == w
  {
  }

  lemma RunSays(acts: seq<Act>, act: Act)
    ensures Run([]) == World(Free, map[])
    ensures Run(acts + [act]) == Step(Run(acts), act)
  {
    assert (acts + [act])[..|acts|] == acts;
  }

  predicate IsSetting(w: World, r: nat) {
    r in w.runs && w.runs[r].Setting?
  }

  ghost predicate Safe(w: World) {
    && (forall a, b :: IsSetting(w, a) && IsSetting(w, b) ==> a == b)
    && (!w.key.Claimed? ==> forall r :: !IsSetting(w, r))
    && (forall r :: r in w.runs && w.runs[r].Won? ==> w.key == Owned(w.runs[r].owner))
  }

  lemma StepKeepsSafe(w: World, act: Act)
    requires Safe(w)
    ensures Safe(Step(w, act))
    ensures w.key.Owned? ==> Step(w, act).key == w.key
  {
    assert IsSetting(w, act.run) ==> w.key.Claimed?;
    forall a | IsSetting(Step(w, act), a) ensures IsSetting(w, a) || (act.Claim? && a == act.run) {
    }
  }

  lemma {:induction false} RunSafe(acts: seq<Act>)
    ensures Safe(Run(acts))
  {
    if acts != [] {
      RunSafe(acts[..|acts| - 1]);
      StepKeepsSafe(Run(acts[..|acts| - 1]), acts[|acts| - 1]);
    }
  }

  /** Whatever the interleaving, a question is settled by at most one owner, for good. */
  lemma {:induction false} OneOwner(acts: seq<Act>, more: seq<Act>, a: nat, b: nat)
    requires a in Run(acts).runs && Run(acts).runs[a].Won?
    requires b in Run(acts + more).runs && Run(acts + more).runs[b].Won?
    ensures Run(acts).runs[a].owner == Run(acts + more).runs[b].owner
  {
    RunSafe(acts);
    RunSafe(acts + more);
    OwnedForGood(acts, more);
  }

  lemma {:induction false} OwnedForGood(acts: seq<Act>, more: seq<Act>)
    requires Run(acts).key.Owned?
    ensures Run(acts + more).key == Run(acts).key
    decreases |more|
  {
    if more == [] {
      assert acts + more == acts;
    } else {
      var front := more[..|more| - 1];
      OwnedForGood(acts, front);
      RunSafe(acts + front);
      assert (acts + more)[..|acts + more| - 1] == acts + front;
      StepKeepsSafe(Run(acts + front), more[|more| - 1]);
    }
  }

  /** A run of the owner's phase, begun after it won, wins again: retries carry on. */
  lemma OwnerWinsAgain(w: World, r: nat, owner: Text)
    requires Safe(w) && w.key == Owned(owner) && r !in w.runs
    ensures var again := Step(Step(Step(w, Begin(r, owner)), Claim(r)), Get(r));
            r in again.runs && again.runs[r] == Won(owner)
  {
  }

  /** The run that claimed the key died before saying whose it is. */
  ghost predicate Orphaned(w: World) {
    w.key.Claimed? && forall r :: !IsSetting(w, r)
  }

  /** Then nobody ever wins: whoever asks loses, the owner's own retry included. */
  lemma {:induction false} OrphanedForGood(acts: seq<Act>, more: seq<Act>)
    requires Orphaned(Run(acts))
    ensures Orphaned(Run(acts + more))
    ensures forall r :: r in Run(acts + more).runs ==> !Run(acts + more).runs[r].Won?
    decreases |more|
  {
    RunSafe(acts + more);
    if more == [] {
      assert acts + more == acts;
    } else {
      var front := more[..|more| - 1];
      OrphanedForGood(acts, front);
      RunSafe(acts + front);
      assert (acts + more)[..|acts + more| - 1] == acts + front;
      var w, act := Run(acts + front), more[|more| - 1];
      assert !IsSetting(w, act.run);
      forall a | IsSetting(Step(w, act), a) ensures IsSetting(w, a) || (act.Claim? && a == act.run) {
      }
    }
  }

  /** It does happen: one run claims the key and dies. */
  lemma OrphanedIsReached()
    ensures exists acts :: Orphaned(Run(acts))
  {
    var first, second := [Begin(0, [])], [Begin(0, []), Claim(0)];
    var acts := [Begin(0, []), Claim(0), Die(0)];
    assert first[..0] == [] && second[..1] == first && acts[..2] == second;
    assert Orphaned(Run(acts));
  }

  lemma RunMore(acts: seq<Act>, more: seq<Act>, act: Act)
    ensures Run(acts + (more + [act])) == Step(Run(acts + more), act)
  {
    assert (acts + (more + [act]))[..|acts + more|] == acts + more;
  }

  lemma RunThree(acts: seq<Act>, a: Act, b: Act, c: Act)
    ensures Run(acts + [a, b, c]) == Step(Step(Step(Run(acts), a), b), c)
  {
    assert acts + [] == acts && [] + [a] == [a] && [a] + [b] == [a, b] && [a, b] + [c] == [a, b, c];
    RunMore(acts, [], a);
    RunMore(acts, [a], b);
    RunMore(acts, [a, b], c);
  }

  /** Some run settles the question. */
  ghost predicate IsWon(w: World) {
    exists r :: r in w.runs && w.runs[r].Won?
  }

  lemma WinsFromHere(acts: seq<Act>) returns (more: seq<Act>)
    requires !Orphaned(Run(acts))
    ensures IsWon(Run(acts + more))
  {
    var w := Run(acts);
    RunSafe(acts);
    if w.key.Claimed? {
      var r :| IsSetting(w, r);
      assert acts + [] == acts;
      RunMore(acts, [], Set(r));
      more := [] + [Set(r)];
      assert Run(acts + more).runs[r].Won?;
    } else {
      var r := Fresh(w.runs.Keys);
      var owner := if w.key.Owned? then w.key.owner else [];
      var last := if w.key.Owned? then Get(r) else Set(r);
      if w.key.Owned? {
        OwnerWinsAgain(w, r, owner);
      }
      more := [Begin(r, owner), Claim(r), last];
      RunThree(acts, Begin(r, owner), Claim(r), last);
      assert Run(acts + more).runs[r].Won?;
    }
  }

  /**
   * Exactly when a question can still be settled, or was: unless the run that claimed its key died
   * before naming the owner.
   */
  lemma CanBeSettled(acts: seq<Act>)
    ensures (exists more :: IsWon(Run(acts + more))) <==> !Orphaned(Run(acts))
  {
    if more :| IsWon(Run(acts + more)) {
      if Orphaned(Run(acts)) {
        OrphanedForGood(acts, more);
      }
    }
    if !Orphaned(Run(acts)) {
      var more := WinsFromHere(acts);
    }
  }

  // ----- Over the channel store -----

  /** What the question's key is in the store. */
  function KeyIn(live: map<Text, Option<Text>>, key: Text): Key {
    if key !in live then Free
    else if live[key].None? then Claimed
    else Owned(live[key].value)
  }

  /** One run of the phase, with nobody else in between. */
  function Alone(key: Key, owner: Text): World {
    var claimed := Step(Step(World(key, map[]), Begin(0, owner)), Claim(0));
    Step(claimed, if key.Free? then Set(0) else Get(0))
  }

  /**
   * Settles a question in the store: claims its key at `first`, and names the owner, or reads who it
   * is, at `second`. Within the key's time to live it does what the steps above do.
   */
  method SettleQuestion(store: ChannelStore.Store, key: Text, owner: Text, ttlMs: int,
                        first: int, second: int)
    returns (won: bool)
    requires first <= second
    modifies store
    ensures won <==> key !in old(store.Live(first))
                     || (key in old(store.Live(second)) && old(store.Live(second))[key] == Some(owner))
    ensures forall later, other :: later >= second && other != key ==>
              (other in store.Live(later) <==> other in old(store.Live(later)))
              && (other in store.Live(later) ==> store.Live(later)[other] == old(store.Live(later))[other])
    ensures ttlMs > 0 && (key in old(store.Live(first)) ==> key in old(store.Live(second))) ==>
              var alone := Alone(KeyIn(old(store.Live(first)), key), owner);
              KeyIn(store.Live(second), key) == alone.key && (won <==> alone.runs[0].Won?)
  {
    ghost var before := store.entries;
    var taken := store.Claim(key, ttlMs, first);
    if taken {
      store.Set(key, owner, ttlMs, second);
      return true;
    }
    var value := store.Get(key, second);
    won := value == Some(owner);
    assert key in before && (key in old(store.Live(second)) ==> old(store.Live(second))[key] == before[key].value);
  }
}
