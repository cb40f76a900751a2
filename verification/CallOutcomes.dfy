/**
 * What one tool call asks for and how it is settled, told from its claim and from what the
 * checkpoints answered; and when a turn's calls end the turn.
 */
module CallOutcomes {
  import opened Common
  import opened Journal

  // ----- Trace segments -----

  /** What was asked for since `h`. */
  function Since(h: H, later: H): (asked: seq<Asked>)
    requires |h.trace| <= |later.trace|
  {
    later.trace[|h.trace|..]
  }

  /** Exactly these checkpoints were asked for, in this order, and every one of them answered. */
  predicate WentThrough(asked: seq<Asked>, names: seq<Name>) {
    && |asked| == |names|
    && (forall i :: 0 <= i < |names| ==> asked[i].name == names[i] && asked[i].value.Some?)
  }

  /** The process ended in a checkpoint it asked for since `h`. */
  predicate Unanswered(h: H, later: H) {
    |h.trace| < |later.trace| && later.trace[|later.trace| - 1].value == None
  }

  /** A checkpoint goes on exactly if it is answered, and everything asked before it stays as it was. */
  lemma AskWent(e: Process, h: H, name: Name)
    requires !Computed(name)
    ensures var r := Ask(e, h, name);
            && r.h.branches == h.branches
            && (r.Go? ==> r.h.trace == h.trace + [Asked(name, Some(r.v))])
            && (r.Stop? ==> r.h.trace == h.trace + [Asked(name, None)])
  {
  }

  lemma {:induction false} QuietWent(e: Process, h: H, names: seq<Name>)
    requires forall i :: 0 <= i < |names| ==> !Computed(names[i])
    ensures var r := Quiet(e, h, names);
            && r.h.branches == h.branches && h.trace <= r.h.trace
            && (r.Go? ==> WentThrough(Since(h, r.h), names))
            && (r.Stop? ==> Unanswered(h, r.h))
    decreases |names|
  {
    if names != [] {
      AskWent(e, h, names[0]);
      var first := Ask(e, h, names[0]);
      if first.Go? {
        QuietWent(e, first.h, names[1..]);
        var r := Quiet(e, first.h, names[1..]);
        if r.Go? {
          OneMoreWent(h, first.h, r.h, names, first.v);
        }
      }
    }
  }

  lemma OneMoreWent(h: H, one: H, later: H, names: seq<Name>, v: Value)
    requires names != [] && one.trace == h.trace + [Asked(names[0], Some(v))] && one.trace <= later.trace
    requires WentThrough(Since(one, later), names[1..])
    ensures WentThrough(Since(h, later), names)
  {
    var asked, rest := Since(h, later), Since(one, later);
    forall i | 0 <= i < |names| ensures asked[i].name == names[i] && asked[i].value.Some? {
      if i > 0 {
        assert asked[i] == rest[i - 1] && names[1..][i - 1] == names[i];
      }
    }
  }

  lemma OneWent(e: Process, h: H, name: Name)
    requires !Computed(name)
    ensures var r := Quiet(e, h, [name]);
            && r.h.branches == h.branches && h.trace <= r.h.trace
            && (r.Go? ==> |r.h.trace| == |h.trace| + 1 && r.h.trace[|h.trace|].name == name
                          && r.h.trace[|h.trace|].value.Some?)
            && (r.Stop? ==> Unanswered(h, r.h))
  {
    QuietWent(e, h, [name]);
    var r := Quiet(e, h, [name]);
    if r.Go? {
      assert Since(h, r.h)[0] == r.h.trace[|h.trace|];
    }
  }

  // ----- How a call is settled -----

  /** A tool that came back is recorded as what it said; one that did not say is recorded as failed. */
  predicate RecordedAs(name: Name, id: Text, answer: Option<Value>) {
    && (name == Exec(id) <==> answer == Some(ToolReturned(Executed)))
    && (name == Reject(id) <==> answer == Some(ToolReturned(Refused)))
    && (name == Fail(id) <==>
          answer != Some(ToolReturned(Executed)) && answer != Some(ToolReturned(Refused)))
  }

  /** The tool ran, what came of it was recorded, and nothing else was asked for. */
  predicate ToolWent(c: Settled, asked: seq<Asked>, ends: bool) {
    && |asked| == 2
    && asked[0].name == Tool(c.id) && asked[0].value.Some? && asked[1].value.Some?
    && RecordedAs(asked[1].name, c.id, asked[0].value)
    && (ends <==> asked[1].name == Exec(c.id) && c.claim.terminal && c.kind != Skill && c.kind != Memory)
  }

  /** An agent is reached only if its target is not refused: started on its own, or waited for. */
  function Delegated(x: Fixed, c: Settled): (names: seq<Name>) {
    var target := match c.claim.target case Some(name) => name case None => c.name;
    if !x.refused(target) && c.claim.detached && x.canDetach then [Spawn(c.id), Exec(c.id)]
    else if !x.refused(target) && x.canDelegate then [Child(c.id), Exec(c.id)]
    else [Exec(c.id)]
  }

  /** A preflight that already ran the call, refused it or broke leaves that to be recorded. */
  function Preflighted(c: Settled, preflight: Preflight): (names: seq<Name>) {
    match preflight
    case Completed => if c.claim.presents then [Present(c.id), Exec(c.id)] else [Exec(c.id)]
    case Denied => [Reject(c.id)]
    case Broken => [Fail(c.id)]
    case Ready => []
  }

  /** A question is put to the person only if it can be read; skipping it rejects the call. */
  predicate QuestionWent(x: Fixed, c: Settled, asked: seq<Asked>) {
    if !x.validQuestions(c.input) then WentThrough(asked, [Fail(c.id)])
    else
      && |asked| == 3
      && WentThrough(asked[..2], [Elicit(c.id), Answers(c.id)])
      && asked[2].value.Some?
      && asked[2].name
         == (if asked[1].value == Some(Replied(true)) then Reject(c.id) else Exec(c.id))
  }

  /** The tool is reached exactly if the person approves; otherwise the call is rejected. */
  predicate ApprovalWent(c: Settled, asked: seq<Asked>, ends: bool) {
    && |asked| >= 2
    && asked[0].name == ApprovalSignal(c.id) && asked[0].value.Some?
    && if asked[0].value == Some(Decided(Approve)) then ToolWent(c, asked[1..], ends)
       else WentThrough(asked[1..], [Reject(c.id)]) && !ends
  }

  /** An action waits for a person unless it was approved beforehand. */
  predicate Waits(c: Settled) {
    c.kind == Action && c.claim.approval != Some(Auto) && c.claim.approval != Some(Remembered)
  }

  /** Everything a call that was gone through asked for, and whether it ends the turn. */
  predicate CallWent(x: Fixed, c: Settled, asked: seq<Asked>, ends: bool) {
    if c.claim.proposal then asked == [] && ends
    else if c.kind == Agent then WentThrough(asked, Delegated(x, c)) && !ends
    else if c.kind == AskKind then QuestionWent(x, c, asked) && !ends
    else
      match c.claim.preflight
      case Some(Completed) =>
        WentThrough(asked, Preflighted(c, Completed)) && ends == c.claim.terminal
      case Some(Denied) => WentThrough(asked, Preflighted(c, Denied)) && !ends
      case Some(Broken) => WentThrough(asked, Preflighted(c, Broken)) && !ends
      case _ => if Waits(c) then ApprovalWent(c, asked, ends) else ToolWent(c, asked, ends)
  }

  lemma ExecuteWent(e: Process, h: H, c: Settled)
    ensures var r := Execute(e, h, c);
            && r.h.branches == h.branches
            && (r.Go? ==> ToolWent(c, Since(h, r.h), r.v))
            && (r.Stop? ==> Unanswered(h, r.h))
  {
    AskWent(e, h, Tool(c.id));
    var tool := Ask(e, h, Tool(c.id));
    if tool.Go? {
      var name := Outcome(ResultOf(tool.v), c.id);
      OneWent(e, tool.h, name);
      var last := Quiet(e, tool.h, [name]);
      if last.Go? {
        ToolThenRecord(c, h, last.h, tool.v, EndsTurn(c, ResultOf(tool.v)));
      }
    }
  }

  lemma ToolThenRecord(c: Settled, h: H, later: H, v: Value, ends: bool)
    requires |later.trace| == |h.trace| + 2 && h.trace + [Asked(Tool(c.id), Some(v))] <= later.trace
    requires later.trace[|h.trace| + 1].name == Outcome(ResultOf(v), c.id)
    requires later.trace[|h.trace| + 1].value.Some? && (ends <==> EndsTurn(c, ResultOf(v)))
    ensures ToolWent(c, Since(h, later), ends)
  {
    assert Since(h, later) == [Asked(Tool(c.id), Some(v)), later.trace[|h.trace| + 1]];
  }

  lemma DelegationFirst(x: Fixed, e: Process, h: H, c: Settled)
    requires !c.claim.proposal && c.kind == Agent
    ensures var r := Quiet(e, h, Delegated(x, c));
            RunDelegation(x, e, h, c) == if r.Stop? then Stop(r.h) else Go(r.h, false)
  {
  }

  lemma DelegationGoes(x: Fixed, e: Process, h: H, c: Settled)
    requires !c.claim.proposal && c.kind == Agent
    ensures var r := RunDelegation(x, e, h, c);
            && r.h.branches == h.branches
            && (r.Go? ==> WentThrough(Since(h, r.h), Delegated(x, c)) && !r.v)
            && (r.Stop? ==> Unanswered(h, r.h))
  {
    DelegationFirst(x, e, h, c);
    QuietWent(e, h, Delegated(x, c));
  }

  lemma AnswersWent(e: Process, h: H, c: Settled)
    ensures var r := AwaitAnswers(e, h, c);
            && r.h.branches == h.branches && h.trace <= r.h.trace
            && (r.Go? ==>
                  var asked := Since(h, r.h);
                  && |asked| == 2 && asked[0].name == Answers(c.id) && asked[0].value.Some?
                  && asked[1].value.Some? && !r.v
                  && asked[1].name
                     == (if asked[0].value == Some(Replied(true)) then Reject(c.id) else Exec(c.id)))
            && (r.Stop? ==> Unanswered(h, r.h))
  {
    AskWent(e, h, Answers(c.id));
    var reply := Ask(e, h, Answers(c.id));
    if reply.Go? {
      OneWent(e, reply.h, if reply.v.Replied? && reply.v.skipped then Reject(c.id) else Exec(c.id));
      var r := AwaitAnswers(e, h, c);
      if r.Go? {
        assert Since(h, r.h) == [Asked(Answers(c.id), Some(reply.v)), r.h.trace[|h.trace| + 1]];
      }
    }
  }

  /** One checkpoint more in front of what was asked for since it. */
  lemma SinceBefore(h: H, one: H, later: H)
    requires h.trace <= one.trace <= later.trace && |one.trace| == |h.trace| + 1
    ensures Since(h, later) == [one.trace[|h.trace|]] + Since(one, later)
  {
  }

  lemma QuestionAsked(x: Fixed, c: Settled, first: Asked, rest: seq<Asked>)
    requires x.validQuestions(c.input)
    requires first.name == Elicit(c.id) && first.value.Some?
    requires |rest| == 2 && rest[0].name == Answers(c.id) && rest[0].value.Some? && rest[1].value.Some?
    requires rest[1].name == (if rest[0].value == Some(Replied(true)) then Reject(c.id) else Exec(c.id))
    ensures QuestionWent(x, c, [first] + rest)
  {
    var asked := [first] + rest;
    assert asked[0] == first && asked[1] == rest[0] && asked[2] == rest[1];
  }

  lemma QuestionGoes(x: Fixed, e: Process, h: H, c: Settled)
    ensures var r := RunQuestion(x, e, h, c);
            && r.h.branches == h.branches
            && (r.Go? ==> QuestionWent(x, c, Since(h, r.h)) && !r.v)
            && (r.Stop? ==> Unanswered(h, r.h))
  {
    if !x.validQuestions(c.input) {
      QuietWent(e, h, [Fail(c.id)]);
    } else {
      OneWent(e, h, Elicit(c.id));
      var put := Quiet(e, h, [Elicit(c.id)]);
      if put.Go? {
        AnswersWent(e, put.h, c);
        var r := AwaitAnswers(e, put.h, c);
        assert RunQuestion(x, e, h, c) == r;
        if r.Go? {
          SinceBefore(h, put.h, r.h);
          QuestionAsked(x, c, put.h.trace[|h.trace|], Since(put.h, r.h));
        }
      }
    }
  }

  lemma ApprovalAsked(c: Settled, first: Asked, rest: seq<Asked>, ends: bool)
    requires first.name == ApprovalSignal(c.id) && first.value.Some?
    requires if first.value == Some(Decided(Approve)) then ToolWent(c, rest, ends)
             else WentThrough(rest, [Reject(c.id)]) && !ends
    ensures ApprovalWent(c, [first] + rest, ends)
  {
    assert ([first] + rest)[1..] == rest;
  }

  lemma ApprovalGoes(e: Process, h: H, c: Settled)
    ensures var r := RunApproval(e, h, c);
            && r.h.branches == h.branches
            && (r.Go? ==> ApprovalWent(c, Since(h, r.h), r.v))
            && (r.Stop? ==> Unanswered(h, r.h))
  {
    AskWent(e, h, ApprovalSignal(c.id));
    var signal := Ask(e, h, ApprovalSignal(c.id));
    if signal.Go? {
      if signal.v == Decided(Approve) {
        ExecuteWent(e, signal.h, c);
      } else {
        QuietWent(e, signal.h, [Reject(c.id)]);
      }
      var r := RunApproval(e, h, c);
      if r.Go? {
        SinceBefore(h, signal.h, r.h);
        ApprovalAsked(c, Asked(ApprovalSignal(c.id), Some(signal.v)), Since(signal.h, r.h), r.v);
      }
    }
  }

  lemma PreflightGoes(e: Process, h: H, c: Settled)
    requires c.claim.preflight.Some? && c.claim.preflight.value != Ready
    ensures var r := RunPreflight(e, h, c);
            && r.h.branches == h.branches
            && (r.Go? ==> WentThrough(Since(h, r.h), Preflighted(c, c.claim.preflight.value))
                          && (r.v <==> c.claim.preflight.value == Completed && c.claim.terminal))
            && (r.Stop? ==> Unanswered(h, r.h))
  {
    assert [Present(c.id)] + [Exec(c.id)] == [Present(c.id), Exec(c.id)];
    assert [] + [Exec(c.id)] == [Exec(c.id)];
    QuietWent(e, h, Preflighted(c, c.claim.preflight.value));
  }

  /** The branch a call is noted to have taken, told from its claim. */
  predicate IsBranch(x: Fixed, c: Settled, branch: Branch) {
    var target := match c.claim.target case Some(name) => name case None => c.name;
    match branch
    case Propose => c.claim.proposal
    case Start => !c.claim.proposal && c.kind == Agent && !x.refused(target) && c.claim.detached && x.canDetach
    case Delegate =>
      && !c.claim.proposal && c.kind == Agent && !x.refused(target) && x.canDelegate
      && !(c.claim.detached && x.canDetach)
    case Decline =>
      && !c.claim.proposal && c.kind == Agent
      && (x.refused(target) || (!x.canDelegate && !(c.claim.detached && x.canDetach)))
    case Question => !c.claim.proposal && c.kind == AskKind
    case Settle =>
      && !c.claim.proposal && c.kind != Agent && c.kind != AskKind
      && (c.claim.preflight == Some(Completed) || c.claim.preflight == Some(Denied)
          || c.claim.preflight == Some(Broken))
    case Park =>
      && !c.claim.proposal && Waits(c)
      && (c.claim.preflight == None || c.claim.preflight == Some(Ready))
    case Run =>
      && !c.claim.proposal && c.kind != Agent && c.kind != AskKind && !Waits(c)
      && (c.claim.preflight == None || c.claim.preflight == Some(Ready))
  }

  lemma TakesBranch(x: Fixed, c: Settled)
    ensures IsBranch(x, c, BranchOf(x, c))
  {
  }

  /**
   * A call goes on exactly if every checkpoint it asks for is answered, and then it asked for what
   * its claim and those answers call for, and nothing else.
   */
  lemma CallGoes(x: Fixed, e: Process, h: H, c: Settled)
    ensures var r := RunCall(x, e, h, c);
            && |r.h.branches| == |h.branches| + 1 && r.h.branches[|h.branches|].0 == c.id
            && IsBranch(x, c, r.h.branches[|h.branches|].1)
            && (r.Go? ==> CallWent(x, c, Since(h, r.h), r.v))
            && (r.Stop? ==> Unanswered(h, r.h))
  {
    var branch := BranchOf(x, c);
    var h0 := Noted(h, c.id, branch);
    TakesBranch(x, c);
    match branch
    case Propose =>
    case Question => QuestionGoes(x, e, h0, c);
    case Settle => PreflightGoes(e, h0, c);
    case Park => ApprovalGoes(e, h0, c);
    case Run => ExecuteWent(e, h0, c);
    case _ => DelegationGoes(x, e, h0, c);
  }

  lemma ToolAt(x: Fixed, c: Settled, asked: seq<Asked>, ends: bool, k: nat)
    requires CallWent(x, c, asked, ends) && k < |asked| && asked[k].name == Tool(c.id)
    ensures k == |asked| - 2 && asked[k].value.Some? && RecordedAs(asked[k + 1].name, c.id, asked[k].value)
  {
    if Waits(c) && k > 0 {
      assert asked[1..][k - 1] == asked[k];
      if asked[0].value == Some(Decided(Approve)) {
        assert asked[1..][1] == asked[2];
      }
    }
  }

  /**
   * A call's tool that was reached came back, and the next and last thing recorded for the call is
   * what it came back with.
   */
  lemma ToolIsRecordedAsItEnded(x: Fixed, e: Process, h: H, c: Settled, p: nat)
    requires RunCall(x, e, h, c).Go?
    requires |h.trace| <= p < |RunCall(x, e, h, c).h.trace|
    requires RunCall(x, e, h, c).h.trace[p].name == Tool(c.id)
    ensures var trace := RunCall(x, e, h, c).h.trace;
            && p == |trace| - 2
            && trace[p].value.Some?
            && RecordedAs(trace[p + 1].name, c.id, trace[p].value)
  {
    CallGoes(x, e, h, c);
    var r := RunCall(x, e, h, c);
    ToolBehind(x, c, h, r.h, r.v, p);
  }

  lemma ToolBehind(x: Fixed, c: Settled, h: H, later: H, ends: bool, p: nat)
    requires |h.trace| <= p < |later.trace| && CallWent(x, c, Since(h, later), ends)
    requires later.trace[p].name == Tool(c.id)
    ensures p == |later.trace| - 2 && later.trace[p].value.Some?
    ensures RecordedAs(later.trace[p + 1].name, c.id, later.trace[p].value)
  {
    var asked, k := Since(h, later), p - |h.trace|;
    assert asked[k] == later.trace[p];
    ToolAt(x, c, asked, ends, k);
    assert asked[k + 1] == later.trace[p + 1];
  }

  // ----- A turn's calls, one by one -----

  /** What the checkpoint claiming a call answered, read as the call's claim; it comes with its kind. */
  function ClaimedAs(call: Call, answer: Option<Value>): (c: Settled) {
    var claim :=
      match answer
      case Some(Claimed(claim)) => claim
      case _ => Claim(None, None, false, false, false, None, None, false);
    var kind :=
      match claim.kind
      case Some(kind) => kind
      case None => match call.kind case Some(kind) => kind case None => Read;
    Settled(call.id, call.name, call.input, kind, claim)
  }

  /** One call's share of a turn: what it asked for, and whether it ended the turn. */
  datatype Ran = Ran(asked: seq<Asked>, ends: bool)

  function Flat(runs: seq<Ran>): (asked: seq<Asked>) {
    if runs == [] then [] else runs[0].asked + Flat(runs[1..])
  }

  /** The call was claimed, and then went as its claim says. */
  predicate ClaimedAndWent(x: Fixed, call: Call, run: Ran) {
    && run.asked != []
    && run.asked[0].name == PersistCall(call.id) && run.asked[0].value.Some?
    && CallWent(x, ClaimedAs(call, run.asked[0].value), run.asked[1..], run.ends)
  }

  /** What a process claims by itself says the kind the process knows. */
  lemma ClaimGoes(e: Process, h: H, call: Call)
    ensures var r := ClaimCall(e, h, call);
            && r.h.branches == h.branches && |r.h.trace| == |h.trace| + 1 && h.trace <= r.h.trace
            && r.h.trace[|h.trace|].name == PersistCall(call.id)
            && (r.Go? ==> r.h.trace[|h.trace|].value.Some?
                          && r.v == ClaimedAs(call, r.h.trace[|h.trace|].value))
            && (r.Stop? ==> Unanswered(h, r.h))
    ensures var r := ClaimCall(e, h, call);
            |h.trace| !in e.journal && r.Go? ==>
              var answer := e.world(|h.trace|, PersistCall(call.id));
              r.h.trace[|h.trace|].value
              == Some(Claimed(ClaimedAs(call, Some(answer)).claim.(kind := Some(KindHere(e.deps, call)))))
  {
  }

  lemma RunGoes(x: Fixed, call: Call, first: Asked, rest: seq<Asked>, ends: bool)
    requires first.name == PersistCall(call.id) && first.value.Some?
    requires CallWent(x, ClaimedAs(call, first.value), rest, ends)
    ensures ClaimedAndWent(x, call, Ran([first] + rest, ends))
  {
    assert ([first] + rest)[1..] == rest;
  }

  predicate AllWent(x: Fixed, calls: seq<Call>, runs: seq<Ran>) {
    && |runs| == |calls|
    && (forall i :: 0 <= i < |calls| ==> ClaimedAndWent(x, calls[i], runs[i]))
  }

  /** Some call ended the turn. */
  predicate AnyEnds(runs: seq<Ran>) {
    exists i :: 0 <= i < |runs| && runs[i].ends
  }

  lemma AnyEndsMore(run: Ran, runs: seq<Ran>)
    ensures AnyEnds([run] + runs) <==> run.ends || AnyEnds(runs)
  {
    if run.ends {
      assert ([run] + runs)[0].ends;
    }
    if i :| 0 <= i < |runs| && runs[i].ends {
      assert ([run] + runs)[i + 1].ends;
    }
  }

  lemma AllWentMore(x: Fixed, calls: seq<Call>, run: Ran, runs: seq<Ran>)
    requires calls != [] && ClaimedAndWent(x, calls[0], run) && AllWent(x, calls[1..], runs)
    ensures AllWent(x, calls, [run] + runs)
  {
    forall i | 0 <= i < |calls| ensures ClaimedAndWent(x, calls[i], ([run] + runs)[i]) {
      if i > 0 {
        assert calls[1..][i - 1] == calls[i];
      }
    }
  }

  /** What taking calls one by one comes to, given each call's share. */
  predicate TookAll(x: Fixed, h: H, calls: seq<Call>, r: R<bool>, runs: seq<Ran>) {
    && (r.Go? ==> AllWent(x, calls, runs) && r.h.trace == h.trace + Flat(runs) && (r.v <==> AnyEnds(runs)))
    && (r.Stop? ==> Unanswered(h, r.h))
  }

  lemma SequentiallyFirst(x: Fixed, e: Process, h: H, calls: seq<Call>)
    requires calls != []
    ensures var claim := ClaimCall(e, h, calls[0]);
            if claim.Stop? then Sequentially(x, e, h, calls) == Stop(claim.h)
            else
              var one := RunCall(x, e, claim.h, claim.v);
              if one.Stop? then Sequentially(x, e, h, calls) == Stop(one.h)
              else
                var rest := Sequentially(x, e, one.h, calls[1..]);
                Sequentially(x, e, h, calls)
                == if rest.Stop? then Stop(rest.h) else Go(rest.h, one.v || rest.v)
  {
  }

  lemma FlatMore(run: Ran, runs: seq<Ran>)
    ensures Flat([run] + runs) == run.asked + Flat(runs)
  {
    assert ([run] + runs)[1..] == runs;
  }

  lemma TookOneMore(x: Fixed, h: H, one: H, calls: seq<Call>, run: Ran, rest: R<bool>, runs: seq<Ran>)
    requires calls != [] && one.trace == h.trace + run.asked
    requires ClaimedAndWent(x, calls[0], run)
    requires TookAll(x, one, calls[1..], rest, runs) && rest.Go?
    ensures TookAll(x, h, calls, Go(rest.h, run.ends || rest.v), [run] + runs)
  {
    AllWentMore(x, calls, run, runs);
    AnyEndsMore(run, runs);
    FlatMore(run, runs);
    Regroup(h.trace, run.asked, Flat(runs));
  }

  lemma Regroup(a: seq<Asked>, b: seq<Asked>, c: seq<Asked>)
    ensures (a + b) + c == a + (b + c)
  {
  }

  lemma RegroupOne(h: H, claim: H, one: H)
    requires h.trace <= claim.trace <= one.trace && |claim.trace| == |h.trace| + 1
    ensures one.trace == h.trace + ([claim.trace[|h.trace|]] + Since(claim, one))
  {
  }

  lemma LaterUnanswered(h: H, one: H, later: H)
    requires h.trace <= one.trace <= later.trace && Unanswered(one, later)
    ensures Unanswered(h, later)
  {
  }

  /**
   * Calls taken one by one: each is claimed and then goes as its claim says before the next is
   * claimed, all of them are taken, and the turn ends exactly if one of them ends it.
   */
  lemma {:induction false} SequentiallyGoes(x: Fixed, e: Process, h: H, calls: seq<Call>)
    returns (runs: seq<Ran>)
    ensures TookAll(x, h, calls, Sequentially(x, e, h, calls), runs)
    decreases |calls|
  {
    runs := [];
    if calls != [] {
      SequentiallyFirst(x, e, h, calls);
      ClaimGoes(e, h, calls[0]);
      var claim := ClaimCall(e, h, calls[0]);
      if claim.Go? {
        CallGoes(x, e, claim.h, claim.v);
        var one := RunCall(x, e, claim.h, claim.v);
        if one.Go? {
          runs := SequentiallyGoes(x, e, one.h, calls[1..]);
          var rest := Sequentially(x, e, one.h, calls[1..]);
          if rest.Go? {
            var first := claim.h.trace[|h.trace|];
            var run := Ran([first] + Since(claim.h, one.h), one.v);
            RunGoes(x, calls[0], first, Since(claim.h, one.h), one.v);
            RegroupOne(h, claim.h, one.h);
            TookOneMore(x, h, one.h, calls, run, rest, runs);
            runs := [run] + runs;
          } else {
            LaterUnanswered(h, one.h, rest.h);
          }
        } else {
          LaterUnanswered(h, claim.h, one.h);
        }
      }
    }
  }

  // ----- Claimed first -----

  predicate AllCallsWent(x: Fixed, claimed: seq<Settled>, runs: seq<Ran>) {
    && |runs| == |claimed|
    && (forall i :: 0 <= i < |claimed| ==> CallWent(x, claimed[i], runs[i].asked, runs[i].ends))
  }

  lemma AllCallsWentMore(x: Fixed, claimed: seq<Settled>, run: Ran, runs: seq<Ran>)
    requires claimed != [] && CallWent(x, claimed[0], run.asked, run.ends)
    requires AllCallsWent(x, claimed[1..], runs)
    ensures AllCallsWent(x, claimed, [run] + runs)
  {
    forall i | 0 <= i < |claimed|
      ensures CallWent(x, claimed[i], ([run] + runs)[i].asked, ([run] + runs)[i].ends)
    {
      if i > 0 {
        assert claimed[1..][i - 1] == claimed[i];
      }
    }
  }

  predicate RanAll(x: Fixed, h: H, claimed: seq<Settled>, r: R<bool>, runs: seq<Ran>) {
    && (r.Go? ==>
          AllCallsWent(x, claimed, runs) && r.h.trace == h.trace + Flat(runs) && (r.v <==> AnyEnds(runs)))
    && (r.Stop? ==> Unanswered(h, r.h))
  }

  lemma RunAllFirst(x: Fixed, e: Process, h: H, claimed: seq<Settled>)
    requires claimed != []
    ensures var one := RunCall(x, e, h, claimed[0]);
            if one.Stop? then RunAll(x, e, h, claimed) == Stop(one.h)
            else
              var rest := RunAll(x, e, one.h, claimed[1..]);
              RunAll(x, e, h, claimed) == if rest.Stop? then Stop(rest.h) else Go(rest.h, one.v || rest.v)
  {
  }

  lemma RanOneMore(x: Fixed, h: H, one: H, claimed: seq<Settled>, run: Ran, rest: R<bool>, runs: seq<Ran>)
    requires claimed != [] && one.trace == h.trace + run.asked
    requires AllCallsWent(x, claimed, [run] + runs)
    requires rest.Go? && rest.h.trace == one.trace + Flat(runs) && (rest.v <==> AnyEnds(runs))
    ensures RanAll(x, h, claimed, Go(rest.h, run.ends || rest.v), [run] + runs)
  {
    AnyEndsMore(run, runs);
    FlatMore(run, runs);
    Regroup(h.trace, run.asked, Flat(runs));
  }

  lemma {:induction false} AllRun(x: Fixed, e: Process, h: H, claimed: seq<Settled>)
    returns (runs: seq<Ran>)
    ensures RanAll(x, h, claimed, RunAll(x, e, h, claimed), runs)
    decreases |claimed|
  {
    runs := [];
    if claimed != [] {
      RunAllFirst(x, e, h, claimed);
      CallGoes(x, e, h, claimed[0]);
      var one := RunCall(x, e, h, claimed[0]);
      if one.Go? {
        runs := AllRun(x, e, one.h, claimed[1..]);
        var rest := RunAll(x, e, one.h, claimed[1..]);
        if rest.Go? {
          var run := Ran(Since(h, one.h), one.v);
          AllCallsWentMore(x, claimed, run, runs);
          RanOneMore(x, h, one.h, claimed, run, rest, runs);
          runs := [run] + runs;
        } else {
          LaterUnanswered(h, one.h, rest.h);
        }
      }
    }
  }

  /** Every call's claim, in call order. */
  predicate ClaimsWent(calls: seq<Call>, asked: seq<Asked>) {
    && |asked| == |calls|
    && (forall i :: 0 <= i < |calls| ==>
          asked[i].name == PersistCall(calls[i].id) && asked[i].value.Some?)
  }

  function AllClaimedAs(calls: seq<Call>, asked: seq<Asked>): (claimed: seq<Settled>)
    requires |asked| == |calls|
  {
    seq(|calls|, i requires 0 <= i < |calls| => ClaimedAs(calls[i], asked[i].value))
  }

  predicate ClaimedAll(h: H, calls: seq<Call>, r: R<seq<Settled>>) {
    && h.trace <= r.h.trace
    && (r.Go? ==> ClaimsWent(calls, Since(h, r.h)) && r.v == AllClaimedAs(calls, Since(h, r.h)))
    && (r.Stop? ==> Unanswered(h, r.h))
  }

  lemma ClaimAllFirst(e: Process, h: H, calls: seq<Call>)
    requires calls != []
    ensures var one := ClaimCall(e, h, calls[0]);
            if one.Stop? then ClaimAll(e, h, calls) == Stop(one.h)
            else
              var rest := ClaimAll(e, one.h, calls[1..]);
              ClaimAll(e, h, calls) == if rest.Stop? then Stop(rest.h) else Go(rest.h, [one.v] + rest.v)
  {
  }

  lemma ClaimedOneMore(h: H, one: H, calls: seq<Call>, first: Settled, rest: R<seq<Settled>>)
    requires calls != [] && h.trace <= one.trace && |one.trace| == |h.trace| + 1
    requires one.trace[|h.trace|].name == PersistCall(calls[0].id) && one.trace[|h.trace|].value.Some?
    requires first == ClaimedAs(calls[0], one.trace[|h.trace|].value)
    requires ClaimedAll(one, calls[1..], rest) && rest.Go?
    ensures ClaimedAll(h, calls, Go(rest.h, [first] + rest.v))
  {
    SinceBefore(h, one, rest.h);
    var asked, others := Since(h, rest.h), Since(one, rest.h);
    forall i | 0 <= i < |calls|
      ensures asked[i].name == PersistCall(calls[i].id) && asked[i].value.Some?
      ensures ([first] + rest.v)[i] == ClaimedAs(calls[i], asked[i].value)
    {
      if i > 0 {
        assert calls[1..][i - 1] == calls[i] && others[i - 1] == asked[i];
      }
    }
  }

  lemma {:induction false} ClaimsGo(e: Process, h: H, calls: seq<Call>)
    ensures ClaimedAll(h, calls, ClaimAll(e, h, calls))
    ensures ClaimAll(e, h, calls).h.branches == h.branches
    decreases |calls|
  {
    if calls != [] {
      ClaimAllFirst(e, h, calls);
      ClaimGoes(e, h, calls[0]);
      var one := ClaimCall(e, h, calls[0]);
      if one.Go? {
        ClaimsGo(e, one.h, calls[1..]);
        var rest := ClaimAll(e, one.h, calls[1..]);
        if rest.Go? {
          ClaimedOneMore(h, one.h, calls, one.v, rest);
        } else {
          LaterUnanswered(h, one.h, rest.h);
        }
      }
    }
  }

  // ----- Together -----

  /**
   * A batch: every tool is invoked, in call order, and came back; then each call is recorded, in call
   * order, as its own tool said.
   */
  predicate BatchWent(claimed: seq<Settled>, asked: seq<Asked>) {
    && |asked| == 2 * |claimed|
    && (forall i :: 0 <= i < |claimed| ==>
          InvokedAndRecorded(claimed[i].id, asked[i], asked[i + |claimed|]))
  }

  predicate InvokedAndRecorded(id: Text, invoked: Asked, recorded: Asked) {
    && invoked.name == Tool(id) && invoked.value.Some?
    && RecordedAs(recorded.name, id, invoked.value) && recorded.value.Some?
  }

  /** A batch ends the turn if one of its tools is `terminal`, neither skill nor memory, and succeeded. */
  predicate BatchEnds(claimed: seq<Settled>, asked: seq<Asked>)
    requires |claimed| <= |asked|
  {
    exists i :: 0 <= i < |claimed| &&
      claimed[i].claim.terminal && claimed[i].kind != Skill && claimed[i].kind != Memory
      && asked[i].value == Some(ToolReturned(Executed))
  }

  /** Each call recorded in call order as `outcomes` say. */
  predicate RecordsWent(claimed: seq<Settled>, outcomes: seq<Option<Value>>, asked: seq<Asked>) {
    && |asked| == |claimed| == |outcomes|
    && (forall i :: 0 <= i < |claimed| ==>
          RecordedAs(asked[i].name, claimed[i].id, outcomes[i]) && asked[i].value.Some?)
  }

  predicate RecordsEnd(claimed: seq<Settled>, outcomes: seq<Option<Value>>)
    requires |outcomes| == |claimed|
  {
    exists i :: 0 <= i < |claimed| &&
      claimed[i].claim.terminal && claimed[i].kind != Skill && claimed[i].kind != Memory
      && outcomes[i] == Some(ToolReturned(Executed))
  }

  lemma RecordsWentMore(claimed: seq<Settled>, outcomes: seq<Option<Value>>, first: Asked, rest: seq<Asked>)
    requires |outcomes| == |claimed| > 0
    requires RecordedAs(first.name, claimed[0].id, outcomes[0]) && first.value.Some?
    requires RecordsWent(claimed[1..], outcomes[1..], rest)
    ensures RecordsWent(claimed, outcomes, [first] + rest)
  {
    var asked := [first] + rest;
    forall i | 0 <= i < |claimed|
      ensures RecordedAs(asked[i].name, claimed[i].id, outcomes[i]) && asked[i].value.Some?
    {
      if i > 0 {
        assert claimed[1..][i - 1] == claimed[i] && outcomes[1..][i - 1] == outcomes[i];
      }
    }
  }

  lemma RecordsEndMore(claimed: seq<Settled>, outcomes: seq<Option<Value>>)
    requires |outcomes| == |claimed| > 0
    ensures RecordsEnd(claimed, outcomes)
            <==> (claimed[0].claim.terminal && claimed[0].kind != Skill && claimed[0].kind != Memory
                  && outcomes[0] == Some(ToolReturned(Executed)))
                 || RecordsEnd(claimed[1..], outcomes[1..])
  {
    var c, o := claimed[1..], outcomes[1..];
    if i :| 0 <= i < |c| && c[i].claim.terminal && c[i].kind != Skill && c[i].kind != Memory
            && o[i] == Some(ToolReturned(Executed))
    {
      assert claimed[i + 1] == c[i] && outcomes[i + 1] == o[i];
    }
    if i :| 0 < i < |claimed| && claimed[i].claim.terminal && claimed[i].kind != Skill
            && claimed[i].kind != Memory && outcomes[i] == Some(ToolReturned(Executed))
    {
      assert claimed[i] == c[i - 1] && outcomes[i] == o[i - 1];
    }
  }

  lemma {:induction false} RecordsGo(e: Process, h: H, claimed: seq<Settled>, outcomes: seq<Option<Value>>)
    requires |outcomes| == |claimed| && None !in outcomes
    ensures var r := RecordAll(e, h, claimed, outcomes);
            && r.h.branches == h.branches && h.trace <= r.h.trace
            && (r.Go? ==> RecordsWent(claimed, outcomes, Since(h, r.h))
                          && (r.v <==> RecordsEnd(claimed, outcomes)))
            && (r.Stop? ==> Unanswered(h, r.h))
    decreases |claimed|
  {
    if claimed != [] {
      var name := Outcome(ResultOf(outcomes[0].value), claimed[0].id);
      OneWent(e, h, name);
      var one := Quiet(e, h, [name]);
      if one.Go? {
        RecordsGo(e, one.h, claimed[1..], outcomes[1..]);
        var r := RecordAll(e, h, claimed, outcomes);
        if r.Go? {
          SinceBefore(h, one.h, r.h);
          RecordsWentMore(claimed, outcomes, one.h.trace[|h.trace|], Since(one.h, r.h));
          RecordsEndMore(claimed, outcomes);
        }
      }
    }
  }

  lemma {:induction false} NotedWent(h: H, claimed: seq<Settled>)
    ensures NotedAll(h, claimed).branches
            == h.branches + seq(|claimed|, i requires 0 <= i < |claimed| => (claimed[i].id, Run))
    decreases |claimed|
  {
    var noted := seq(|claimed|, i requires 0 <= i < |claimed| => (claimed[i].id, Run));
    if claimed == [] {
      assert h.branches + noted == h.branches;
    } else {
      NotedWent(Noted(h, claimed[0].id, Run), claimed[1..]);
      var c := claimed[1..];
      var others := seq(|c|, i requires 0 <= i < |c| => (c[i].id, Run));
      assert noted == [(claimed[0].id, Run)] + others;
      assert h.branches + [(claimed[0].id, Run)] + others == h.branches + noted;
    }
  }

  lemma BatchJoined(claimed: seq<Settled>, outcomes: seq<Option<Value>>, invoked: seq<Asked>,
                    recorded: seq<Asked>)
    requires |outcomes| == |claimed| == |invoked| && None !in outcomes
    requires forall i :: 0 <= i < |claimed| ==> invoked[i] == Asked(Tool(claimed[i].id), outcomes[i])
    requires RecordsWent(claimed, outcomes, recorded)
    ensures BatchWent(claimed, invoked + recorded)
    ensures BatchEnds(claimed, invoked + recorded) <==> RecordsEnd(claimed, outcomes)
  {
    var asked, n := invoked + recorded, |claimed|;
    forall i | 0 <= i < n
      ensures asked[i] == Asked(Tool(claimed[i].id), outcomes[i]) && outcomes[i].Some?
      ensures asked[i + n] == recorded[i]
    {
      assert outcomes[i] in outcomes;
    }
  }

  /** An invocation the process ended in: then it asked for its batch's invocations and nothing else. */
  predicate SomeUnanswered(h: H, later: H) {
    exists p :: |h.trace| <= p < |later.trace| && later.trace[p].value == None
  }

  predicate TookTogether(h: H, claimed: seq<Settled>, r: R<bool>) {
    && h.trace <= r.h.trace
    && (r.Go? ==> BatchWent(claimed, Since(h, r.h)) && (r.v <==> BatchEnds(claimed, Since(h, r.h))))
    && (r.Stop? ==> SomeUnanswered(h, r.h))
  }

  lemma LastUnanswered(h: H, one: H, later: H)
    requires h.trace <= one.trace && Unanswered(one, later)
    ensures SomeUnanswered(h, later)
  {
    assert later.trace[|later.trace| - 1].value == None;
  }

  lemma InvocationUnanswered(h: H, later: H, claimed: seq<Settled>, outcomes: seq<Option<Value>>)
    requires |outcomes| == |claimed| && None in outcomes
    requires later.trace == h.trace + Invocations(claimed, outcomes)
    ensures SomeUnanswered(h, later)
  {
    var i :| 0 <= i < |outcomes| && outcomes[i] == None;
    assert later.trace[|h.trace| + i] == Invocations(claimed, outcomes)[i];
  }

  lemma TookRecorded(h: H, h1: H, claimed: seq<Settled>, outcomes: seq<Option<Value>>, r: R<bool>)
    requires |outcomes| == |claimed| && None !in outcomes && r.Go?
    requires h1.trace == h.trace + Invocations(claimed, outcomes) && h1.trace <= r.h.trace
    requires RecordsWent(claimed, outcomes, Since(h1, r.h)) && (r.v <==> RecordsEnd(claimed, outcomes))
    ensures TookTogether(h, claimed, r)
  {
    BatchJoined(claimed, outcomes, Invocations(claimed, outcomes), Since(h1, r.h));
    assert Since(h, r.h) == Invocations(claimed, outcomes) + Since(h1, r.h);
  }

  lemma TogetherFirst(e: Process, h: H, claimed: seq<Settled>)
    ensures var (h1, outcomes) := Invoked(e, h, claimed);
            Together(e, h, claimed)
            == if None in outcomes then Stop(h1) else RecordAll(e, h1, claimed, outcomes)
  {
  }

  /**
   * A batch goes on exactly if everything it asks for is answered. Then every tool was invoked before
   * anything was recorded, each call is recorded as its own tool said, each is noted to have run, and
   * the turn ends exactly if a `terminal` one of them succeeded.
   */
  lemma BatchGoes(e: Process, h: H, claimed: seq<Settled>)
    ensures TookTogether(h, claimed, Together(e, h, claimed))
    ensures Together(e, h, claimed).h.branches
            == h.branches + seq(|claimed|, i requires 0 <= i < |claimed| => (claimed[i].id, Run))
  {
    NotedWent(h, claimed);
    InvocationPositions(e, NotedAll(h, claimed), claimed);
    var (h1, outcomes) := Invoked(e, h, claimed);
    TogetherFirst(e, h, claimed);
    if None in outcomes {
      InvocationUnanswered(h, h1, claimed, outcomes);
    } else {
      RecordsGo(e, h1, claimed, outcomes);
      var r := RecordAll(e, h1, claimed, outcomes);
      if r.Go? {
        TookRecorded(h, h1, claimed, outcomes, r);
      } else {
        LastUnanswered(h, h1, r.h);
      }
    }
  }

  // ----- A turn's calls -----

  /** Nothing in it waits for a person or an agent. */
  predicate NothingWaits(claimed: seq<Settled>) {
    forall i :: 0 <= i < |claimed| ==>
      claimed[i].kind != Action && claimed[i].kind != Agent && claimed[i].kind != AskKind
  }

  predicate TookBatched(x: Fixed, h: H, calls: seq<Call>, r: R<bool>, claims: seq<Asked>, rest: seq<Asked>,
                        runs: seq<Ran>)
  {
    && (r.Go? ==>
          && r.h.trace == h.trace + (claims + rest)
          && ClaimsWent(calls, claims)
          && var claimed := AllClaimedAs(calls, claims);
             if NothingWaits(claimed) then BatchWent(claimed, rest) && (r.v <==> BatchEnds(claimed, rest))
             else AllCallsWent(x, claimed, runs) && rest == Flat(runs) && (r.v <==> AnyEnds(runs)))
    && (r.Stop? ==> SomeUnanswered(h, r.h))
  }

  lemma BatchedFirst(x: Fixed, e: Process, h: H, calls: seq<Call>)
    ensures var first := ClaimAll(e, h, calls);
            Batched(x, e, h, calls)
            == if first.Stop? then Stop(first.h)
               else if NothingWaits(first.v) then Together(e, first.h, first.v)
               else RunAll(x, e, first.h, first.v)
  {
    var first := ClaimAll(e, h, calls);
    if first.Go? {
      assert AllPlain(first.v) <==> NothingWaits(first.v);
    }
  }

  lemma BatchedTogether(x: Fixed, h: H, first: H, calls: seq<Call>, claimed: seq<Settled>, r: R<bool>)
    requires ClaimedAll(h, calls, Go(first, claimed)) && NothingWaits(claimed)
    requires TookTogether(first, claimed, r)
    ensures h.trace <= first.trace <= r.h.trace
    ensures TookBatched(x, h, calls, r, Since(h, first), Since(first, r.h), [])
  {
    assert r.h.trace == h.trace + (Since(h, first) + Since(first, r.h));
  }

  lemma BatchedApart(x: Fixed, h: H, first: H, calls: seq<Call>, claimed: seq<Settled>, r: R<bool>,
                     runs: seq<Ran>)
    requires ClaimedAll(h, calls, Go(first, claimed)) && !NothingWaits(claimed)
    requires first.trace <= r.h.trace && RanAll(x, first, claimed, r, runs)
    ensures h.trace <= first.trace <= r.h.trace
    ensures TookBatched(x, h, calls, r, Since(h, first), Since(first, r.h), runs)
  {
    SinceTwice(h, first, r.h);
    if r.Go? {
      SinceIs(first, r.h, Flat(runs));
    } else {
      LastUnanswered(h, first, r.h);
    }
  }

  lemma SinceTwice(h: H, one: H, later: H)
    requires h.trace <= one.trace <= later.trace
    ensures later.trace == h.trace + (Since(h, one) + Since(one, later))
  {
  }

  lemma SinceIs(h: H, later: H, asked: seq<Asked>)
    requires later.trace == h.trace + asked
    ensures Since(h, later) == asked
  {
  }

  /**
   * Calls claimed before any of them runs: all are claimed, in call order; then they run together if
   * nothing in them waits, and otherwise one by one.
   */
  lemma BatchedGoes(x: Fixed, e: Process, h: H, calls: seq<Call>)
    returns (claims: seq<Asked>, rest: seq<Asked>, runs: seq<Ran>)
    ensures TookBatched(x, h, calls, Batched(x, e, h, calls), claims, rest, runs)
  {
    claims, rest, runs := [], [], [];
    ClaimsGo(e, h, calls);
    BatchedFirst(x, e, h, calls);
    var first := ClaimAll(e, h, calls);
    if first.Stop? {
      LastUnanswered(h, h, first.h);
    } else if NothingWaits(first.v) {
      BatchGoes(e, first.h, first.v);
      var r := Together(e, first.h, first.v);
      BatchedTogether(x, h, first.h, calls, first.v, r);
      claims, rest := Since(h, first.h), Since(first.h, r.h);
    } else {
      runs := AllRun(x, e, first.h, first.v);
      var r := RunAll(x, e, first.h, first.v);
      BatchedApart(x, h, first.h, calls, first.v, r, runs);
      claims, rest := Since(h, first.h), Since(first.h, r.h);
    }
  }

  /** A mark takes a position of its own exactly where the runner says so. */
  lemma PatchedGoes(x: Fixed, e: Process, h: H, name: Name)
    requires !Computed(name)
    ensures var r := Patched(x, e, h, name);
            && r.h.branches == h.branches && h.trace <= r.h.trace
            && (r.Go? ==> WentThrough(Since(h, r.h), if x.patchTakes(NamesOf(h.trace), name) then [name] else []))
            && (r.Stop? ==> Unanswered(h, r.h))
  {
    QuietWent(e, h, [name]);
  }

  lemma ToolsFirst(x: Fixed, e: Process, h: H, calls: seq<Call>)
    ensures Tools(x, e, h, calls)
            == if !x.parallel || |calls| < 2 then Sequentially(x, e, h, calls)
               else
                 var mark := Patched(x, e, h, ToolsPatch);
                 if mark.Stop? then Stop(mark.h) else Batched(x, e, mark.h, calls)
  {
  }

  lemma EarlierUnanswered(h: H, one: H, later: H)
    requires h.trace <= one.trace && SomeUnanswered(one, later)
    ensures SomeUnanswered(h, later)
  {
  }

  /**
   * A turn's calls are taken one by one, unless the run allows more at once and there is more than
   * one: then they are claimed first, past the mark that says so.
   */
  lemma ToolsGo(x: Fixed, e: Process, h: H, calls: seq<Call>)
    returns (mark: seq<Asked>, at: H, claims: seq<Asked>, rest: seq<Asked>, runs: seq<Ran>)
    ensures if x.parallel && |calls| >= 2 then
              TookMarked(x, h, calls, Tools(x, e, h, calls), mark, at, claims, rest, runs)
            else TookAll(x, h, calls, Tools(x, e, h, calls), runs)
  {
    mark, at, claims, rest, runs := [], h, [], [], [];
    ToolsFirst(x, e, h, calls);
    if x.parallel && |calls| >= 2 {
      PatchedGoes(x, e, h, ToolsPatch);
      var first := Patched(x, e, h, ToolsPatch);
      if first.Go? {
        mark, at := Since(h, first.h), first.h;
        claims, rest, runs := BatchedGoes(x, e, at, calls);
        MarkJoined(x, h, calls, Batched(x, e, at, calls), mark, at, claims, rest, runs);
      } else {
        LastUnanswered(h, h, first.h);
      }
    } else {
      runs := SequentiallyGoes(x, e, h, calls);
    }
  }

  /** What taking calls together comes to, past the mark that says so. */
  predicate TookMarked(x: Fixed, h: H, calls: seq<Call>, r: R<bool>, mark: seq<Asked>, at: H, claims: seq<Asked>,
                       rest: seq<Asked>, runs: seq<Ran>)
  {
    && (r.Go? ==>
          && WentThrough(mark, if x.patchTakes(NamesOf(h.trace), ToolsPatch) then [ToolsPatch] else [])
          && at.trace == h.trace + mark
          && TookBatched(x, at, calls, r, claims, rest, runs))
    && (r.Stop? ==> SomeUnanswered(h, r.h))
  }

  lemma MarkJoined(x: Fixed, h: H, calls: seq<Call>, r: R<bool>, mark: seq<Asked>, at: H, claims: seq<Asked>,
                   rest: seq<Asked>, runs: seq<Ran>)
    requires h.trace <= at.trace && mark == Since(h, at)
    requires WentThrough(mark, if x.patchTakes(NamesOf(h.trace), ToolsPatch) then [ToolsPatch] else [])
    requires TookBatched(x, at, calls, r, claims, rest, runs)
    ensures TookMarked(x, h, calls, r, mark, at, claims, rest, runs)
  {
    if r.Stop? {
      EarlierUnanswered(h, at, r.h);
    }
  }
}
