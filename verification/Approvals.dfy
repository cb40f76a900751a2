/**
 * No tool that waits for a person runs before that person has approved: over everything a run asks for,
 * and over runs one after the other on one journal.
 */
module Approvals {
  import opened Common
  import opened Journal

  /** What a recorded claim says: the call is an action nobody approved beforehand. */
  predicate NeedsApproval(claim: Claim) {
    claim.kind == Some(Action) && claim.approval !in {Some(Auto), Some(Remembered)}
  }

  predicate IsClaim(trace: seq<Asked>, q: nat, id: Text) {
    q < |trace| && trace[q].name == PersistCall(id) && trace[q].value.Some?
  }

  predicate IsApproval(trace: seq<Asked>, r: nat, id: Text) {
    r < |trace| && trace[r] == Asked(ApprovalSignal(id), Some(Decided(Approve)))
  }

  ghost predicate Approved(trace: seq<Asked>, q: nat, p: nat, id: Text) {
    exists r: nat :: q < r < p && IsApproval(trace, r, id)
  }

  /** Before `p`, the call was claimed at `q`, and approved since if the claim needs that. */
  ghost predicate ClearedBy(trace: seq<Asked>, q: nat, p: nat, id: Text) {
    q < p && IsClaim(trace, q, id)
    && (NeedsApproval(ClaimOf(trace[q].value.value)) ==> Approved(trace, q, p, id))
  }

  ghost predicate Cleared(trace: seq<Asked>, p: nat, id: Text) {
    exists q: nat :: ClearedBy(trace, q, p, id)
  }

  ghost predicate GuardedAt(trace: seq<Asked>, p: nat)
    requires p < |trace|
  {
    trace[p].name.Tool? ==> Cleared(trace, p, trace[p].name.callId)
  }

  /** Every tool asked for between `h` and `later` was cleared by then. */
  ghost predicate Guarded(h: H, later: H) {
    && h.trace <= later.trace
    && (forall p :: |h.trace| <= p < |later.trace| ==> GuardedAt(later.trace, p))
  }

  // ----- Composing -----

  lemma ClearedStays(a: seq<Asked>, b: seq<Asked>, p: nat, later: nat, id: Text)
    requires a <= b && Cleared(a, p, id) && p <= |a| && p <= later
    ensures Cleared(b, later, id)
  {
    var q: nat :| ClearedBy(a, q, p, id);
    if NeedsApproval(ClaimOf(a[q].value.value)) {
      var r: nat :| q < r < p && IsApproval(a, r, id);
      assert IsApproval(b, r, id);
    }
    assert ClearedBy(b, q, later, id);
  }

  lemma Then(a: H, b: H, c: H)
    requires Guarded(a, b) && Guarded(b, c)
    ensures Guarded(a, c)
  {
    forall p | |a.trace| <= p < |c.trace| ensures GuardedAt(c.trace, p) {
      if p < |b.trace| {
        assert GuardedAt(b.trace, p) && b.trace[p] == c.trace[p];
        if b.trace[p].name.Tool? {
          ClearedStays(b.trace, c.trace, p, p, b.trace[p].name.callId);
        }
      }
    }
  }

  /** The loop noting a branch asks for nothing. */
  lemma Unasked(a: H, b: H)
    requires a.trace == b.trace
    ensures Guarded(a, b)
  {
  }

  // ----- Checkpoints -----

  lemma StepGuarded(e: Process, h: H, name: Name, body: Value)
    requires Fits(e, |h.trace|, name, body)
    requires name.Tool? ==> Cleared(h.trace, |h.trace|, name.callId)
    ensures Guarded(h, Step(e, h, name, body).h)
  {
    var later := Step(e, h, name, body).h.trace;
    assert |later| == |h.trace| + 1 && later[|h.trace|].name == name;
    if name.Tool? {
      ClearedStays(h.trace, later, |h.trace|, |h.trace|, name.callId);
    }
  }

  lemma AskGuarded(e: Process, h: H, name: Name)
    requires !Computed(name) && (name.Tool? ==> Cleared(h.trace, |h.trace|, name.callId))
    ensures Guarded(h, Ask(e, h, name).h)
  {
    StepGuarded(e, h, name, e.world(|h.trace|, name));
  }

  lemma {:induction false} QuietGuarded(e: Process, h: H, names: seq<Name>)
    requires forall i :: 0 <= i < |names| ==> !Computed(names[i]) && !names[i].Tool?
    ensures Guarded(h, Quiet(e, h, names).h)
    decreases |names|
  {
    if names == [] {
      Unasked(h, h);
    } else {
      var r := Ask(e, h, names[0]);
      AskGuarded(e, h, names[0]);
      if r.Go? {
        QuietGuarded(e, r.h, names[1..]);
        Then(h, r.h, Quiet(e, h, names).h);
      }
    }
  }

  lemma PatchedGuarded(x: Fixed, e: Process, h: H, name: Name)
    requires !Computed(name) && !name.Tool?
    ensures Guarded(h, Patched(x, e, h, name).h)
  {
    if x.patchTakes(NamesOf(h.trace), name) {
      QuietGuarded(e, h, [name]);
    } else {
      Unasked(h, h);
    }
  }

  // ----- One call -----

  /** The claim at `q` is the one the call was settled by. */
  predicate IsClaimOf(trace: seq<Asked>, q: nat, c: Settled) {
    && IsClaim(trace, q, c.id)
    && ClaimOf(trace[q].value.value) == c.claim
    && (c.claim.kind.Some? ==> c.kind == c.claim.kind.value)
  }

  ghost predicate IsClaimed(h: H, c: Settled) {
    exists q: nat :: IsClaimOf(h.trace, q, c)
  }

  lemma ClaimedStays(h: H, later: H, c: Settled)
    requires IsClaimed(h, c) && h.trace <= later.trace
    ensures IsClaimed(later, c)
  {
    var q: nat :| IsClaimOf(h.trace, q, c);
    assert IsClaimOf(later.trace, q, c);
  }

  lemma ClaimGuarded(e: Process, h: H, call: Call)
    ensures var r := ClaimCall(e, h, call);
            Guarded(h, r.h) && (r.Go? ==> IsClaimed(r.h, r.v))
  {
    var name := PersistCall(call.id);
    var body := ClaimBody(e.deps, call, e.world(|h.trace|, name));
    StepGuarded(e, h, name, body);
    var r := ClaimCall(e, h, call);
    if r.Go? {
      assert IsClaimOf(r.h.trace, |h.trace|, r.v);
    }
  }

  /** A call claimed as one that needs no approval is cleared. */
  lemma ClearedUnneeded(h: H, c: Settled)
    requires IsClaimed(h, c) && !NeedsApproval(c.claim)
    ensures Cleared(h.trace, |h.trace|, c.id)
  {
    var q: nat :| IsClaimOf(h.trace, q, c);
    assert ClearedBy(h.trace, q, |h.trace|, c.id);
  }

  lemma ExecuteGuarded(e: Process, h: H, c: Settled)
    requires Cleared(h.trace, |h.trace|, c.id)
    ensures Guarded(h, Execute(e, h, c).h)
  {
    var r := Ask(e, h, Tool(c.id));
    AskGuarded(e, h, Tool(c.id));
    if r.Go? {
      QuietGuarded(e, r.h, [Outcome(ResultOf(r.v), c.id)]);
      Then(h, r.h, Execute(e, h, c).h);
    }
  }

  lemma ApprovalClears(e: Process, h: H, c: Settled)
    requires IsClaimed(h, c)
    ensures var r := Ask(e, h, ApprovalSignal(c.id));
            r.Go? && r.v == Decided(Approve) ==> Cleared(r.h.trace, |r.h.trace|, c.id)
  {
    var r := Ask(e, h, ApprovalSignal(c.id));
    var q: nat :| IsClaimOf(h.trace, q, c);
    if r.Go? && r.v == Decided(Approve) {
      assert IsApproval(r.h.trace, |h.trace|, c.id);
      assert IsClaimOf(r.h.trace, q, c);
      assert ClearedBy(r.h.trace, q, |r.h.trace|, c.id);
    }
  }

  lemma ApprovalGuarded(e: Process, h: H, c: Settled)
    requires IsClaimed(h, c)
    ensures Guarded(h, RunApproval(e, h, c).h)
  {
    var r := Ask(e, h, ApprovalSignal(c.id));
    AskGuarded(e, h, ApprovalSignal(c.id));
    if r.Go? {
      if r.v.Decided? && r.v.decision == Approve {
        ApprovalClears(e, h, c);
        ExecuteGuarded(e, r.h, c);
      } else {
        QuietGuarded(e, r.h, [Reject(c.id)]);
      }
      Then(h, r.h, RunApproval(e, h, c).h);
    }
  }

  lemma DelegationGuarded(x: Fixed, e: Process, h: H, c: Settled)
    ensures Guarded(h, RunDelegation(x, e, h, c).h)
  {
    QuietGuarded(e, h,
      match BranchOf(x, c)
      case Start => [Spawn(c.id), Exec(c.id)]
      case Delegate => [Child(c.id), Exec(c.id)]
      case _ => [Exec(c.id)]);
  }

  lemma PreflightGuarded(e: Process, h: H, c: Settled)
    requires c.claim.preflight.Some?
    ensures Guarded(h, RunPreflight(e, h, c).h)
  {
    var p := c.claim.preflight.value;
    QuietGuarded(e, h,
      if p == Completed then (if c.claim.presents then [Present(c.id)] else []) + [Exec(c.id)]
      else if p == Denied then [Reject(c.id)]
      else [Fail(c.id)]);
  }

  lemma AnswersGuarded(e: Process, h: H, c: Settled)
    ensures Guarded(h, AwaitAnswers(e, h, c).h)
  {
    var r := Ask(e, h, Answers(c.id));
    AskGuarded(e, h, Answers(c.id));
    if r.Go? {
      QuietGuarded(e, r.h, [if r.v.Replied? && r.v.skipped then Reject(c.id) else Exec(c.id)]);
      Then(h, r.h, AwaitAnswers(e, h, c).h);
    }
  }

  lemma QuestionGuarded(x: Fixed, e: Process, h: H, c: Settled)
    ensures Guarded(h, RunQuestion(x, e, h, c).h)
  {
    if !x.validQuestions(c.input) {
      QuietGuarded(e, h, [Fail(c.id)]);
    } else {
      var r := Quiet(e, h, [Elicit(c.id)]);
      QuietGuarded(e, h, [Elicit(c.id)]);
      if r.Go? {
        AnswersGuarded(e, r.h, c);
        Then(h, r.h, RunQuestion(x, e, h, c).h);
      }
    }
  }

  lemma BranchGuarded(x: Fixed, e: Process, h: H, c: Settled)
    requires IsClaimed(h, c)
    ensures match BranchOf(x, c)
            case Propose => true
            case Question => Guarded(h, RunQuestion(x, e, h, c).h)
            case Settle => Guarded(h, RunPreflight(e, h, c).h)
            case Park => Guarded(h, RunApproval(e, h, c).h)
            case Run => Guarded(h, Execute(e, h, c).h)
            case _ => Guarded(h, RunDelegation(x, e, h, c).h)
  {
    match BranchOf(x, c)
    case Propose =>
    case Question => QuestionGuarded(x, e, h, c);
    case Settle => PreflightGuarded(e, h, c);
    case Park => ApprovalGuarded(e, h, c);
    case Run =>
      RunNeedsNone(x, h, c);
      ClearedUnneeded(h, c);
      ExecuteGuarded(e, h, c);
    case _ => DelegationGuarded(x, e, h, c);
  }

  lemma RunNeedsNone(x: Fixed, h: H, c: Settled)
    requires IsClaimed(h, c) && BranchOf(x, c) == Run
    ensures !NeedsApproval(c.claim)
  {
    var q: nat :| IsClaimOf(h.trace, q, c);
  }

  lemma CallGuarded(x: Fixed, e: Process, h: H, c: Settled)
    requires IsClaimed(h, c)
    ensures Guarded(h, RunCall(x, e, h, c).h)
  {
    var noted := Noted(h, c.id, BranchOf(x, c));
    Unasked(h, noted);
    ClaimedStays(h, noted, c);
    BranchGuarded(x, e, noted, c);
    if BranchOf(x, c) != Propose {
      Then(h, noted, RunCall(x, e, h, c).h);
    }
  }

  // ----- A turn's calls -----

  lemma {:induction false} SequentiallyGuarded(x: Fixed, e: Process, h: H, calls: seq<Call>)
    ensures Guarded(h, Sequentially(x, e, h, calls).h)
    decreases |calls|, 0
  {
    if calls == [] {
      Unasked(h, h);
    } else {
      var r := ClaimCall(e, h, calls[0]);
      ClaimGuarded(e, h, calls[0]);
      if r.Go? {
        RunThenGuarded(x, e, r.h, r.v, calls[1..]);
        Then(h, r.h, Sequentially(x, e, h, calls).h);
      }
    }
  }

  lemma {:induction false} RunThenGuarded(x: Fixed, e: Process, h: H, c: Settled, others: seq<Call>)
    requires IsClaimed(h, c)
    ensures Guarded(h, RunThen(x, e, h, c, others).h)
    decreases |others|, 1
  {
    var r := RunCall(x, e, h, c);
    CallGuarded(x, e, h, c);
    if r.Go? {
      SequentiallyGuarded(x, e, r.h, others);
      Then(h, r.h, RunThen(x, e, h, c, others).h);
    }
  }

  ghost predicate AllClaimed(h: H, claimed: seq<Settled>) {
    forall i :: 0 <= i < |claimed| ==> IsClaimed(h, claimed[i])
  }

  lemma AllClaimedStays(h: H, later: H, claimed: seq<Settled>)
    requires AllClaimed(h, claimed) && h.trace <= later.trace
    ensures AllClaimed(later, claimed)
  {
    forall i | 0 <= i < |claimed| ensures IsClaimed(later, claimed[i]) {
      ClaimedStays(h, later, claimed[i]);
    }
  }

  lemma {:induction false} ClaimAllGuarded(e: Process, h: H, calls: seq<Call>)
    ensures var r := ClaimAll(e, h, calls);
            Guarded(h, r.h) && (r.Go? ==> AllClaimed(r.h, r.v))
    decreases |calls|
  {
    if calls == [] {
      Unasked(h, h);
    } else {
      var first, r := ClaimCall(e, h, calls[0]), ClaimAll(e, h, calls);
      ClaimGuarded(e, h, calls[0]);
      if first.Go? {
        ClaimAllGuarded(e, first.h, calls[1..]);
        Then(h, first.h, r.h);
        if r.Go? {
          ClaimedStays(first.h, r.h, first.v);
          ClaimedMore(r.h, first.v, ClaimAll(e, first.h, calls[1..]).v);
        }
      }
    }
  }

  lemma ClaimedMore(h: H, c: Settled, claimed: seq<Settled>)
    requires IsClaimed(h, c) && AllClaimed(h, claimed)
    ensures AllClaimed(h, [c] + claimed)
  {
  }

  lemma {:induction false} RunAllGuarded(x: Fixed, e: Process, h: H, claimed: seq<Settled>)
    requires AllClaimed(h, claimed)
    ensures Guarded(h, RunAll(x, e, h, claimed).h)
    decreases |claimed|
  {
    if claimed == [] {
      Unasked(h, h);
    } else {
      var r := RunCall(x, e, h, claimed[0]);
      CallGuarded(x, e, h, claimed[0]);
      if r.Go? {
        AllClaimedStays(h, r.h, claimed[1..]);
        RunAllGuarded(x, e, r.h, claimed[1..]);
        Then(h, r.h, RunAll(x, e, h, claimed).h);
      }
    }
  }

  lemma PlainNeedsNone(h: H, c: Settled)
    requires IsClaimed(h, c) && c.kind in {Read, Skill, Memory}
    ensures !NeedsApproval(c.claim)
  {
    var q: nat :| IsClaimOf(h.trace, q, c);
  }

  lemma {:induction false} InvokeAllGuarded(e: Process, h: H, claimed: seq<Settled>)
    requires AllClaimed(h, claimed) && AllPlain(claimed)
    ensures Guarded(h, InvokeAll(e, h, claimed).0)
    decreases |claimed|
  {
    if claimed == [] {
      Unasked(h, h);
    } else {
      var first := Ask(e, h, Tool(claimed[0].id));
      PlainNeedsNone(h, claimed[0]);
      ClearedUnneeded(h, claimed[0]);
      AskGuarded(e, h, Tool(claimed[0].id));
      AllClaimedStays(h, first.h, claimed[1..]);
      InvokeAllGuarded(e, first.h, claimed[1..]);
      InvokeFirst(e, h, claimed);
      Then(h, first.h, InvokeAll(e, h, claimed).0);
    }
  }

  lemma {:induction false} RecordAllGuarded(e: Process, h: H, claimed: seq<Settled>,
                                            outcomes: seq<Option<Value>>)
    requires |outcomes| == |claimed|
    ensures Guarded(h, RecordAll(e, h, claimed, outcomes).h)
    decreases |claimed|
  {
    if claimed == [] {
      Unasked(h, h);
    } else {
      var result := if outcomes[0].Some? then ResultOf(outcomes[0].value) else Failed;
      var r := Quiet(e, h, [Outcome(result, claimed[0].id)]);
      QuietGuarded(e, h, [Outcome(result, claimed[0].id)]);
      if r.Go? {
        RecordAllGuarded(e, r.h, claimed[1..], outcomes[1..]);
        Then(h, r.h, RecordAll(e, h, claimed, outcomes).h);
      }
    }
  }

  lemma TogetherGuarded(e: Process, h: H, claimed: seq<Settled>)
    requires AllClaimed(h, claimed) && AllPlain(claimed)
    ensures Guarded(h, Together(e, h, claimed).h)
  {
    var noted := NotedAll(h, claimed);
    Unasked(h, noted);
    AllClaimedStays(h, noted, claimed);
    var (launched, outcomes) := InvokeAll(e, noted, claimed);
    InvokeAllGuarded(e, noted, claimed);
    Then(h, noted, launched);
    if None !in outcomes {
      RecordAllGuarded(e, launched, claimed, outcomes);
      Then(h, launched, Together(e, h, claimed).h);
    }
  }

  lemma BatchedGuarded(x: Fixed, e: Process, h: H, calls: seq<Call>)
    ensures Guarded(h, Batched(x, e, h, calls).h)
  {
    var r := ClaimAll(e, h, calls);
    ClaimAllGuarded(e, h, calls);
    if r.Go? {
      if AllPlain(r.v) {
        TogetherGuarded(e, r.h, r.v);
      } else {
        RunAllGuarded(x, e, r.h, r.v);
      }
      Then(h, r.h, Batched(x, e, h, calls).h);
    }
  }

  lemma ToolsGuarded(x: Fixed, e: Process, h: H, calls: seq<Call>)
    ensures Guarded(h, Tools(x, e, h, calls).h)
  {
    if x.parallel && |calls| > 1 {
      var r := Patched(x, e, h, ToolsPatch);
      PatchedGuarded(x, e, h, ToolsPatch);
      if r.Go? {
        BatchedGuarded(x, e, r.h, calls);
        Then(h, r.h, Tools(x, e, h, calls).h);
      }
    } else {
      SequentiallyGuarded(x, e, h, calls);
    }
  }

  // ----- A whole run -----

  lemma HaltGuarded(x: Fixed, e: Process, h: H, name: Name)
    requires !Computed(name) && !name.Tool?
    ensures Guarded(h, HaltIfCancelled(x, e, h, name).h)
  {
    if x.cancellable {
      AskGuarded(e, h, name);
    } else {
      Unasked(h, h);
    }
  }

  lemma StepToolsGuarded(x: Fixed, e: Process, h: H, i: nat, calls: seq<Call>)
    ensures Guarded(h, StepTools(x, e, h, i, calls).h)
  {
    var r := Tools(x, e, h, calls);
    ToolsGuarded(x, e, h, calls);
    if r.Go? {
      QuietGuarded(e, r.h, [ToolOutputs(i), StepFinish(i)]);
      Then(h, r.h, StepTools(x, e, h, i, calls).h);
    }
  }

  lemma CallToolsGuarded(x: Fixed, e: Process, h: H, i: nat, calls: seq<Call>)
    ensures Guarded(h, CallTools(x, e, h, i, calls).h)
  {
    if calls == [] {
      QuietGuarded(e, h, [StepFinish(i)]);
    } else {
      var r := HaltIfCancelled(x, e, h, CancelTools(i));
      HaltGuarded(x, e, h, CancelTools(i));
      if r.Go? {
        StepToolsGuarded(x, e, r.h, i, WithKinds(e.deps, calls));
        Then(h, r.h, CallTools(x, e, h, i, calls).h);
      }
    }
  }

  lemma AfterMessageGuarded(x: Fixed, e: Process, h: H, i: nat, synthetic: bool, message: Value,
                            calls: seq<Call>)
    ensures Guarded(h, AfterMessage(x, e, h, i, synthetic, message, calls).h)
  {
    if !message.Appended? || message.messageId.None? {
      QuietGuarded(e, h, [StepFinish(i)]);
    } else {
      var names := if synthetic then [PersistRetrieval(message.messageId.value)] else [];
      var r := Quiet(e, h, names);
      QuietGuarded(e, h, names);
      if r.Go? {
        CallToolsGuarded(x, e, r.h, i, calls);
        Then(h, r.h, AfterMessage(x, e, h, i, synthetic, message, calls).h);
      }
    }
  }

  lemma AnswerGuarded(x: Fixed, e: Process, h: H, o: Opened, i: nat, turn: Value)
    ensures Guarded(h, Answer(x, e, h, o, i, turn).h)
  {
    var name, synthetic := PersistAssistant(i), i == 0 && o.passages > 0;
    var body := MessageBody(turn, synthetic, e.world(|h.trace|, name));
    var r := Step(e, h, name, body);
    StepGuarded(e, h, name, body);
    if r.Go? {
      AfterMessageGuarded(x, e, r.h, i, synthetic, r.v, CallsOf(turn));
      Then(h, r.h, Answer(x, e, h, o, i, turn).h);
    }
  }

  lemma BilledGuarded(x: Fixed, e: Process, h: H, o: Opened, i: nat, turn: Value)
    ensures Guarded(h, Billed(x, e, h, o, i, turn).h)
  {
    var r := Quiet(e, h, [PersistUsage(i)]);
    QuietGuarded(e, h, [PersistUsage(i)]);
    if r.Go? {
      AnswerGuarded(x, e, r.h, o, i, turn);
      Then(h, r.h, Billed(x, e, h, o, i, turn).h);
    }
  }

  lemma ModelGuarded(x: Fixed, e: Process, h: H, o: Opened, i: nat)
    ensures Guarded(h, Model(x, e, h, o, i).h)
  {
    var r := Ask(e, h, Llm(i));
    AskGuarded(e, h, Llm(i));
    if r.Go? {
      BilledGuarded(x, e, r.h, o, i, r.v);
      Then(h, r.h, Model(x, e, h, o, i).h);
    }
  }

  lemma StepBodyGuarded(x: Fixed, e: Process, h: H, o: Opened, i: nat)
    ensures Guarded(h, StepBody(x, e, h, o, i).h)
  {
    var r := Quiet(e, h, [StepStart(i)]);
    QuietGuarded(e, h, [StepStart(i)]);
    if r.Go? {
      ModelGuarded(x, e, r.h, o, i);
      Then(h, r.h, StepBody(x, e, h, o, i).h);
    }
  }

  lemma OneStepGuarded(x: Fixed, e: Process, h: H, o: Opened, i: nat)
    ensures Guarded(h, OneStep(x, e, h, o, i).h)
  {
    var r := HaltIfCancelled(x, e, h, CancelCheck(i));
    HaltGuarded(x, e, h, CancelCheck(i));
    if r.Go? {
      StepBodyGuarded(x, e, r.h, o, i);
      Then(h, r.h, OneStep(x, e, h, o, i).h);
    }
  }

  lemma {:induction false} LoopGuarded(x: Fixed, e: Process, h: H, o: Opened, i: nat)
    ensures Guarded(h, Loop(x, e, h, o, i).h)
    decreases x.maxSteps - i
  {
    if i >= x.maxSteps {
      Unasked(h, h);
    } else {
      var r := OneStep(x, e, h, o, i);
      OneStepGuarded(x, e, h, o, i);
      if r.Go? && r.v {
        LoopGuarded(x, e, r.h, o, i + 1);
        Then(h, r.h, Loop(x, e, h, o, i).h);
      }
    }
  }

  lemma TurnsGuarded(x: Fixed, e: Process, h: H, o: Opened)
    ensures Guarded(h, Turns(x, e, h, o).h)
  {
    var r := Loop(x, e, h, o, 0);
    LoopGuarded(x, e, h, o, 0);
    if r.Go? {
      QuietGuarded(e, r.h, Closing(x, o));
      Then(h, r.h, Turns(x, e, h, o).h);
    }
  }

  lemma BodyGuarded(x: Fixed, e: Process, h: H, o: Opened)
    ensures Guarded(h, Body(x, e, h, o).h)
  {
    if x.cancellable {
      var r := Patched(x, e, h, CancelPatch);
      PatchedGuarded(x, e, h, CancelPatch);
      if r.Go? {
        TurnsGuarded(x, e, r.h, o);
        Then(h, r.h, Body(x, e, h, o).h);
      }
    } else {
      TurnsGuarded(x, e, h, o);
    }
  }

  lemma RetrievalGuarded(e: Process, h: H, thread: Value, stages: Value)
    requires stages.Stages?
    ensures Guarded(h, Retrieval(e, h, thread, stages).h)
  {
    var r := if stages.retriever then Ask(e, h, Retrieve) else Go(h, Passages(0));
    if stages.retriever {
      AskGuarded(e, h, Retrieve);
    } else {
      Unasked(h, h);
    }
    if r.Go? {
      QuietGuarded(e, r.h, if stages.skills then [SkillsCatalog] else []);
      Then(h, r.h, Retrieval(e, h, thread, stages).h);
    }
  }

  lemma PromptGuarded(e: Process, h: H, thread: Value, stages: Value)
    requires stages.Stages?
    ensures Guarded(h, Prompt(e, h, thread, stages).h)
  {
    var names := [StartedAt, RunStart] + (if stages.memory then [MemoryDigest] else []);
    var r := Quiet(e, h, names);
    QuietGuarded(e, h, names);
    if r.Go? {
      RetrievalGuarded(e, r.h, thread, stages);
      Then(h, r.h, Prompt(e, h, thread, stages).h);
    }
  }

  lemma StagedGuarded(e: Process, h: H, thread: Value)
    ensures Guarded(h, Staged(e, h, thread).h)
  {
    var body := Stages(e.deps.memory, e.deps.retriever, e.deps.skills);
    var r := Step(e, h, PromptStages, body);
    StepGuarded(e, h, PromptStages, body);
    if r.Go? {
      PromptGuarded(e, r.h, thread, StagesOf(r.v));
      Then(h, r.h, Staged(e, h, thread).h);
    }
  }

  lemma ResolvingGuarded(x: Fixed, e: Process, h: H, thread: Value)
    ensures Guarded(h, Resolving(x, e, h, thread).h)
  {
    var r := Patched(x, e, h, StagesPatch);
    PatchedGuarded(x, e, h, StagesPatch);
    if r.Go? {
      StagedGuarded(e, r.h, thread);
      Then(h, r.h, Resolving(x, e, h, thread).h);
    }
  }

  lemma LoadingGuarded(x: Fixed, e: Process, h: H)
    ensures Guarded(h, Loading(x, e, h).h)
  {
    var r := Ask(e, h, LoadThread);
    AskGuarded(e, h, LoadThread);
    if r.Go? {
      ResolvingGuarded(x, e, r.h, r.v);
      Then(h, r.h, Loading(x, e, h).h);
    }
  }

  lemma HistoryGuarded(x: Fixed, e: Process, h: H)
    ensures Guarded(h, History(x, e, h).h)
  {
    var r := Patched(x, e, h, HistoryPatch);
    PatchedGuarded(x, e, h, HistoryPatch);
    if r.Go? {
      LoadingGuarded(x, e, r.h);
      Then(h, r.h, History(x, e, h).h);
    }
  }

  lemma OpeningGuarded(x: Fixed, e: Process, h: H)
    ensures Guarded(h, Opening(x, e, h).h)
  {
    var names := Intake(x);
    var r := Quiet(e, h, names);
    QuietGuarded(e, h, names);
    if r.Go? {
      HistoryGuarded(x, e, r.h);
      Then(h, r.h, Opening(x, e, h).h);
    }
  }

  lemma RunGuarded(x: Fixed, e: Process)
    ensures Guarded(H([], []), RunLoop(x, e).h)
  {
    var start := H([], []);
    var r := Opening(x, e, start);
    OpeningGuarded(x, e, start);
    if r.Go? {
      BodyGuarded(x, e, r.h, r.v);
      Then(start, r.h, RunLoop(x, e).h);
    }
  }

  /** The call is claimed at `q` and nowhere else. */
  ghost predicate ClaimedOnceAt(trace: seq<Asked>, q: nat, id: Text) {
    IsClaim(trace, q, id) && forall k: nat :: IsClaim(trace, k, id) ==> k == q
  }

  /**
   * Everything a run asks for, whatever journal it was given: where a call was claimed as one that waits
   * for a person, its tool comes after the claim, and an approval of the call between them.
   */
  lemma NeverUnapproved(x: Fixed, e: Process, q: nat, p: nat, id: Text)
    requires var trace := RunLoop(x, e).h.trace;
             && ClaimedOnceAt(trace, q, id) && NeedsApproval(ClaimOf(trace[q].value.value))
             && p < |trace| && trace[p].name == Tool(id)
    ensures q < p && Approved(RunLoop(x, e).h.trace, q, p, id)
  {
    var trace := RunLoop(x, e).h.trace;
    RunGuarded(x, e);
    assert GuardedAt(trace, p);
    var k: nat :| ClearedBy(trace, k, p, id);
  }

  // ----- Runs one after the other -----

  /** The journal's entry at `p`, if it is one of `name`. */
  predicate Holds(journal: map<nat, Entry>, p: nat, name: Name) {
    p in journal && journal[p].name == name
  }

  predicate HoldsApproval(journal: map<nat, Entry>, r: nat, id: Text) {
    r in journal && journal[r] == Entry(ApprovalSignal(id), Decided(Approve))
  }

  ghost predicate ApprovedIn(journal: map<nat, Entry>, q: nat, p: nat, id: Text) {
    exists r: nat :: q < r < p && HoldsApproval(journal, r, id)
  }

  /** As `ClearedBy`, read off the journal. */
  ghost predicate ClearedIn(journal: map<nat, Entry>, q: nat, p: nat, id: Text) {
    && q < p && Holds(journal, q, PersistCall(id))
    && (NeedsApproval(ClaimOf(journal[q].value)) ==> ApprovedIn(journal, q, p, id))
  }

  /** Whatever the trace was answered, the journal holds. */
  ghost predicate Keeps(journal: map<nat, Entry>, trace: seq<Asked>) {
    forall p :: 0 <= p < |trace| && trace[p].value.Some? ==>
      p in journal && journal[p] == Entry(trace[p].name, trace[p].value.value)
  }

  lemma ClearedIsKept(journal: map<nat, Entry>, trace: seq<Asked>, p: nat, id: Text) returns (q: nat)
    requires Keeps(journal, trace) && Cleared(trace, p, id)
    ensures ClearedIn(journal, q, p, id)
  {
    q :| ClearedBy(trace, q, p, id);
    if NeedsApproval(ClaimOf(trace[q].value.value)) {
      var r: nat :| q < r < p && IsApproval(trace, r, id);
      assert HoldsApproval(journal, r, id);
    }
  }

  lemma KeptByMatch(journal: map<nat, Entry>, trace: seq<Asked>)
    requires WellKept(journal, trace)
    ensures Keeps(journal, trace)
  {
  }

  lemma HeldWasAsked(journal: map<nat, Entry>, trace: seq<Asked>, p: nat, name: Name)
    requires WellKept(journal, trace) && Holds(journal, p, name)
    ensures p < |trace| && trace[p].name == name
  {
  }

  /**
   * Over runs one after the other on one journal: an execution the journal holds was preceded by a claim
   * the journal holds, and if that says the call waits for a person, by that person's approval after it.
   */
  lemma JournalNeverUnapproved(x: Fixed, processes: seq<Process>, p: nat, id: Text) returns (q: nat)
    requires processes != [] && Holds(JournalOf(x, processes), p, Tool(id))
    ensures ClearedIn(JournalOf(x, processes), q, p, id)
  {
    var trace, journal := RunLoop(x, Last(x, processes)).h.trace, JournalOf(x, processes);
    JournalWellKept(x, processes);
    HeldWasAsked(journal, trace, p, Tool(id));
    KeptByMatch(journal, trace);
    RunGuarded(x, Last(x, processes));
    assert GuardedAt(trace, p);
    q := ClearedIsKept(journal, trace, p, id);
  }
}
