/**
 * What the loop may do for one tool call: what it asks for last, and what it may not reach before a
 * person has approved.
 */
module CallSafety {
  import opened Common
  import opened Journal

  predicate IsSettlement(name: Name, id: Text) {
    name == Exec(id) || name == Reject(id) || name == Fail(id)
  }

  /** From `h` to `last` something was asked for, and how the call ended was asked for last. */
  predicate Ends(h: H, last: H, id: Text) {
    |last.trace| > |h.trace| && IsSettlement(last.trace[|last.trace| - 1].name, id)
  }

  lemma QuietEnds(e: Process, h: H, names: seq<Name>)
    requires names != [] && forall i :: 0 <= i < |names| ==> !Computed(names[i])
    requires Quiet(e, h, names).Go?
    ensures var last := Quiet(e, h, names).h;
            |last.trace| == |h.trace| + |names| && last.trace[|last.trace| - 1].name == names[|names| - 1]
    decreases |names|
  {
    var h1 := Ask(e, h, names[0]).h;
    if |names| > 1 {
      QuietEnds(e, h1, names[1..]);
    }
  }

  lemma ExecuteSettles(e: Process, h: H, c: Settled)
    requires Execute(e, h, c).Go?
    ensures Ends(h, Execute(e, h, c).h, c.id)
  {
    var r := Ask(e, h, Tool(c.id));
    QuietEnds(e, r.h, [Outcome(ResultOf(r.v), c.id)]);
  }

  lemma QuestionSettles(x: Fixed, e: Process, h: H, c: Settled)
    requires RunQuestion(x, e, h, c).Go?
    ensures Ends(h, RunQuestion(x, e, h, c).h, c.id)
  {
    if !x.validQuestions(c.input) {
      QuietEnds(e, h, [Fail(c.id)]);
    } else {
      var h1 := Quiet(e, h, [Elicit(c.id)]).h;
      var r := Ask(e, h1, Answers(c.id));
      QuietEnds(e, r.h, [if r.v.Replied? && r.v.skipped then Reject(c.id) else Exec(c.id)]);
    }
  }

  lemma ApprovalSettles(e: Process, h: H, c: Settled)
    requires RunApproval(e, h, c).Go?
    ensures Ends(h, RunApproval(e, h, c).h, c.id)
  {
    var r := Ask(e, h, ApprovalSignal(c.id));
    if r.v.Decided? && r.v.decision == Approve {
      ExecuteSettles(e, r.h, c);
    } else {
      QuietEnds(e, r.h, [Reject(c.id)]);
    }
  }

  lemma PreflightSettles(e: Process, h: H, c: Settled)
    requires c.claim.preflight.Some? && RunPreflight(e, h, c).Go?
    ensures Ends(h, RunPreflight(e, h, c).h, c.id)
  {
    var p := c.claim.preflight.value;
    QuietEnds(e, h,
      if p == Completed then (if c.claim.presents then [Present(c.id)] else []) + [Exec(c.id)]
      else if p == Denied then [Reject(c.id)]
      else [Fail(c.id)]);
  }

  lemma DelegationSettles(x: Fixed, e: Process, h: H, c: Settled)
    requires RunDelegation(x, e, h, c).Go?
    ensures Ends(h, RunDelegation(x, e, h, c).h, c.id)
  {
    QuietEnds(e, h,
      match BranchOf(x, c)
      case Start => [Spawn(c.id), Exec(c.id)]
      case Delegate => [Child(c.id), Exec(c.id)]
      case _ => [Exec(c.id)]);
  }

  lemma CallTakesItsBranch(x: Fixed, e: Process, h: H, c: Settled)
    requires BranchOf(x, c) != Propose
    ensures var h0 := Noted(h, c.id, BranchOf(x, c));
            RunCall(x, e, h, c) == match BranchOf(x, c)
                                   case Question => RunQuestion(x, e, h0, c)
                                   case Settle => RunPreflight(e, h0, c)
                                   case Park => RunApproval(e, h0, c)
                                   case Run => Execute(e, h0, c)
                                   case _ => RunDelegation(x, e, h0, c)
  {
  }

  lemma BranchSettles(x: Fixed, e: Process, h: H, c: Settled)
    requires BranchOf(x, c) != Propose
    requires match BranchOf(x, c)
             case Question => RunQuestion(x, e, h, c).Go?
             case Settle => RunPreflight(e, h, c).Go?
             case Park => RunApproval(e, h, c).Go?
             case Run => Execute(e, h, c).Go?
             case _ => RunDelegation(x, e, h, c).Go?
    ensures match BranchOf(x, c)
            case Question => Ends(h, RunQuestion(x, e, h, c).h, c.id)
            case Settle => Ends(h, RunPreflight(e, h, c).h, c.id)
            case Park => Ends(h, RunApproval(e, h, c).h, c.id)
            case Run => Ends(h, Execute(e, h, c).h, c.id)
            case _ => Ends(h, RunDelegation(x, e, h, c).h, c.id)
  {
    match BranchOf(x, c)
    case Question => QuestionSettles(x, e, h, c);
    case Settle => PreflightSettles(e, h, c);
    case Park => ApprovalSettles(e, h, c);
    case Run => ExecuteSettles(e, h, c);
    case _ => DelegationSettles(x, e, h, c);
  }

  /** Whatever branch a call takes, recording how it ended is the last thing done for it. */
  lemma CallIsSettledLast(x: Fixed, e: Process, h: H, c: Settled)
    requires RunCall(x, e, h, c).Go? && BranchOf(x, c) != Propose
    ensures Ends(h, RunCall(x, e, h, c).h, c.id)
  {
    CallTakesItsBranch(x, e, h, c);
    BranchSettles(x, e, Noted(h, c.id, BranchOf(x, c)), c);
  }

  lemma QuietAsks(e: Process, h: H, names: seq<Name>, p: nat)
    requires forall i :: 0 <= i < |names| ==> !Computed(names[i])
    requires |h.trace| <= p < |Quiet(e, h, names).h.trace|
    ensures Quiet(e, h, names).h.trace[p].name in names
    decreases |names|
  {
    var r := Ask(e, h, names[0]);
    if p >= |r.h.trace| {
      QuietAsks(e, r.h, names[1..], p);
    } else {
      assert Quiet(e, h, names).h.trace[p] == r.h.trace[p];
    }
  }

  /**
   * A call that waits for a person's approval is not executed before the approval is in the journal:
   * the first thing asked for is the decision, and its tool is reached only past an approval.
   */
  lemma NotExecutedUnapproved(x: Fixed, e: Process, h: H, c: Settled, p: nat)
    requires BranchOf(x, c) == Park
    requires |h.trace| <= p < |RunCall(x, e, h, c).h.trace|
    requires RunCall(x, e, h, c).h.trace[p].name == Tool(c.id)
    ensures p > |h.trace|
    ensures RunCall(x, e, h, c).h.trace[|h.trace|] == Asked(ApprovalSignal(c.id), Some(Decided(Approve)))
  {
    var h0 := Noted(h, c.id, Park);
    var r := Ask(e, h0, ApprovalSignal(c.id));
    var last := RunCall(x, e, h, c).h;
    assert last == RunApproval(e, h0, c).h;
    assert r.h.trace <= last.trace;
    assert last.trace[|h.trace|] == r.h.trace[|h.trace|];
    if r.Go? && !(r.v.Decided? && r.v.decision == Approve) {
      if p > |h.trace| {
        QuietAsks(e, r.h, [Reject(c.id)], p);
      }
    }
  }
}
