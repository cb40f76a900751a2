/**
 * What a whole run asks for: the checkpoints up to the first model call, each step's, and those that
 * end the run, told from the configuration and from what earlier checkpoints answered.
 */
module RunOutline {
  import opened Common
  import opened Journal
  import opened CallOutcomes

  // ----- Up to the first model call -----

  const START := H([], [])

  /** A mark goes behind what was asked for where the runner says it takes a position. */
  function Marked(x: Fixed, names: seq<Name>, mark: Name): (marked: seq<Name>) {
    if x.patchTakes(names, mark) then names + [mark] else names
  }

  function UpToMessage(x: Fixed): (names: seq<Name>) {
    match (x.persona, x.regenerate)
    case (true, true) => [PersonaResolve, RegenerateTruncate]
    case (true, false) => [PersonaResolve, PersistUser]
    case (false, true) => [RegenerateTruncate]
    case (false, false) => [PersistUser]
  }

  function UpToThread(x: Fixed): (names: seq<Name>) {
    Marked(x, UpToMessage(x), HistoryPatch) + [LoadThread]
  }

  function UpToStages(x: Fixed): (names: seq<Name>) {
    Marked(x, UpToThread(x), StagesPatch) + [PromptStages]
  }

  function UpToMemory(x: Fixed, memory: bool): (names: seq<Name>) {
    UpToStages(x) + if memory then [StartedAt, RunStart, MemoryDigest] else [StartedAt, RunStart]
  }

  function UpToModel(x: Fixed, memory: bool, retriever: bool, skills: bool): (names: seq<Name>) {
    UpToMemory(x, memory) + (if retriever then [Retrieve] else []) + (if skills then [SkillsCatalog] else [])
  }

  /** The stages a journal says a run's prompt has. */
  function RecordedStages(trace: seq<Asked>, at: nat): (stages: (bool, bool, bool))
    requires at < |trace|
  {
    match trace[at].value
    case Some(Stages(memory, retriever, skills)) => (memory, retriever, skills)
    case _ => (false, false, false)
  }

  /**
   * The recorded stages say which prompt stages were asked for; whether the run writes a title is the
   * thread's answer, and how many passages it starts from the retriever's.
   */
  predicate OpeningWent(x: Fixed, trace: seq<Asked>, o: Opened) {
    && |UpToStages(x)| <= |trace|
    && var (memory, retriever, skills) := RecordedStages(trace, |UpToStages(x)| - 1);
       && WentThrough(trace, UpToModel(x, memory, retriever, skills))
       && (o.untitled <==> trace[|UpToThread(x)| - 1].value == Some(Thread(true)))
       && o.passages == if retriever then PassagesIn(trace[|UpToMemory(x, memory)|].value) else 0
  }

  function PassagesIn(answer: Option<Value>): nat {
    match answer
    case Some(Passages(count)) => count
    case _ => 0
  }

  lemma NamesWent(trace: seq<Asked>, names: seq<Name>)
    requires WentThrough(trace, names)
    ensures NamesOf(trace) == names
  {
  }

  lemma WentFurther(h: H, later: H, names: seq<Name>, more: seq<Name>)
    requires WentThrough(h.trace, names) && h.trace <= later.trace && WentThrough(Since(h, later), more)
    ensures WentThrough(later.trace, names + more)
  {
    forall i | 0 <= i < |names| + |more|
      ensures later.trace[i].name == (names + more)[i] && later.trace[i].value.Some?
    {
      if i < |names| {
        assert later.trace[i] == h.trace[i];
      } else {
        assert later.trace[i] == Since(h, later)[i - |names|];
      }
    }
  }

  lemma QuietOn(e: Process, h: H, names: seq<Name>, more: seq<Name>)
    requires WentThrough(h.trace, names)
    requires forall i :: 0 <= i < |more| ==> !Computed(more[i])
    ensures var r := Quiet(e, h, more);
            && h.trace <= r.h.trace
            && (r.Go? ==> WentThrough(r.h.trace, names + more))
            && (r.Stop? ==> Unanswered(h, r.h))
  {
    QuietWent(e, h, more);
    var r := Quiet(e, h, more);
    if r.Go? {
      WentFurther(h, r.h, names, more);
    }
  }

  lemma AskOn(e: Process, h: H, names: seq<Name>, name: Name)
    requires WentThrough(h.trace, names) && !Computed(name)
    ensures var r := Ask(e, h, name);
            && h.trace <= r.h.trace
            && (r.Go? ==> WentThrough(r.h.trace, names + [name]) && r.h.trace[|names|].value == Some(r.v))
            && (r.Stop? ==> Unanswered(h, r.h))
  {
    AskWent(e, h, name);
  }

  lemma PatchedOn(x: Fixed, e: Process, h: H, names: seq<Name>, name: Name)
    requires WentThrough(h.trace, names) && !Computed(name)
    ensures var r := Patched(x, e, h, name);
            && h.trace <= r.h.trace
            && (r.Go? ==> WentThrough(r.h.trace, Marked(x, names, name)))
            && (r.Stop? ==> Unanswered(h, r.h))
  {
    NamesWent(h.trace, names);
    QuietOn(e, h, names, [name]);
  }

  /** What is left of the opening from `h` on comes to an opening that went as recorded. */
  predicate Opens(x: Fixed, h: H, r: R<Opened>) {
    && h.trace <= r.h.trace
    && (r.Go? ==> OpeningWent(x, r.h.trace, r.v))
    && (r.Stop? ==> Unanswered(h, r.h))
  }

  /** The opening got to where the prompt's stages are known. */
  predicate AtStages(x: Fixed, h: H, thread: Value, stages: Value, names: seq<Name>) {
    && stages.Stages?
    && WentThrough(h.trace, names) && |UpToStages(x)| <= |names|
    && RecordedStages(h.trace, |UpToStages(x)| - 1) == (stages.memory, stages.retriever, stages.skills)
    && h.trace[|UpToThread(x)| - 1].value == Some(thread)
  }

  lemma StillAtStages(x: Fixed, h: H, later: H, thread: Value, stages: Value, names: seq<Name>, more: seq<Name>)
    requires AtStages(x, h, thread, stages, names)
    requires h.trace <= later.trace && WentThrough(later.trace, more) && |names| <= |more|
    ensures AtStages(x, later, thread, stages, more)
  {
  }

  lemma SkillsOpen(x: Fixed, e: Process, h: H, thread: Value, stages: Value, passages: nat)
    requires stages.Stages?
    requires AtStages(x, h, thread, stages,
                      UpToMemory(x, stages.memory) + if stages.retriever then [Retrieve] else [])
    requires passages == if stages.retriever then PassagesIn(h.trace[|UpToMemory(x, stages.memory)|].value) else 0
    ensures var r := Quiet(e, h, if stages.skills then [SkillsCatalog] else []);
            && h.trace <= r.h.trace
            && (r.Go? ==> OpeningWent(x, r.h.trace, Opened(thread.Thread? && thread.untitled, passages)))
            && (r.Stop? ==> Unanswered(h, r.h))
  {
    var names := UpToMemory(x, stages.memory) + if stages.retriever then [Retrieve] else [];
    var more := if stages.skills then [SkillsCatalog] else [];
    QuietOn(e, h, names, more);
    var r := Quiet(e, h, more);
    if r.Go? {
      StillAtStages(x, h, r.h, thread, stages, names, names + more);
    }
  }

  lemma RetrievalFirst(e: Process, h: H, thread: Value, stages: Value)
    requires stages.Stages?
    ensures var first := if stages.retriever then Ask(e, h, Retrieve) else Go(h, Passages(0));
            Retrieval(e, h, thread, stages)
            == if first.Stop? then Stop(first.h)
               else
                 var last := Quiet(e, first.h, if stages.skills then [SkillsCatalog] else []);
                 if last.Stop? then Stop(last.h)
                 else Go(last.h, Opened(thread.Thread? && thread.untitled, PassagesIn(Some(first.v))))
  {
  }

  lemma RetrievalOpens(x: Fixed, e: Process, h: H, thread: Value, stages: Value)
    requires stages.Stages? && AtStages(x, h, thread, stages, UpToMemory(x, stages.memory))
    ensures Opens(x, h, Retrieval(e, h, thread, stages))
  {
    RetrievalFirst(e, h, thread, stages);
    var names := UpToMemory(x, stages.memory);
    if stages.retriever {
      AskOn(e, h, names, Retrieve);
      var first := Ask(e, h, Retrieve);
      if first.Go? {
        StillAtStages(x, h, first.h, thread, stages, names, names + [Retrieve]);
        SkillsOpen(x, e, first.h, thread, stages, PassagesIn(Some(first.v)));
      }
    } else {
      assert names + [] == names;
      SkillsOpen(x, e, h, thread, stages, 0);
    }
  }

  lemma PromptOpens(x: Fixed, e: Process, h: H, thread: Value, stages: Value)
    requires AtStages(x, h, thread, stages, UpToStages(x))
    ensures Opens(x, h, Prompt(e, h, thread, stages))
  {
    var more := [StartedAt, RunStart] + (if stages.memory then [MemoryDigest] else []);
    assert UpToStages(x) + more == UpToMemory(x, stages.memory);
    QuietOn(e, h, UpToStages(x), more);
    var r := Quiet(e, h, more);
    if r.Go? {
      StillAtStages(x, h, r.h, thread, stages, UpToStages(x), UpToMemory(x, stages.memory));
      RetrievalOpens(x, e, r.h, thread, stages);
    }
  }

  lemma StagesOpen(x: Fixed, e: Process, h: H, thread: Value)
    requires WentThrough(h.trace, Marked(x, UpToThread(x), StagesPatch))
    requires h.trace[|UpToThread(x)| - 1].value == Some(thread)
    ensures Opens(x, h, Staged(e, h, thread))
  {
    var body := Stages(e.deps.memory, e.deps.retriever, e.deps.skills);
    var r := Journal.Step(e, h, PromptStages, body);
    if r.Go? {
      assert r.h.trace == h.trace + [Asked(PromptStages, Some(r.v))];
      PromptOpens(x, e, r.h, thread, StagesOf(r.v));
    }
  }

  lemma ResolvingOpens(x: Fixed, e: Process, h: H, thread: Value)
    requires WentThrough(h.trace, UpToThread(x)) && h.trace[|UpToThread(x)| - 1].value == Some(thread)
    ensures Opens(x, h, Resolving(x, e, h, thread))
  {
    PatchedOn(x, e, h, UpToThread(x), StagesPatch);
    var r := Patched(x, e, h, StagesPatch);
    if r.Go? {
      StagesOpen(x, e, r.h, thread);
    }
  }

  lemma LoadingOpens(x: Fixed, e: Process, h: H)
    requires WentThrough(h.trace, Marked(x, UpToMessage(x), HistoryPatch))
    ensures Opens(x, h, Loading(x, e, h))
  {
    AskOn(e, h, Marked(x, UpToMessage(x), HistoryPatch), LoadThread);
    var r := Ask(e, h, LoadThread);
    if r.Go? {
      ResolvingOpens(x, e, r.h, r.v);
    }
  }

  lemma HistoryOpens(x: Fixed, e: Process, h: H)
    requires WentThrough(h.trace, UpToMessage(x))
    ensures Opens(x, h, History(x, e, h))
  {
    PatchedOn(x, e, h, UpToMessage(x), HistoryPatch);
    var r := Patched(x, e, h, HistoryPatch);
    if r.Go? {
      LoadingOpens(x, e, r.h);
    }
  }

  /** A run's opening goes on exactly if all of it is answered, and then asked for just what is recorded. */
  lemma OpeningGoes(x: Fixed, e: Process)
    ensures Opens(x, START, Opening(x, e, START))
  {
    var names := Intake(x);
    assert names == UpToMessage(x) && [] + names == names;
    QuietOn(e, START, [], names);
    var r := Quiet(e, START, names);
    if r.Go? {
      HistoryOpens(x, e, r.h);
    }
  }

  // ----- One step -----

  /** A cancel check was answered that the run is cancelled, and nothing was asked for after it. */
  predicate Cancelled(h: H, later: H) {
    && |h.trace| < |later.trace|
    && var last := later.trace[|later.trace| - 1];
       (last.name.CancelCheck? || last.name.CancelTools?) && last.value == Some(Flag(true))
  }

  /** Why a run unwinds: the process ended in a checkpoint, or a cancel check said so. */
  predicate Unwound(h: H, later: H) {
    SomeUnanswered(h, later) || Cancelled(h, later)
  }

  lemma UnwoundLater(h: H, one: H, later: H)
    requires h.trace <= one.trace && (Unanswered(one, later) || Unwound(one, later))
    ensures Unwound(h, later)
  {
    if Unanswered(one, later) {
      LastUnanswered(h, one, later);
    }
  }

  /** The check a cancellable run makes at a safe point: it goes on exactly if no cancel was raised. */
  lemma HaltGoes(x: Fixed, e: Process, h: H, name: Name)
    requires name.CancelCheck? || name.CancelTools?
    ensures var r := HaltIfCancelled(x, e, h, name);
            && h.trace <= r.h.trace
            && (r.Go? ==> WentThrough(Since(h, r.h), if x.cancellable then [name] else [])
                          && (x.cancellable ==> r.h.trace[|h.trace|].value != Some(Flag(true))))
            && (r.Stop? ==> Unanswered(h, r.h) || Cancelled(h, r.h))
  {
    AskWent(e, h, name);
  }

  /** Where a process stands within a step. */
  predicate Took(h: H, later: H, names: seq<Name>) {
    h.trace <= later.trace && WentThrough(Since(h, later), names)
  }

  lemma TookMore(h: H, one: H, later: H, names: seq<Name>, more: seq<Name>)
    requires Took(h, one, names) && Took(one, later, more)
    ensures Took(h, later, names + more)
  {
    assert Since(h, later) == Since(h, one) + Since(one, later);
  }

  /** The calls a turn asked for, with the kinds this process knows; then what ends the step. */
  predicate ToolsTaken(x: Fixed, e: Process, h: H, i: nat, calls: seq<Call>, r: R<bool>, at: H) {
    && r.Go?
    && Took(h, at, if x.cancellable then [CancelTools(i)] else [])
    && (x.cancellable ==> at.trace[|h.trace|].value != Some(Flag(true)))
    && var tools := Tools(x, e, at, WithKinds(e.deps, calls));
       && tools.Go?
       && Took(tools.h, r.h, [ToolOutputs(i), StepFinish(i)])
       && r.v == !tools.v
  }

  /** What follows a step's message: its tools if the turn asked for any, and another step unless they end it. */
  predicate CallsTaken(x: Fixed, e: Process, h: H, i: nat, calls: seq<Call>, r: R<bool>, at: H) {
    && h.trace <= r.h.trace
    && (r.Go? ==> if calls == [] then Took(h, r.h, [StepFinish(i)]) && !r.v
                  else ToolsTaken(x, e, h, i, calls, r, at))
    && (r.Stop? ==> Unwound(h, r.h))
  }

  lemma CallToolsFirst(x: Fixed, e: Process, h: H, i: nat, calls: seq<Call>)
    requires calls != []
    ensures var check := HaltIfCancelled(x, e, h, CancelTools(i));
            CallTools(x, e, h, i, calls)
            == if check.Stop? then Stop(check.h)
               else
                 var tools := Tools(x, e, check.h, WithKinds(e.deps, calls));
                 if tools.Stop? then Stop(tools.h)
                 else
                   var last := Quiet(e, tools.h, [ToolOutputs(i), StepFinish(i)]);
                   if last.Stop? then Stop(last.h) else Go(last.h, !tools.v)
  {
  }

  lemma ToolsStop(x: Fixed, e: Process, h: H, calls: seq<Call>)
    ensures var r := Tools(x, e, h, calls); h.trace <= r.h.trace && (r.Stop? ==> SomeUnanswered(h, r.h))
  {
    var mark, at, claims, rest, runs := ToolsGo(x, e, h, calls);
    var r := Tools(x, e, h, calls);
    if r.Stop? && !(x.parallel && |calls| >= 2) {
      LastUnanswered(h, h, r.h);
    }
  }

  lemma CallToolsGo(x: Fixed, e: Process, h: H, i: nat, calls: seq<Call>) returns (at: H)
    ensures CallsTaken(x, e, h, i, calls, CallTools(x, e, h, i, calls), at)
  {
    at := h;
    if calls == [] {
      QuietWent(e, h, [StepFinish(i)]);
      UnwoundIf(h, h, CallTools(x, e, h, i, calls));
    } else {
      CallToolsFirst(x, e, h, i, calls);
      HaltGoes(x, e, h, CancelTools(i));
      var check := HaltIfCancelled(x, e, h, CancelTools(i));
      UnwoundIf(h, h, check);
      if check.Go? {
        at := check.h;
        var kinds := WithKinds(e.deps, calls);
        ToolsStop(x, e, at, kinds);
        var tools := Tools(x, e, at, kinds);
        UnwoundIf(h, at, tools);
        if tools.Go? {
          QuietWent(e, tools.h, [ToolOutputs(i), StepFinish(i)]);
          UnwoundIf(h, tools.h, Quiet(e, tools.h, [ToolOutputs(i), StepFinish(i)]));
        }
      }
    }
  }

  lemma UnwoundIf<T>(h: H, one: H, r: R<T>)
    requires h.trace <= one.trace
    requires r.Stop? ==> Unanswered(one, r.h) || Unwound(one, r.h)
    ensures r.Stop? ==> Unwound(h, r.h)
  {
    if r.Stop? {
      UnwoundLater(h, one, r.h);
    }
  }

  /** A step whose message was not written is the last; a written one may carry what was retrieved. */
  predicate MessageFollowed(x: Fixed, e: Process, h: H, i: nat, synthetic: bool, message: Value,
                            calls: seq<Call>, r: R<bool>, noted: H, at: H)
  {
    && h.trace <= r.h.trace
    && (r.Go? ==>
          match message
          case Appended(Some(id)) =>
            && Took(h, noted, if synthetic then [PersistRetrieval(id)] else [])
            && CallsTaken(x, e, noted, i, calls, r, at)
          case _ => Took(h, r.h, [StepFinish(i)]) && !r.v)
    && (r.Stop? ==> Unwound(h, r.h))
  }

  lemma AfterMessageGoes(x: Fixed, e: Process, h: H, i: nat, synthetic: bool, message: Value, calls: seq<Call>)
    returns (noted: H, at: H)
    ensures MessageFollowed(x, e, h, i, synthetic, message, calls,
                            AfterMessage(x, e, h, i, synthetic, message, calls), noted, at)
  {
    noted, at := h, h;
    if !message.Appended? || message.messageId.None? {
      QuietWent(e, h, [StepFinish(i)]);
      UnwoundIf(h, h, Quiet(e, h, [StepFinish(i)]));
    } else {
      var names := if synthetic then [PersistRetrieval(message.messageId.value)] else [];
      QuietWent(e, h, names);
      var first := Quiet(e, h, names);
      UnwoundIf(h, h, first);
      if first.Go? {
        noted := first.h;
        at := CallToolsGo(x, e, first.h, i, calls);
        UnwoundIf(h, first.h, CallTools(x, e, first.h, i, calls));
      }
    }
  }

  /** The checkpoints every step asks for up to its message. */
  function Head(x: Fixed, i: nat): (names: seq<Name>) {
    if x.cancellable then [CancelCheck(i), StepStart(i), Llm(i), PersistUsage(i), PersistAssistant(i)]
    else [StepStart(i), Llm(i), PersistUsage(i), PersistAssistant(i)]
  }

  function CallsIn(answer: Option<Value>): (calls: seq<Call>) {
    match answer
    case Some(Turn(_, _, calls)) => calls
    case _ => []
  }

  /** A turn with nothing on it: no text, no extras and no calls. */
  predicate NothingOn(answer: Option<Value>) {
    answer == Some(Turn(true, false, []))
  }

  /**
   * A step up to its message, which a process writes by itself unless the turn has nothing on it and
   * nothing retrieved comes with it.
   */
  predicate Headed(x: Fixed, e: Process, h: H, told: H, i: nat, synthetic: bool) {
    && Took(h, told, Head(x, i))
    && (x.cancellable ==> told.trace[|h.trace|].value != Some(Flag(true)))
    && var last := |told.trace| - 1;
       last !in e.journal ==>
         match told.trace[last].value
         case Some(Appended(id)) => id == None <==> NothingOn(told.trace[last - 2].value) && !synthetic
         case _ => false
  }

  predicate StepWent(x: Fixed, e: Process, h: H, o: Opened, i: nat, r: R<bool>, told: H, noted: H, at: H) {
    && h.trace <= r.h.trace
    && (r.Go? ==>
          var synthetic := i == 0 && o.passages >= 1;
          && Headed(x, e, h, told, i, synthetic)
          && MessageFollowed(x, e, told, i, synthetic, told.trace[|told.trace| - 1].value.value,
                             CallsIn(told.trace[|told.trace| - 3].value), r, noted, at))
    && (r.Stop? ==> Unwound(h, r.h))
  }

  lemma MessageGoes(e: Process, h: H, turn: Value, synthetic: bool, name: Name)
    requires name.PersistAssistant?
    ensures var r := Journal.Step(e, h, name, MessageBody(turn, synthetic, e.world(|h.trace|, name)));
            && h.trace <= r.h.trace
            && (r.Go? ==> r.h.trace == h.trace + [Asked(name, Some(r.v))]
                          && (|h.trace| !in e.journal ==>
                                r.v.Appended?
                                && (r.v.messageId == None <==> NothingOn(Some(turn)) && !synthetic)))
            && (r.Stop? ==> Unanswered(h, r.h))
  {
  }

  lemma AnswerFirst(x: Fixed, e: Process, h: H, o: Opened, i: nat, turn: Value)
    ensures var synthetic := i == 0 && o.passages >= 1;
            var name := PersistAssistant(i);
            var r := Journal.Step(e, h, name, MessageBody(turn, synthetic, e.world(|h.trace|, name)));
            Answer(x, e, h, o, i, turn)
            == if r.Stop? then Stop(r.h)
               else AfterMessage(x, e, r.h, i, synthetic, r.v, CallsIn(Some(turn)))
  {
  }

  lemma ModelFirst(x: Fixed, e: Process, h: H, o: Opened, i: nat)
    ensures var check := HaltIfCancelled(x, e, h, CancelCheck(i));
            if check.Stop? then OneStep(x, e, h, o, i) == Stop(check.h)
            else
              var begun := Quiet(e, check.h, [StepStart(i)]);
              if begun.Stop? then OneStep(x, e, h, o, i) == Stop(begun.h)
              else OneStep(x, e, h, o, i) == Model(x, e, begun.h, o, i)
  {
  }

  lemma ModelThen(x: Fixed, e: Process, h: H, o: Opened, i: nat)
    ensures var turn := Ask(e, h, Llm(i));
            if turn.Stop? then Model(x, e, h, o, i) == Stop(turn.h)
            else
              var billed := Quiet(e, turn.h, [PersistUsage(i)]);
              if billed.Stop? then Model(x, e, h, o, i) == Stop(billed.h)
              else Model(x, e, h, o, i) == Answer(x, e, billed.h, o, i, turn.v)
  {
  }

  lemma HeadJoined(x: Fixed, e: Process, h: H, check: H, begun: H, asked: H, billed: H, told: H, i: nat,
                   synthetic: bool, turn: Value)
    requires Took(h, check, if x.cancellable then [CancelCheck(i)] else [])
    requires x.cancellable ==> check.trace[|h.trace|].value != Some(Flag(true))
    requires Took(check, begun, [StepStart(i)])
    requires asked.trace == begun.trace + [Asked(Llm(i), Some(turn))]
    requires Took(asked, billed, [PersistUsage(i)])
    requires Took(billed, told, [PersistAssistant(i)])
    requires |billed.trace| !in e.journal ==>
               match told.trace[|billed.trace|].value
               case Some(Appended(id)) => id == None <==> NothingOn(Some(turn)) && !synthetic
               case _ => false
    ensures Headed(x, e, h, told, i, synthetic)
    ensures |told.trace| >= 3 && told.trace[|told.trace| - 3].value == Some(turn)
  {
    TookMore(h, check, begun, if x.cancellable then [CancelCheck(i)] else [], [StepStart(i)]);
    assert Since(begun, asked) == [Asked(Llm(i), Some(turn))];
    TookMore(begun, asked, billed, [Llm(i)], [PersistUsage(i)]);
    TookMore(begun, billed, told, [Llm(i), PersistUsage(i)], [PersistAssistant(i)]);
    TookMore(h, begun, told, (if x.cancellable then [CancelCheck(i)] else []) + [StepStart(i)],
             [Llm(i), PersistUsage(i), PersistAssistant(i)]);
    assert (if x.cancellable then [CancelCheck(i)] else []) + [StepStart(i)]
           + [Llm(i), PersistUsage(i), PersistAssistant(i)] == Head(x, i);
    assert told.trace[|begun.trace|] == asked.trace[|begun.trace|];
  }

  /** The step's message was written as its turn calls for, and followed by what comes with it. */
  predicate AnswerWent(x: Fixed, e: Process, h: H, i: nat, turn: Value, synthetic: bool, r: R<bool>, told: H,
                       noted: H, at: H)
  {
    && h.trace <= r.h.trace
    && (r.Go? ==>
          && Took(h, told, [PersistAssistant(i)])
          && (|h.trace| !in e.journal ==>
                match told.trace[|h.trace|].value
                case Some(Appended(id)) => id == None <==> NothingOn(Some(turn)) && !synthetic
                case _ => false)
          && MessageFollowed(x, e, told, i, synthetic, told.trace[|told.trace| - 1].value.value,
                             CallsIn(Some(turn)), r, noted, at))
    && (r.Stop? ==> Unwound(h, r.h))
  }

  lemma AnswerJoined(x: Fixed, e: Process, h: H, i: nat, turn: Value, synthetic: bool, v: Value, r: R<bool>,
                     told: H, noted: H, at: H)
    requires told.trace == h.trace + [Asked(PersistAssistant(i), Some(v))]
    requires |h.trace| !in e.journal ==>
               v.Appended? && (v.messageId == None <==> NothingOn(Some(turn)) && !synthetic)
    requires MessageFollowed(x, e, told, i, synthetic, v, CallsIn(Some(turn)), r, noted, at)
    ensures AnswerWent(x, e, h, i, turn, synthetic, r, told, noted, at)
  {
    assert Since(h, told) == [Asked(PersistAssistant(i), Some(v))];
    UnwoundIf(h, told, r);
  }

  lemma AnswerGoes(x: Fixed, e: Process, h: H, o: Opened, i: nat, turn: Value)
    returns (told: H, noted: H, at: H)
    ensures AnswerWent(x, e, h, i, turn, i == 0 && o.passages >= 1, Answer(x, e, h, o, i, turn), told, noted, at)
  {
    told, noted, at := h, h, h;
    var synthetic := i == 0 && o.passages >= 1;
    var name := PersistAssistant(i);
    AnswerFirst(x, e, h, o, i, turn);
    MessageGoes(e, h, turn, synthetic, name);
    var first := Journal.Step(e, h, name, MessageBody(turn, synthetic, e.world(|h.trace|, name)));
    if first.Go? {
      told := first.h;
      noted, at := AfterMessageGoes(x, e, told, i, synthetic, first.v, CallsIn(Some(turn)));
      AnswerJoined(x, e, h, i, turn, synthetic, first.v,
                   AfterMessage(x, e, told, i, synthetic, first.v, CallsIn(Some(turn))), told, noted, at);
    } else {
      LastUnanswered(h, h, first.h);
    }
  }

  /** What the model call and all that follows in its step come to. */
  predicate ModelWent(x: Fixed, e: Process, h: H, o: Opened, i: nat, r: R<bool>, turn: Value, asked: H,
                      billed: H, told: H, noted: H, at: H)
  {
    && h.trace <= r.h.trace
    && (r.Go? ==>
          && asked.trace == h.trace + [Asked(Llm(i), Some(turn))]
          && Took(asked, billed, [PersistUsage(i)])
          && AnswerWent(x, e, billed, i, turn, i == 0 && o.passages >= 1, r, told, noted, at))
    && (r.Stop? ==> Unwound(h, r.h))
  }

  lemma ModelJoined(x: Fixed, e: Process, h: H, o: Opened, i: nat, r: R<bool>, turn: Value, asked: H, billed: H,
                    told: H, noted: H, at: H)
    requires asked.trace == h.trace + [Asked(Llm(i), Some(turn))]
    requires Took(asked, billed, [PersistUsage(i)])
    requires AnswerWent(x, e, billed, i, turn, i == 0 && o.passages >= 1, r, told, noted, at)
    ensures ModelWent(x, e, h, o, i, r, turn, asked, billed, told, noted, at)
  {
    UnwoundIf(h, billed, r);
  }

  lemma ModelGoes(x: Fixed, e: Process, h: H, o: Opened, i: nat)
    returns (turn: Value, asked: H, billed: H, told: H, noted: H, at: H)
    ensures ModelWent(x, e, h, o, i, Model(x, e, h, o, i), turn, asked, billed, told, noted, at)
  {
    turn, asked, billed, told, noted, at := Nothing, h, h, h, h, h;
    ModelThen(x, e, h, o, i);
    AskWent(e, h, Llm(i));
    var first := Ask(e, h, Llm(i));
    if first.Go? {
      turn, asked := first.v, first.h;
      QuietWent(e, asked, [PersistUsage(i)]);
      var second := Quiet(e, asked, [PersistUsage(i)]);
      if second.Go? {
        billed := second.h;
        told, noted, at := AnswerGoes(x, e, billed, o, i, turn);
        ModelJoined(x, e, h, o, i, Answer(x, e, billed, o, i, turn), turn, asked, billed, told, noted, at);
      } else {
        LastUnanswered(h, asked, second.h);
      }
    } else {
      LastUnanswered(h, h, first.h);
    }
  }

  lemma StepJoined(x: Fixed, e: Process, h: H, check: H, begun: H, o: Opened, i: nat, r: R<bool>, turn: Value,
                   asked: H, billed: H, told: H, noted: H, at: H)
    requires Took(h, check, if x.cancellable then [CancelCheck(i)] else [])
    requires x.cancellable ==> check.trace[|h.trace|].value != Some(Flag(true))
    requires Took(check, begun, [StepStart(i)])
    requires ModelWent(x, e, begun, o, i, r, turn, asked, billed, told, noted, at)
    ensures StepWent(x, e, h, o, i, r, told, noted, at)
  {
    if r.Go? {
      HeadJoined(x, e, h, check, begun, asked, billed, told, i, i == 0 && o.passages >= 1, turn);
    } else {
      UnwoundLater(h, begun, r.h);
    }
  }

  /**
   * A step goes on exactly if everything it asks for is answered and no cancel check says otherwise.
   * Then it asked for what every step asks for, its message's retrieval and its turn's calls, and
   * another step follows exactly if it was written, asked for calls, and none of them ended the turn.
   */
  lemma StepGoes(x: Fixed, e: Process, h: H, o: Opened, i: nat) returns (told: H, noted: H, at: H)
    ensures StepWent(x, e, h, o, i, OneStep(x, e, h, o, i), told, noted, at)
  {
    told, noted, at := h, h, h;
    ModelFirst(x, e, h, o, i);
    HaltGoes(x, e, h, CancelCheck(i));
    var check := HaltIfCancelled(x, e, h, CancelCheck(i));
    UnwoundIf(h, h, check);
    if check.Go? {
      QuietWent(e, check.h, [StepStart(i)]);
      var first := Quiet(e, check.h, [StepStart(i)]);
      UnwoundIf(h, check.h, first);
      if first.Go? {
        var turn, asked, billed;
        turn, asked, billed, told, noted, at := ModelGoes(x, e, first.h, o, i);
        StepJoined(x, e, h, check.h, first.h, o, i, Model(x, e, first.h, o, i), turn, asked, billed, told,
                   noted, at);
      }
    }
  }

  // ----- The run -----

  /**
   * One step after the other from `h` on, each asked to follow by the one before it, until one asked
   * for no other or as many as are allowed were taken.
   */
  ghost predicate Chained(step: (H, nat) -> R<bool>, limit: nat, h: H, i: nat, marks: seq<H>, done: bool) {
    && marks != [] && marks[0] == h
    && (forall k :: 0 <= k < |marks| - 1 ==>
          step(marks[k], i + k) == Go(marks[k + 1], !(done && k == |marks| - 2)))
    && (|marks| > 1 ==> i + |marks| - 1 <= limit)
    && (if done then |marks| > 1 else i + |marks| - 1 >= limit)
  }

  lemma ChainedMore(step: (H, nat) -> R<bool>, limit: nat, h: H, i: nat, one: H, marks: seq<H>, done: bool)
    requires i < limit && step(h, i) == Go(one, true)
    requires Chained(step, limit, one, i + 1, marks, done)
    ensures Chained(step, limit, h, i, [h] + marks, done)
  {
    var all := [h] + marks;
    forall k | 0 <= k < |all| - 1
      ensures step(all[k], i + k) == Go(all[k + 1], !(done && k == |all| - 2))
    {
      if k > 0 {
        assert all[k] == marks[k - 1] && all[k + 1] == marks[k] && i + k == i + 1 + (k - 1);
      }
    }
  }

  ghost predicate StepsTaken(x: Fixed, e: Process, h: H, o: Opened, i: nat, marks: seq<H>, done: bool) {
    Chained((at: H, k: nat) => OneStep(x, e, at, o, k), x.maxSteps, h, i, marks, done)
  }

  lemma StepsTakenMore(x: Fixed, e: Process, h: H, o: Opened, i: nat, one: H, marks: seq<H>, done: bool)
    requires i < x.maxSteps
    requires OneStep(x, e, h, o, i) == Go(one, true)
    requires StepsTaken(x, e, one, o, i + 1, marks, done)
    ensures StepsTaken(x, e, h, o, i, [h] + marks, done)
  {
    ChainedMore((at: H, k: nat) => OneStep(x, e, at, o, k), x.maxSteps, h, i, one, marks, done);
  }

  lemma StepStops(x: Fixed, e: Process, h: H, o: Opened, i: nat)
    ensures var r := OneStep(x, e, h, o, i); h.trace <= r.h.trace && (r.Stop? ==> Unwound(h, r.h))
  {
    var told, noted, at := StepGoes(x, e, h, o, i);
  }

  ghost predicate LoopTook(x: Fixed, e: Process, h: H, o: Opened, i: nat, r: R<Value>, marks: seq<H>, done: bool) {
    && h.trace <= r.h.trace
    && (r.Go? ==> StepsTaken(x, e, h, o, i, marks, done) && marks[|marks| - 1] == r.h)
    && (r.Stop? ==> Unwound(h, r.h))
  }

  lemma LoopFirst(x: Fixed, e: Process, h: H, o: Opened, i: nat)
    ensures if i >= x.maxSteps then Loop(x, e, h, o, i) == Go(h, Nothing)
            else
              var one := OneStep(x, e, h, o, i);
              Loop(x, e, h, o, i)
              == if one.Stop? then Stop(one.h)
                 else if one.v then Loop(x, e, one.h, o, i + 1) else Go(one.h, Nothing)
  {
  }

  lemma LoopTookMore(x: Fixed, e: Process, h: H, o: Opened, i: nat, one: H, r: R<Value>, marks: seq<H>,
                     done: bool)
    requires i < x.maxSteps && h.trace <= one.trace
    requires OneStep(x, e, h, o, i) == Go(one, true)
    requires LoopTook(x, e, one, o, i + 1, r, marks, done)
    ensures LoopTook(x, e, h, o, i, r, [h] + marks, done)
  {
    if r.Go? {
      StepsTakenMore(x, e, h, o, i, one, marks, done);
    } else {
      UnwoundLater(h, one, r.h);
    }
  }

  lemma LastStep(x: Fixed, e: Process, h: H, o: Opened, i: nat, one: H)
    requires i < x.maxSteps && h.trace <= one.trace
    requires OneStep(x, e, h, o, i) == Go(one, false)
    ensures LoopTook(x, e, h, o, i, Go(one, Nothing), [h, one], true)
  {
  }

  /** The loop takes steps for as long as one asks for another and the limit allows it. */
  lemma {:induction false} LoopGoes(x: Fixed, e: Process, h: H, o: Opened, i: nat)
    returns (marks: seq<H>, done: bool)
    ensures LoopTook(x, e, h, o, i, Loop(x, e, h, o, i), marks, done)
    decreases x.maxSteps - i
  {
    marks, done := [h], false;
    LoopFirst(x, e, h, o, i);
    if i < x.maxSteps {
      StepStops(x, e, h, o, i);
      var one := OneStep(x, e, h, o, i);
      if one.Go? {
        if one.v {
          marks, done := LoopGoes(x, e, one.h, o, i + 1);
          LoopTookMore(x, e, h, o, i, one.h, Loop(x, e, one.h, o, i + 1), marks, done);
          marks := [h] + marks;
        } else {
          LastStep(x, e, h, o, i, one.h);
          marks, done := [h, one.h], true;
        }
      }
    }
  }

  /** What ends a run, in order: the title if the thread had none, the delivery if there is one. */
  function Ending(x: Fixed, untitled: bool): (names: seq<Name>) {
    match (untitled, x.delivers)
    case (true, true) => [PersistTitle, DeliverDetached, RunEnd]
    case (true, false) => [PersistTitle, RunEnd]
    case (false, true) => [DeliverDetached, RunEnd]
    case (false, false) => [RunEnd]
  }

  /** The steps of a run whose cancel mark is settled, and what ends it. */
  ghost predicate TurnsWent(x: Fixed, e: Process, ready: H, o: Opened, r: R<Value>, marks: seq<H>, done: bool) {
    && ready.trace <= r.h.trace
    && (r.Go? ==> StepsTaken(x, e, ready, o, 0, marks, done)
                  && Took(marks[|marks| - 1], r.h, Ending(x, o.untitled)))
    && (r.Stop? ==> Unwound(ready, r.h))
  }

  lemma TurnsFirst(x: Fixed, e: Process, h: H, o: Opened)
    ensures var steps := Loop(x, e, h, o, 0);
            Turns(x, e, h, o) == if steps.Stop? then Stop(steps.h) else Quiet(e, steps.h, Ending(x, o.untitled))
  {
    assert Closing(x, o) == Ending(x, o.untitled);
  }

  lemma EndingWent(x: Fixed, e: Process, ready: H, o: Opened, steps: R<Value>, marks: seq<H>, done: bool)
    requires LoopTook(x, e, ready, o, 0, steps, marks, done) && steps.Go?
    ensures TurnsWent(x, e, ready, o, Quiet(e, steps.h, Ending(x, o.untitled)), marks, done)
  {
    QuietWent(e, steps.h, Ending(x, o.untitled));
    UnwoundIf(ready, steps.h, Quiet(e, steps.h, Ending(x, o.untitled)));
  }

  lemma TurnsGo(x: Fixed, e: Process, ready: H, o: Opened) returns (marks: seq<H>, done: bool)
    ensures TurnsWent(x, e, ready, o, Turns(x, e, ready, o), marks, done)
  {
    TurnsFirst(x, e, ready, o);
    marks, done := LoopGoes(x, e, ready, o, 0);
    var steps := Loop(x, e, ready, o, 0);
    if steps.Go? {
      EndingWent(x, e, ready, o, steps, marks, done);
    }
  }

  /** The turn's steps and what ends the run, from where the run opened. */
  ghost predicate BodyWent(x: Fixed, e: Process, begun: H, o: Opened, r: R<Value>, ready: H, marks: seq<H>,
                           done: bool)
  {
    && begun.trace <= r.h.trace
    && (r.Go? ==>
          && Took(begun, ready, if x.cancellable && x.patchTakes(NamesOf(begun.trace), CancelPatch)
                                then [CancelPatch] else [])
          && TurnsWent(x, e, ready, o, r, marks, done))
    && (r.Stop? ==> Unwound(begun, r.h))
  }

  lemma BodyFirst(x: Fixed, e: Process, h: H, o: Opened)
    ensures var check := if x.cancellable then Patched(x, e, h, CancelPatch) else Go(h, Nothing);
            Body(x, e, h, o) == if check.Stop? then Stop(check.h) else Turns(x, e, check.h, o)
  {
  }

  lemma BodyJoined(x: Fixed, e: Process, begun: H, o: Opened, r: R<Value>, ready: H, marks: seq<H>, done: bool)
    requires Took(begun, ready, if x.cancellable && x.patchTakes(NamesOf(begun.trace), CancelPatch)
                                then [CancelPatch] else [])
    requires TurnsWent(x, e, ready, o, r, marks, done)
    ensures BodyWent(x, e, begun, o, r, ready, marks, done)
  {
    UnwoundIf(begun, ready, r);
  }

  lemma BodyGoes(x: Fixed, e: Process, begun: H, o: Opened) returns (ready: H, marks: seq<H>, done: bool)
    ensures BodyWent(x, e, begun, o, Body(x, e, begun, o), ready, marks, done)
  {
    ready, marks, done := begun, [], false;
    BodyFirst(x, e, begun, o);
    PatchedGoes(x, e, begun, CancelPatch);
    var check := if x.cancellable then Patched(x, e, begun, CancelPatch) else Go(begun, Nothing);
    if check.Go? {
      ready := check.h;
      marks, done := TurnsGo(x, e, ready, o);
      BodyJoined(x, e, begun, o, Turns(x, e, ready, o), ready, marks, done);
    } else {
      LastUnanswered(begun, begun, check.h);
    }
  }

  lemma RunFirst(x: Fixed, e: Process)
    ensures var first := Opening(x, e, START);
            RunLoop(x, e) == if first.Stop? then Stop(first.h) else Body(x, e, first.h, first.v)
  {
  }

  /**
   * A run is over exactly if everything it asks for is answered and no cancel check says otherwise.
   * Then it opened as recorded, took its steps, and asked for what ends it.
   */
  lemma RunGoes(x: Fixed, e: Process) returns (begun: H, o: Opened, ready: H, marks: seq<H>, done: bool)
    ensures var r := RunLoop(x, e);
            && (r.Go? ==> OpeningWent(x, begun.trace, o) && BodyWent(x, e, begun, o, r, ready, marks, done))
            && (r.Stop? ==> Unwound(START, r.h))
  {
    begun, o, ready, marks, done := START, Opened(false, 0), START, [], false;
    RunFirst(x, e);
    OpeningGoes(x, e);
    var first := Opening(x, e, START);
    if first.Go? {
      begun, o := first.h, first.v;
      ready, marks, done := BodyGoes(x, e, begun, o);
      UnwoundIf(START, begun, Body(x, e, begun, o));
    } else {
      LastUnanswered(START, START, first.h);
    }
  }

  /**
   * What every position of a run was answered: what the journal holds there, nothing where the process
   * ends, and otherwise what the world says, the stages it is wired with, or a claim with its kind.
   */
  lemma RunAnswered(x: Fixed, e: Process, p: nat)
    requires p < |RunLoop(x, e).h.trace|
    ensures var asked := RunLoop(x, e).h.trace[p];
            if p in e.journal then asked.value == Some(e.journal[p].value)
            else if !e.alive(p) then asked.value == None
            else
              && asked.value.Some?
              && match asked.name
                 case PersistCall(_) => asked.value.value.Claimed? && asked.value.value.claim.kind.Some?
                 case PromptStages =>
                   asked.value.value == Stages(e.deps.memory, e.deps.retriever, e.deps.skills)
                 case PersistAssistant(_) => true
                 case name => asked.value.value == e.world(p, name)
  {
    var asked := RunLoop(x, e).h.trace[p];
    assert Proper(e, p, asked);
  }

  // ----- Kinds -----

  /** The kind a process gives a call: its own, else a built-in tool's where it is wired, else declared. */
  lemma KindSays(d: Deps, call: Call)
    ensures var ask := d.ask && call.name == Ascii("ask");
            var skill := d.skills && call.name == Ascii("skill");
            var remember := d.memory && d.writable && call.name == Ascii("remember");
            KindHere(d, call)
            == match call.kind
               case Some(kind) => kind
               case None =>
                 if ask then AskKind
                 else if skill then Skill
                 else if remember then Memory
                 else if call.name in d.registry then d.registry[call.name] else Read
  {
  }
}
