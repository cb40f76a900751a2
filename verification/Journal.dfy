/**
 * The agent loop as its journal sees it: which checkpoint it asks for next, given what the ones
 * before answered. A process that resumes a run serves the recorded checkpoints and runs the rest;
 * it may have other memory, retrieval and skills wiring and another tool registry than the ones
 * before it, and still has to ask for the recorded positions, in order.
 *
 * Stages the loop does not journal (quota, pricing, intake, processors, follow-ups,
 * structured output, summaries) are absent here. `patched` answers true, and takes a position of its
 * own whenever the runner's rule says so, given what was asked for before.
 */
module Journal {
  import opened Common

  datatype Kind = Read | Action | Agent | AskKind | Skill | Memory

  datatype Call = Call(id: Text, name: Text, input: Text, kind: Option<Kind>)

  datatype Approval = ByAsking | Auto | Remembered

  datatype Preflight = Ready | Completed | Denied | Broken

  datatype ToolResult = Executed | Refused | Failed

  datatype Decision = Approve | Refuse | Lapse

  /** What the `persist:toolcall` checkpoint returns. */
  datatype Claim = Claim(
    kind: Option<Kind>,
    target: Option<Text>,
    detached: bool,
    terminal: bool,
    presents: bool,
    approval: Option<Approval>,
    preflight: Option<Preflight>,
    proposal: bool)

  /** What checkpoints return, as far as the loop branches on it. */
  datatype Value =
    | Nothing
    | Thread(untitled: bool)
    | Stages(memory: bool, retriever: bool, skills: bool)
    | Passages(count: nat)
    | Turn(blank: bool, extras: bool, calls: seq<Call>)
    | Appended(messageId: Option<Text>)
    | Claimed(claim: Claim)
    | ToolReturned(result: ToolResult)
    | Decided(decision: Decision)
    | Replied(skipped: bool)
    | Flag(raised: bool)

  datatype Name =
    | HistoryPatch | StagesPatch | CancelPatch | ToolsPatch
    | PersonaResolve | PersistUser | RegenerateTruncate | LoadThread | PromptStages | StartedAt
    | RunStart | MemoryDigest | Retrieve | SkillsCatalog
    | CancelCheck(step: nat) | StepStart(step: nat) | Llm(step: nat) | PersistUsage(step: nat)
    | PersistAssistant(step: nat) | CancelTools(step: nat) | ToolOutputs(step: nat)
    | StepFinish(step: nat)
    | PersistRetrieval(messageId: Text)
    | PersistCall(callId: Text) | Present(callId: Text) | Tool(callId: Text) | Exec(callId: Text)
    | Reject(callId: Text) | Fail(callId: Text) | Elicit(callId: Text) | Answers(callId: Text)
    | ApprovalSignal(callId: Text) | Child(callId: Text) | Spawn(callId: Text)
    | PersistTitle | DeliverDetached | RunEnd

  /** What a process brings to the run: its wiring and its registry. These differ between processes. */
  datatype Deps = Deps(
    memory: bool, writable: bool, retriever: bool, skills: bool, ask: bool, registry: map<Text, Kind>)

  /** The run's input, its runner's hooks and the rest of the configuration: the same for all. */
  datatype Fixed = Fixed(
    persona: bool,
    regenerate: bool,
    maxSteps: nat,
    parallel: bool,
    cancellable: bool,
    delivers: bool,
    canDetach: bool,
    canDelegate: bool,
    patchTakes: (seq<Name>, Name) -> bool,
    refused: Text -> bool,
    validQuestions: Text -> bool)

  /** One checkpoint asked for: what it returned, unless the process died or suspended in it. */
  datatype Asked = Asked(name: Name, value: Option<Value>)

  datatype Entry = Entry(name: Name, value: Value)

  /**
   * One process running the loop: its wiring, the journal it was given, which positions it gets
   * through, and what the world answers there.
   */
  datatype Process = Process(
    deps: Deps, journal: map<nat, Entry>, alive: nat -> bool, world: (nat, Name) -> Value)

  /** What became of one call. */
  datatype Branch = Propose | Delegate | Start | Decline | Question | Settle | Park | Run

  /** Everything asked for so far, and the branch each call took. */
  datatype H = H(trace: seq<Asked>, branches: seq<(Text, Branch)>)

  /** The loop went on with a value, or unwound. */
  datatype R<+T> = Go(h: H, v: T) | Stop(h: H)

  // ----- Checkpoints -----

  predicate KindGiven(v: Value) {
    v.Claimed? && v.claim.kind.Some?
  }

  /** A checkpoint that returns what it computed itself, whatever the world answers. */
  predicate Computed(name: Name) {
    name.PersistCall? || name.PersistAssistant? || name.PromptStages?
  }

  /**
   * A recorded position is served from the journal. Any other is run, unless the process ends there:
   * the world answers, the stages are this process's, and a claim says its kind.
   */
  predicate Proper(e: Process, p: nat, a: Asked) {
    if p in e.journal then a.value == Some(e.journal[p].value)
    else if !e.alive(p) then a.value == None
    else a.value.Some? && Fits(e, p, a.name, a.value.value)
  }

  predicate Fits(e: Process, p: nat, name: Name, v: Value) {
    && (name.PersistCall? ==> KindGiven(v))
    && (name.PromptStages? ==> v == Stages(e.deps.memory, e.deps.retriever, e.deps.skills))
    && (!Computed(name) ==> v == e.world(p, name))
  }

  /** The history grew, properly. */
  ghost predicate Grew(e: Process, h: H, later: H) {
    && h.trace <= later.trace
    && h.branches <= later.branches
    && (forall p :: |h.trace| <= p < |later.trace| ==> Proper(e, p, later.trace[p]))
  }

  /** Serves the next journal entry if there is one, else runs the body and records what it returned. */
  function Step(e: Process, h: H, name: Name, body: Value): (r: R<Value>)
    requires Fits(e, |h.trace|, name, body)
    ensures Grew(e, h, r.h)
    ensures r.h.branches == h.branches
  {
    var p := |h.trace|;
    if p in e.journal then
      Go(h.(trace := h.trace + [Asked(name, Some(e.journal[p].value))]), e.journal[p].value)
    else if e.alive(p) then Go(h.(trace := h.trace + [Asked(name, Some(body))]), body)
    else Stop(h.(trace := h.trace + [Asked(name, None)]))
  }

  /** A checkpoint whose body's answer is whatever the world says. */
  function Ask(e: Process, h: H, name: Name): (r: R<Value>)
    requires !Computed(name)
    ensures Grew(e, h, r.h)
    ensures r.h.branches == h.branches
  {
    Step(e, h, name, e.world(|h.trace|, name))
  }

  /** Checkpoints one after the other whose answers the loop does not branch on. */
  function Quiet(e: Process, h: H, names: seq<Name>): (r: R<Value>)
    requires forall i :: 0 <= i < |names| ==> !Computed(names[i])
    ensures Grew(e, h, r.h)
    decreases |names|
  {
    if names == [] then Go(h, Nothing)
    else
      match Ask(e, h, names[0])
      case Stop(h1) => Stop(h1)
      case Go(h1, _) => Quiet(e, h1, names[1..])
  }

  function NamesOf(trace: seq<Asked>): (names: seq<Name>)
    ensures |names| == |trace| && forall i :: 0 <= i < |names| ==> names[i] == trace[i].name
  {
    seq(|trace|, i requires 0 <= i < |trace| => trace[i].name)
  }

  /** Asks whether the run takes the newest shape of the loop: it does. */
  function Patched(x: Fixed, e: Process, h: H, name: Name): (r: R<Value>)
    requires !Computed(name)
    ensures Grew(e, h, r.h)
  {
    if x.patchTakes(NamesOf(h.trace), name) then Quiet(e, h, [name]) else Go(h, Nothing)
  }

  // ----- What the loop reads off an answer -----

  function StagesOf(v: Value): Value {
    if v.Stages? then v else Stages(false, false, false)
  }

  function CallsOf(v: Value): seq<Call> {
    if v.Turn? then v.calls else []
  }

  function ClaimOf(v: Value): Claim {
    if v.Claimed? then v.claim else Claim(None, None, false, false, false, None, None, false)
  }

  function ResultOf(v: Value): ToolResult {
    if v.ToolReturned? then v.result else Failed
  }

  // ----- Kinds -----

  const ASK: Text := Ascii("ask")
  const SKILL: Text := Ascii("skill")
  const REMEMBER: Text := Ascii("remember")

  function DeclaredKind(d: Deps, name: Text): Kind {
    if d.ask && name == ASK then AskKind
    else if d.skills && name == SKILL then Skill
    else if d.memory && d.writable && name == REMEMBER then Memory
    else if name in d.registry then d.registry[name]
    else Read
  }

  /** The kind a call came with, else the one this process's registry declares. */
  function KindHere(d: Deps, call: Call): Kind {
    if call.kind.Some? then call.kind.value else DeclaredKind(d, call.name)
  }

  function WithKinds(d: Deps, calls: seq<Call>): (r: seq<Call>)
    ensures |r| == |calls|
    ensures forall i :: 0 <= i < |r| ==> r[i] == calls[i].(kind := Some(KindHere(d, calls[i])))
  {
    seq(|calls|, i requires 0 <= i < |calls| => calls[i].(kind := Some(KindHere(d, calls[i]))))
  }

  // ----- One tool call -----

  /** A call whose branch is settled by its `persist:toolcall` checkpoint. */
  datatype Settled = Settled(id: Text, name: Text, input: Text, kind: Kind, claim: Claim)

  /** What the checkpoint's body returns: the kind is this process's, the rest its policies'. */
  function ClaimBody(d: Deps, call: Call, answer: Value): Value {
    Claimed(ClaimOf(answer).(kind := Some(KindHere(d, call))))
  }

  function ClaimCall(e: Process, h: H, call: Call): (r: R<Settled>)
    ensures Grew(e, h, r.h)
  {
    var name := PersistCall(call.id);
    match Step(e, h, name, ClaimBody(e.deps, call, e.world(|h.trace|, name)))
    case Stop(h1) => Stop(h1)
    case Go(h1, v) =>
      var claim := ClaimOf(v);
      var kind := if claim.kind.Some? then claim.kind.value
                  else if call.kind.Some? then call.kind.value else Read;
      Go(h1, Settled(call.id, call.name, call.input, kind, claim))
  }

  function TargetOf(c: Settled): Text {
    if c.claim.target.Some? then c.claim.target.value else c.name
  }

  function BranchOf(x: Fixed, c: Settled): Branch {
    if c.claim.proposal then Propose
    else if c.kind == Agent then
      if x.refused(TargetOf(c)) then Decline
      else if c.claim.detached && x.canDetach then Start
      else if x.canDelegate then Delegate
      else Decline
    else if c.kind == AskKind then Question
    else if c.claim.preflight.Some? && c.claim.preflight.value != Ready then Settle
    else if c.kind == Action && c.claim.approval !in {Some(Auto), Some(Remembered)} then Park
    else Run
  }

  function Outcome(result: ToolResult, id: Text): Name {
    match result
    case Executed => Exec(id)
    case Refused => Reject(id)
    case Failed => Fail(id)
  }

  /** A `terminal` tool that succeeded ends the turn; loading a skill or remembering never does. */
  predicate EndsTurn(c: Settled, result: ToolResult) {
    c.claim.terminal && c.kind !in {Skill, Memory} && result == Executed
  }

  /** Runs the tool and records what came of it. */
  function Execute(e: Process, h: H, c: Settled): (r: R<bool>)
    ensures Grew(e, h, r.h)
  {
    match Ask(e, h, Tool(c.id))
    case Stop(h1) => Stop(h1)
    case Go(h1, v) =>
      match Quiet(e, h1, [Outcome(ResultOf(v), c.id)])
      case Stop(h2) => Stop(h2)
      case Go(h2, _) => Go(h2, EndsTurn(c, ResultOf(v)))
  }

  function RunDelegation(x: Fixed, e: Process, h: H, c: Settled): (r: R<bool>)
    ensures Grew(e, h, r.h)
  {
    var names :=
      match BranchOf(x, c)
      case Start => [Spawn(c.id), Exec(c.id)]
      case Delegate => [Child(c.id), Exec(c.id)]
      case _ => [Exec(c.id)];
    match Quiet(e, h, names)
    case Stop(h1) => Stop(h1)
    case Go(h1, _) => Go(h1, false)
  }

  function RunQuestion(x: Fixed, e: Process, h: H, c: Settled): (r: R<bool>)
    ensures Grew(e, h, r.h)
  {
    if !x.validQuestions(c.input) then
      match Quiet(e, h, [Fail(c.id)])
      case Stop(h1) => Stop(h1)
      case Go(h1, _) => Go(h1, false)
    else
      match Quiet(e, h, [Elicit(c.id)])
      case Stop(h1) => Stop(h1)
      case Go(h1, _) => AwaitAnswers(e, h1, c)
  }

  function AwaitAnswers(e: Process, h: H, c: Settled): (r: R<bool>)
    ensures Grew(e, h, r.h)
  {
    match Ask(e, h, Answers(c.id))
    case Stop(h1) => Stop(h1)
    case Go(h1, v) =>
      match Quiet(e, h1, [if v.Replied? && v.skipped then Reject(c.id) else Exec(c.id)])
      case Stop(h2) => Stop(h2)
      case Go(h2, _) => Go(h2, false)
  }

  /** A preflight that settled the call without running it. */
  function RunPreflight(e: Process, h: H, c: Settled): (r: R<bool>)
    requires c.claim.preflight.Some?
    ensures Grew(e, h, r.h)
  {
    var p := c.claim.preflight.value;
    var names :=
      if p == Completed then (if c.claim.presents then [Present(c.id)] else []) + [Exec(c.id)]
      else if p == Denied then [Reject(c.id)]
      else [Fail(c.id)];
    match Quiet(e, h, names)
    case Stop(h1) => Stop(h1)
    case Go(h1, _) => Go(h1, p == Completed && c.claim.terminal)
  }

  function RunApproval(e: Process, h: H, c: Settled): (r: R<bool>)
    ensures Grew(e, h, r.h)
  {
    match Ask(e, h, ApprovalSignal(c.id))
    case Stop(h1) => Stop(h1)
    case Go(h1, v) =>
      if v.Decided? && v.decision == Approve then Execute(e, h1, c)
      else
        match Quiet(e, h1, [Reject(c.id)])
        case Stop(h2) => Stop(h2)
        case Go(h2, _) => Go(h2, false)
  }

  function Noted(h: H, id: Text, branch: Branch): H {
    h.(branches := h.branches + [(id, branch)])
  }

  /** Everything a claimed call still needs. The answer: whether it ends the turn. */
  function RunCall(x: Fixed, e: Process, h: H, c: Settled): (r: R<bool>)
    ensures Grew(e, h, r.h)
  {
    var branch := BranchOf(x, c);
    var h0 := Noted(h, c.id, branch);
    assert Grew(e, h, h0);
    match branch
    case Propose => Go(h0, true)
    case Question => RunQuestion(x, e, h0, c)
    case Settle => RunPreflight(e, h0, c)
    case Park => RunApproval(e, h0, c)
    case Run => Execute(e, h0, c)
    case _ => RunDelegation(x, e, h0, c)
  }

  // ----- A turn's calls -----

  function Sequentially(x: Fixed, e: Process, h: H, calls: seq<Call>): (r: R<bool>)
    ensures Grew(e, h, r.h)
    decreases |calls|, 0
  {
    if calls == [] then Go(h, false)
    else
      match ClaimCall(e, h, calls[0])
      case Stop(h1) => Stop(h1)
      case Go(h1, c) => RunThen(x, e, h1, c, calls[1..])
  }

  /** Runs one claimed call, then claims and runs the others. */
  function RunThen(x: Fixed, e: Process, h: H, c: Settled, others: seq<Call>): (r: R<bool>)
    ensures Grew(e, h, r.h)
    decreases |others|, 1
  {
    match RunCall(x, e, h, c)
    case Stop(h1) => Stop(h1)
    case Go(h1, ends) =>
      match Sequentially(x, e, h1, others)
      case Stop(h2) => Stop(h2)
      case Go(h2, more) => Go(h2, ends || more)
  }

  function ClaimAll(e: Process, h: H, calls: seq<Call>): (r: R<seq<Settled>>)
    ensures Grew(e, h, r.h)
    decreases |calls|
  {
    if calls == [] then Go(h, [])
    else
      match ClaimCall(e, h, calls[0])
      case Stop(h1) => Stop(h1)
      case Go(h1, c) =>
        match ClaimAll(e, h1, calls[1..])
        case Stop(h2) => Stop(h2)
        case Go(h2, rest) => Go(h2, [c] + rest)
  }

  function RunAll(x: Fixed, e: Process, h: H, claimed: seq<Settled>): (r: R<bool>)
    ensures Grew(e, h, r.h)
    decreases |claimed|
  {
    if claimed == [] then Go(h, false)
    else
      match RunCall(x, e, h, claimed[0])
      case Stop(h1) => Stop(h1)
      case Go(h1, ends) =>
        match RunAll(x, e, h1, claimed[1..])
        case Stop(h2) => Stop(h2)
        case Go(h2, others) => Go(h2, ends || others)
  }

  predicate AllPlain(claimed: seq<Settled>) {
    forall i :: 0 <= i < |claimed| ==> claimed[i].kind in {Read, Skill, Memory}
  }

  /**
   * Launches every invocation before any is awaited, so each takes its position in call order, and
   * waits for all of them: what each returned, or nothing where the process did not get through it.
   */
  function InvokeAll(e: Process, h: H, claimed: seq<Settled>): (r: (H, seq<Option<Value>>))
    ensures Grew(e, h, r.0) && r.0.branches == h.branches
    ensures |r.0.trace| == |h.trace| + |claimed|
    ensures |r.1| == |claimed|
    decreases |claimed|
  {
    if claimed == [] then (h, [])
    else
      var first := Ask(e, h, Tool(claimed[0].id));
      var (last, rest) := InvokeAll(e, first.h, claimed[1..]);
      (last, [if first.Go? then Some(first.v) else None] + rest)
  }

  function RecordAll(e: Process, h: H, claimed: seq<Settled>, outcomes: seq<Option<Value>>): (r: R<bool>)
    requires |outcomes| == |claimed|
    ensures Grew(e, h, r.h)
    decreases |claimed|
  {
    if claimed == [] then Go(h, false)
    else
      var result := if outcomes[0].Some? then ResultOf(outcomes[0].value) else Failed;
      match Quiet(e, h, [Outcome(result, claimed[0].id)])
      case Stop(h1) => Stop(h1)
      case Go(h1, _) =>
        match RecordAll(e, h1, claimed[1..], outcomes[1..])
        case Stop(h2) => Stop(h2)
        case Go(h2, others) => Go(h2, EndsTurn(claimed[0], result) || others)
  }

  function NotedAll(h: H, claimed: seq<Settled>): (r: H)
    ensures r.trace == h.trace && h.branches <= r.branches
    decreases |claimed|
  {
    if claimed == [] then h else NotedAll(Noted(h, claimed[0].id, Run), claimed[1..])
  }

  /** Invokes a batch together, and persists nothing of it unless every invocation came back. */
  function Together(e: Process, h: H, claimed: seq<Settled>): (r: R<bool>)
    ensures Grew(e, h, r.h)
  {
    var h0 := NotedAll(h, claimed);
    assert Grew(e, h, h0);
    var (h1, outcomes) := InvokeAll(e, h0, claimed);
    if None in outcomes then Stop(h1) else RecordAll(e, h1, claimed, outcomes)
  }

  /** Claims a whole turn, then runs it: together if nothing in it waits for a person or an agent. */
  function Batched(x: Fixed, e: Process, h: H, calls: seq<Call>): (r: R<bool>)
    ensures Grew(e, h, r.h)
  {
    match ClaimAll(e, h, calls)
    case Stop(h1) => Stop(h1)
    case Go(h1, claimed) =>
      if AllPlain(claimed) then Together(e, h1, claimed) else RunAll(x, e, h1, claimed)
  }

  function Tools(x: Fixed, e: Process, h: H, calls: seq<Call>): (r: R<bool>)
    ensures Grew(e, h, r.h)
  {
    if x.parallel && |calls| > 1 then
      match Patched(x, e, h, ToolsPatch)
      case Stop(h1) => Stop(h1)
      case Go(h1, _) => Batched(x, e, h1, calls)
    else Sequentially(x, e, h, calls)
  }

  // ----- The run -----

  datatype Opened = Opened(untitled: bool, passages: nat)

  function Intake(x: Fixed): (names: seq<Name>)
    ensures forall i :: 0 <= i < |names| ==> !Computed(names[i])
  {
    (if x.persona then [PersonaResolve] else []) + [if x.regenerate then RegenerateTruncate else PersistUser]
  }

  /** Up to the first model call: which stages take a position is itself read from the journal. */
  function Opening(x: Fixed, e: Process, h: H): (r: R<Opened>)
    ensures Grew(e, h, r.h)
  {
    match Quiet(e, h, Intake(x))
    case Stop(h1) => Stop(h1)
    case Go(h1, _) => History(x, e, h1)
  }

  function History(x: Fixed, e: Process, h: H): (r: R<Opened>)
    ensures Grew(e, h, r.h)
  {
    match Patched(x, e, h, HistoryPatch)
    case Stop(h1) => Stop(h1)
    case Go(h1, _) => Loading(x, e, h1)
  }

  function Loading(x: Fixed, e: Process, h: H): (r: R<Opened>)
    ensures Grew(e, h, r.h)
  {
    match Ask(e, h, LoadThread)
    case Stop(h1) => Stop(h1)
    case Go(h1, thread) => Resolving(x, e, h1, thread)
  }

  function Resolving(x: Fixed, e: Process, h: H, thread: Value): (r: R<Opened>)
    ensures Grew(e, h, r.h)
  {
    match Patched(x, e, h, StagesPatch)
    case Stop(h1) => Stop(h1)
    case Go(h1, _) => Staged(e, h1, thread)
  }

  function Staged(e: Process, h: H, thread: Value): (r: R<Opened>)
    ensures Grew(e, h, r.h)
  {
    match Step(e, h, PromptStages, Stages(e.deps.memory, e.deps.retriever, e.deps.skills))
    case Stop(h1) => Stop(h1)
    case Go(h1, v) => Prompt(e, h1, thread, StagesOf(v))
  }

  function Prompt(e: Process, h: H, thread: Value, stages: Value): (r: R<Opened>)
    requires stages.Stages?
    ensures Grew(e, h, r.h)
  {
    match Quiet(e, h, [StartedAt, RunStart] + (if stages.memory then [MemoryDigest] else []))
    case Stop(h1) => Stop(h1)
    case Go(h1, _) => Retrieval(e, h1, thread, stages)
  }

  function Retrieval(e: Process, h: H, thread: Value, stages: Value): (r: R<Opened>)
    requires stages.Stages?
    ensures Grew(e, h, r.h)
  {
    match if stages.retriever then Ask(e, h, Retrieve) else Go(h, Passages(0))
    case Stop(h1) => Stop(h1)
    case Go(h1, v) =>
      match Quiet(e, h1, if stages.skills then [SkillsCatalog] else [])
      case Stop(h2) => Stop(h2)
      case Go(h2, _) =>
        Go(h2, Opened(thread.Thread? && thread.untitled, if v.Passages? then v.count else 0))
  }

  /** Reads the cancel flag at a safe point; a run that was cancelled unwinds. */
  function HaltIfCancelled(x: Fixed, e: Process, h: H, name: Name): (r: R<Value>)
    requires !Computed(name)
    ensures Grew(e, h, r.h)
  {
    if !x.cancellable then Go(h, Nothing)
    else
      match Ask(e, h, name)
      case Stop(h1) => Stop(h1)
      case Go(h1, v) => if v.Flag? && v.raised then Stop(h1) else Go(h1, v)
  }

  /** A final step with nothing on it is not written; its checkpoint stays, holding nothing. */
  function MessageBody(turn: Value, synthetic: bool, answer: Value): Value {
    var blank := turn.Turn? && turn.blank && !turn.extras && turn.calls == [] && !synthetic;
    if blank then Appended(None)
    else Appended(Some(if answer.Appended? && answer.messageId.Some? then answer.messageId.value else []))
  }

  /** One step of the turn. The answer: whether another one follows. */
  function OneStep(x: Fixed, e: Process, h: H, o: Opened, i: nat): (r: R<bool>)
    ensures Grew(e, h, r.h)
  {
    match HaltIfCancelled(x, e, h, CancelCheck(i))
    case Stop(h1) => Stop(h1)
    case Go(h1, _) => StepBody(x, e, h1, o, i)
  }

  function StepBody(x: Fixed, e: Process, h: H, o: Opened, i: nat): (r: R<bool>)
    ensures Grew(e, h, r.h)
  {
    match Quiet(e, h, [StepStart(i)])
    case Stop(h1) => Stop(h1)
    case Go(h1, _) => Model(x, e, h1, o, i)
  }

  /** The model call, and what its answer asks for. */
  function Model(x: Fixed, e: Process, h: H, o: Opened, i: nat): (r: R<bool>)
    ensures Grew(e, h, r.h)
  {
    match Ask(e, h, Llm(i))
    case Stop(h1) => Stop(h1)
    case Go(h1, turn) => Billed(x, e, h1, o, i, turn)
  }

  function Billed(x: Fixed, e: Process, h: H, o: Opened, i: nat, turn: Value): (r: R<bool>)
    ensures Grew(e, h, r.h)
  {
    match Quiet(e, h, [PersistUsage(i)])
    case Stop(h1) => Stop(h1)
    case Go(h1, _) => Answer(x, e, h1, o, i, turn)
  }

  /** The step's assistant message, and what comes after it. */
  function Answer(x: Fixed, e: Process, h: H, o: Opened, i: nat, turn: Value): (r: R<bool>)
    ensures Grew(e, h, r.h)
  {
    var synthetic := i == 0 && o.passages > 0;
    match Step(e, h, PersistAssistant(i),
               MessageBody(turn, synthetic, e.world(|h.trace|, PersistAssistant(i))))
    case Stop(h1) => Stop(h1)
    case Go(h1, v) => AfterMessage(x, e, h1, i, synthetic, v, CallsOf(turn))
  }

  function AfterMessage(x: Fixed, e: Process, h: H, i: nat, synthetic: bool, message: Value,
                        calls: seq<Call>)
    : (r: R<bool>)
    ensures Grew(e, h, r.h)
  {
    if !message.Appended? || message.messageId.None? then
      match Quiet(e, h, [StepFinish(i)])
      case Stop(h1) => Stop(h1)
      case Go(h1, _) => Go(h1, false)
    else
      match Quiet(e, h, if synthetic then [PersistRetrieval(message.messageId.value)] else [])
      case Stop(h1) => Stop(h1)
      case Go(h1, _) => CallTools(x, e, h1, i, calls)
  }

  function CallTools(x: Fixed, e: Process, h: H, i: nat, calls: seq<Call>): (r: R<bool>)
    ensures Grew(e, h, r.h)
  {
    if calls == [] then
      match Quiet(e, h, [StepFinish(i)])
      case Stop(h1) => Stop(h1)
      case Go(h1, _) => Go(h1, false)
    else
      match HaltIfCancelled(x, e, h, CancelTools(i))
      case Stop(h1) => Stop(h1)
      case Go(h1, _) => StepTools(x, e, h1, i, WithKinds(e.deps, calls))
  }

  function StepTools(x: Fixed, e: Process, h: H, i: nat, calls: seq<Call>): (r: R<bool>)
    ensures Grew(e, h, r.h)
  {
    match Tools(x, e, h, calls)
    case Stop(h1) => Stop(h1)
    case Go(h1, ends) =>
      match Quiet(e, h1, [ToolOutputs(i), StepFinish(i)])
      case Stop(h2) => Stop(h2)
      case Go(h2, _) => Go(h2, !ends)
  }

  function Loop(x: Fixed, e: Process, h: H, o: Opened, i: nat): (r: R<Value>)
    ensures Grew(e, h, r.h)
    decreases x.maxSteps - i
  {
    if i >= x.maxSteps then Go(h, Nothing)
    else
      match OneStep(x, e, h, o, i)
      case Stop(h1) => Stop(h1)
      case Go(h1, more) => if more then Loop(x, e, h1, o, i + 1) else Go(h1, Nothing)
  }

  function RunLoop(x: Fixed, e: Process): (r: R<Value>)
    ensures Grew(e, H([], []), r.h)
  {
    match Opening(x, e, H([], []))
    case Stop(h1) => Stop(h1)
    case Go(h1, o) => Body(x, e, h1, o)
  }

  /** The turn's steps: whether they can be cancelled is asked once, before the first. */
  function Body(x: Fixed, e: Process, h: H, o: Opened): (r: R<Value>)
    ensures Grew(e, h, r.h)
  {
    match if x.cancellable then Patched(x, e, h, CancelPatch) else Go(h, Nothing)
    case Stop(h1) => Stop(h1)
    case Go(h1, _) => Turns(x, e, h1, o)
  }

  /** The turn's steps, then what ends the run. */
  function Turns(x: Fixed, e: Process, h: H, o: Opened): (r: R<Value>)
    ensures Grew(e, h, r.h)
  {
    match Loop(x, e, h, o, 0)
    case Stop(h1) => Stop(h1)
    case Go(h1, _) => Quiet(e, h1, Closing(x, o))
  }

  function Closing(x: Fixed, o: Opened): (names: seq<Name>)
    ensures forall i :: 0 <= i < |names| ==> !Computed(names[i])
  {
    (if o.untitled then [PersistTitle] else []) + (if x.delivers then [DeliverDetached] else []) + [RunEnd]
  }

  // ----- The same, step by step -----

  /** The turn's steps as the loop takes them. */
  method TakeSteps(x: Fixed, e: Process, h: H, o: Opened) returns (r: R<Value>)
    ensures r == Loop(x, e, h, o, 0)
  {
    var now := h;
    var i := 0;
    while i < x.maxSteps
      invariant Loop(x, e, h, o, 0) == Loop(x, e, now, o, i)
      decreases x.maxSteps - i
    {
      var step := OneStep(x, e, now, o, i);
      if step.Stop? {
        return Stop(step.h);
      }
      now := step.h;
      if !step.v {
        break;
      }
      i := i + 1;
    }
    r := Go(now, Nothing);
  }

  /** Claims a turn's calls one after the other. */
  method ClaimCalls(e: Process, h: H, calls: seq<Call>) returns (r: R<seq<Settled>>)
    ensures r == ClaimAll(e, h, calls)
  {
    var now, claimed: seq<Settled> := h, [];
    assert calls[0..] == calls;
    NothingPrepended(ClaimAll(e, h, calls));
    for i := 0 to |calls|
      invariant ClaimAll(e, h, calls) == Prepended(claimed, ClaimAll(e, now, calls[i..]))
    {
      var one := ClaimCall(e, now, calls[i]);
      assert calls[i..][1..] == calls[i + 1..];
      if one.Stop? {
        return Stop(one.h);
      }
      PrependOne(claimed, one.v, ClaimAll(e, one.h, calls[i + 1..]));
      now, claimed := one.h, claimed + [one.v];
    }
    assert calls[|calls|..] == [] && claimed + [] == claimed;
    r := Go(now, claimed);
  }

  lemma PrependOne(claimed: seq<Settled>, one: Settled, r: R<seq<Settled>>)
    ensures Prepended(claimed, Prepended([one], r)) == Prepended(claimed + [one], r)
  {
    if r.Go? {
      assert claimed + ([one] + r.v) == (claimed + [one]) + r.v;
    }
  }

  lemma NothingPrepended(r: R<seq<Settled>>)
    ensures Prepended([], r) == r
  {
    if r.Go? {
      assert [] + r.v == r.v;
    }
  }

  function Prepended(claimed: seq<Settled>, r: R<seq<Settled>>): R<seq<Settled>> {
    match r
    case Stop(h) => Stop(h)
    case Go(h, rest) => Go(h, claimed + rest)
  }

  // ----- Positions of a batch -----

  /** What a batch's invocations ask for, with what came back. */
  function Invocations(claimed: seq<Settled>, outcomes: seq<Option<Value>>): (asked: seq<Asked>)
    requires |outcomes| == |claimed|
    ensures |asked| == |claimed|
    ensures forall i :: 0 <= i < |asked| ==> asked[i] == Asked(Tool(claimed[i].id), outcomes[i])
  {
    seq(|claimed|, i requires 0 <= i < |claimed| => Asked(Tool(claimed[i].id), outcomes[i]))
  }

  lemma InvocationsMore(claimed: seq<Settled>, outcomes: seq<Option<Value>>)
    requires |outcomes| == |claimed| > 0
    ensures Invocations(claimed, outcomes)
            == [Asked(Tool(claimed[0].id), outcomes[0])] + Invocations(claimed[1..], outcomes[1..])
  {
  }

  lemma AskTrace(e: Process, h: H, name: Name)
    requires !Computed(name)
    ensures var r := Ask(e, h, name);
            r.h.trace == h.trace + [Asked(name, if r.Go? then Some(r.v) else None)]
  {
  }

  lemma InvokeFirst(e: Process, h: H, claimed: seq<Settled>)
    requires claimed != []
    ensures var first := Ask(e, h, Tool(claimed[0].id));
            var (last, rest) := InvokeAll(e, first.h, claimed[1..]);
            && InvokeAll(e, h, claimed).0 == last
            && InvokeAll(e, h, claimed).1[0] == (if first.Go? then Some(first.v) else None)
            && InvokeAll(e, h, claimed).1[1..] == rest
  {
  }

  lemma {:induction false} InvocationPositions(e: Process, h: H, claimed: seq<Settled>)
    ensures var (last, outcomes) := InvokeAll(e, h, claimed);
            last.trace == h.trace + Invocations(claimed, outcomes)
    decreases |claimed|
  {
    if claimed == [] {
      assert h.trace + [] == h.trace;
    } else {
      var (last, outcomes) := InvokeAll(e, h, claimed);
      var first := Ask(e, h, Tool(claimed[0].id));
      InvocationPositions(e, first.h, claimed[1..]);
      InvokeFirst(e, h, claimed);
      AskTrace(e, h, Tool(claimed[0].id));
      InvocationsMore(claimed, outcomes);
      Regrouped(h.trace, Asked(Tool(claimed[0].id), outcomes[0]), Invocations(claimed[1..], outcomes[1..]));
    }
  }

  lemma Regrouped(front: seq<Asked>, one: Asked, rest: seq<Asked>)
    ensures (front + [one]) + rest == front + ([one] + rest)
  {
  }

  /** What a batch persists, in call order. */
  function Persists(claimed: seq<Settled>, outcomes: seq<Option<Value>>): (names: seq<Name>)
    requires |outcomes| == |claimed|
    ensures |names| == |claimed|
  {
    seq(|claimed|, i requires 0 <= i < |claimed| =>
      Outcome(if outcomes[i].Some? then ResultOf(outcomes[i].value) else Failed, claimed[i].id))
  }

  lemma OneQuiet(e: Process, h: H, name: Name)
    requires !Computed(name) && Quiet(e, h, [name]).Go?
    ensures var h1 := Quiet(e, h, [name]).h;
            |h1.trace| == |h.trace| + 1 && h1.trace[|h.trace|].name == name
  {
    assert [name][1..] == [];
  }

  lemma RecordFirst(e: Process, h: H, claimed: seq<Settled>, outcomes: seq<Option<Value>>)
    requires |outcomes| == |claimed| > 0 && RecordAll(e, h, claimed, outcomes).Go?
    ensures var name := Persists(claimed, outcomes)[0];
            var h1 := Quiet(e, h, [name]).h;
            && |h1.trace| == |h.trace| + 1 && h1.trace[|h.trace|].name == name
            && RecordAll(e, h1, claimed[1..], outcomes[1..]).Go?
            && RecordAll(e, h1, claimed[1..], outcomes[1..]).h == RecordAll(e, h, claimed, outcomes).h
  {
    OneQuiet(e, h, Persists(claimed, outcomes)[0]);
  }

  lemma PersistsMore(claimed: seq<Settled>, outcomes: seq<Option<Value>>)
    requires |outcomes| == |claimed| > 0
    ensures Persists(claimed, outcomes)
            == [Persists(claimed, outcomes)[0]] + Persists(claimed[1..], outcomes[1..])
  {
  }

  /** From `h` to `last`, exactly `names` were asked for, in order. */
  ghost predicate AskedFor(h: H, last: H, names: seq<Name>) {
    && |last.trace| == |h.trace| + |names|
    && (forall i :: 0 <= i < |names| ==> last.trace[|h.trace| + i].name == names[i])
  }

  lemma AskedForMore(h: H, h1: H, last: H, name: Name, names: seq<Name>)
    requires |h1.trace| == |h.trace| + 1 && h1.trace[|h.trace|].name == name
    requires h1.trace <= last.trace && AskedFor(h1, last, names)
    ensures AskedFor(h, last, [name] + names)
  {
    assert last.trace[|h.trace|] == h1.trace[|h.trace|];
    forall i | 0 < i < |names| + 1 ensures last.trace[|h.trace| + i].name == ([name] + names)[i] {
      assert last.trace[|h1.trace| + (i - 1)].name == names[i - 1];
    }
  }

  lemma RecordGrew(e: Process, h: H, claimed: seq<Settled>, outcomes: seq<Option<Value>>)
    requires |outcomes| == |claimed|
    ensures h.trace <= RecordAll(e, h, claimed, outcomes).h.trace
  {
  }

  lemma {:induction false} RecordPositions(e: Process, h: H, claimed: seq<Settled>,
                                           outcomes: seq<Option<Value>>)
    requires |outcomes| == |claimed| && RecordAll(e, h, claimed, outcomes).Go?
    ensures AskedFor(h, RecordAll(e, h, claimed, outcomes).h, Persists(claimed, outcomes))
    decreases |claimed|
  {
    if claimed != [] {
      var name := Persists(claimed, outcomes)[0];
      RecordFirst(e, h, claimed, outcomes);
      var h1 := Quiet(e, h, [name]).h;
      RecordPositions(e, h1, claimed[1..], outcomes[1..]);
      RecordGrew(e, h1, claimed[1..], outcomes[1..]);
      PersistsMore(claimed, outcomes);
      AskedForMore(h, h1, RecordAll(e, h1, claimed[1..], outcomes[1..]).h, name,
                   Persists(claimed[1..], outcomes[1..]));
    }
  }

  /** What a batch's invocations asked for, and what came back of them. */
  function Invoked(e: Process, h: H, claimed: seq<Settled>): (r: (H, seq<Option<Value>>))
    ensures |r.1| == |claimed|
  {
    InvokeAll(e, NotedAll(h, claimed), claimed)
  }

  /** A batch invoked together takes one block of invocation positions, in call order. */
  lemma BatchInvocations(e: Process, h: H, claimed: seq<Settled>, i: nat)
    requires i < |claimed|
    ensures var (h1, outcomes) := Invoked(e, h, claimed);
            && |h1.trace| == |h.trace| + |claimed|
            && h1.trace[|h.trace| + i] == Asked(Tool(claimed[i].id), outcomes[i])
    ensures Invoked(e, h, claimed).0.trace <= Together(e, h, claimed).h.trace
  {
    InvocationPositions(e, NotedAll(h, claimed), claimed);
  }

  /** If anything of it did not come back, that is all the batch asks for: nothing is persisted. */
  lemma UnwoundBatchPersistsNothing(e: Process, h: H, claimed: seq<Settled>)
    requires None in Invoked(e, h, claimed).1
    ensures Together(e, h, claimed) == Stop(Invoked(e, h, claimed).0)
    ensures |Together(e, h, claimed).h.trace| == |h.trace| + |claimed|
  {
  }

  /** Once everything came back, each outcome is persisted, in call order and right after the block. */
  lemma BatchPersists(e: Process, h: H, claimed: seq<Settled>, i: nat)
    requires Together(e, h, claimed).Go? && i < |claimed|
    ensures var outcomes := Invoked(e, h, claimed).1;
            && None !in outcomes
            && |Together(e, h, claimed).h.trace| == |h.trace| + 2 * |claimed|
            && Together(e, h, claimed).h.trace[|h.trace| + |claimed| + i].name
               == Persists(claimed, outcomes)[i]
  {
    var (h1, outcomes) := Invoked(e, h, claimed);
    BatchInvocations(e, h, claimed, i);
    RecordPositions(e, h1, claimed, outcomes);
    AskedForAt(h1, RecordAll(e, h1, claimed, outcomes).h, Persists(claimed, outcomes), i);
  }

  lemma AskedForAt(h: H, last: H, names: seq<Name>, i: nat)
    requires AskedFor(h, last, names) && i < |names|
    ensures |last.trace| == |h.trace| + |names| && last.trace[|h.trace| + i].name == names[i]
  {
  }

  /** The claims of a turn's calls take one block of positions, in call order. */
  lemma {:induction false} ClaimPositions(e: Process, h: H, calls: seq<Call>, i: nat)
    requires ClaimAll(e, h, calls).Go? && i < |calls|
    ensures var r := ClaimAll(e, h, calls);
            && |r.v| == |calls| && |r.h.trace| == |h.trace| + |calls|
            && r.v[i].id == calls[i].id
            && r.h.trace[|h.trace| + i].name == PersistCall(calls[i].id)
    decreases |calls|
  {
    var h1 := ClaimCall(e, h, calls[0]).h;
    var last := ClaimAll(e, h, calls).h;
    assert |h1.trace| == |h.trace| + 1 && h1.trace <= last.trace;
    if i > 0 {
      ClaimPositions(e, h1, calls[1..], i - 1);
    } else {
      assert last.trace[|h.trace|] == h1.trace[|h.trace|];
      if |calls| > 1 {
        ClaimPositions(e, h1, calls[1..], 0);
      }
    }
  }

  // ----- Replaying -----

  /** The journal holds what `trace` recorded. */
  ghost predicate Serves(journal: map<nat, Entry>, trace: seq<Asked>) {
    forall p :: 0 <= p < |trace| && trace[p].value.Some? ==>
      p in journal && journal[p].value == trace[p].value.value
  }

  /** Every claim the trace recorded says its kind. */
  ghost predicate Kinded(trace: seq<Asked>) {
    forall p :: 0 <= p < |trace| && trace[p].name.PersistCall? && trace[p].value.Some? ==>
      KindGiven(trace[p].value.value)
  }

  /** What a replay needs of the execution it replays. */
  ghost predicate Replays(b: Process, trace: seq<Asked>) {
    Serves(b.journal, trace) && Kinded(trace)
  }

  /** `b` asked for the same checkpoints as `a` and took the same branches, as far as `a` got. */
  ghost predicate Behind(a: H, b: H) {
    && |a.trace| <= |b.trace|
    && (forall p :: 0 <= p < |a.trace| ==> a.trace[p].name == b.trace[p].name)
    && a.branches <= b.branches
  }

  /** Where `a` went on, so did `b`, the same way; where `a` unwound, `b` got at least as far. */
  ghost predicate Same<T(!new)>(a: R<T>, b: R<T>) {
    if a.Go? then b == a else Behind(a.h, b.h)
  }

  lemma Earlier(b: Process, shorter: seq<Asked>, longer: seq<Asked>)
    requires Replays(b, longer) && shorter <= longer
    ensures Replays(b, shorter)
  {
    assert forall p :: 0 <= p < |shorter| ==> shorter[p] == longer[p];
  }

  lemma StillBehind(e: Process, a: H, b: H, c: H)
    requires Behind(a, b) && Grew(e, b, c)
    ensures Behind(a, c)
  {
  }

  lemma StepSame(a: Process, b: Process, h: H, name: Name, bodyA: Value, bodyB: Value)
    requires Fits(a, |h.trace|, name, bodyA) && Fits(b, |h.trace|, name, bodyB)
    requires Replays(b, Step(a, h, name, bodyA).h.trace)
    ensures Same(Step(a, h, name, bodyA), Step(b, h, name, bodyB))
  {
    var r := Step(a, h, name, bodyA);
    assert r.h.trace[|h.trace|].name == name;
  }

  lemma AskSame(a: Process, b: Process, h: H, name: Name)
    requires !Computed(name) && Replays(b, Ask(a, h, name).h.trace)
    ensures Same(Ask(a, h, name), Ask(b, h, name))
  {
    StepSame(a, b, h, name, a.world(|h.trace|, name), b.world(|h.trace|, name));
  }

  lemma {:induction false} QuietSame(a: Process, b: Process, h: H, names: seq<Name>)
    requires forall i :: 0 <= i < |names| ==> !Computed(names[i])
    requires Replays(b, Quiet(a, h, names).h.trace)
    ensures Same(Quiet(a, h, names), Quiet(b, h, names))
    decreases |names|
  {
    if names != [] {
      var ra, rb := Ask(a, h, names[0]), Ask(b, h, names[0]);
      Earlier(b, ra.h.trace, Quiet(a, h, names).h.trace);
      AskSame(a, b, h, names[0]);
      if ra.Go? {
        QuietSame(a, b, ra.h, names[1..]);
      } else {
        StillBehind(b, ra.h, rb.h, Quiet(b, h, names).h);
      }
    }
  }

  lemma PatchedSame(x: Fixed, a: Process, b: Process, h: H, name: Name)
    requires !Computed(name) && Replays(b, Patched(x, a, h, name).h.trace)
    ensures Same(Patched(x, a, h, name), Patched(x, b, h, name))
  {
    if x.patchTakes(NamesOf(h.trace), name) {
      QuietSame(a, b, h, [name]);
    }
  }

  // ----- One call, replayed -----

  /** The same call, but for the kind this process gives it. */
  predicate AlikeCall(a: Call, b: Call) {
    a.id == b.id && a.name == b.name && a.input == b.input
  }

  ghost predicate Alike(a: seq<Call>, b: seq<Call>) {
    |a| == |b| && forall i :: 0 <= i < |a| ==> AlikeCall(a[i], b[i])
  }

  /** The kind a claim recorded decides, whatever kind the replaying process gives the call. */
  lemma ClaimSame(a: Process, b: Process, h: H, callA: Call, callB: Call)
    requires AlikeCall(callA, callB) && Replays(b, ClaimCall(a, h, callA).h.trace)
    ensures Same(ClaimCall(a, h, callA), ClaimCall(b, h, callB))
  {
    var name := PersistCall(callA.id);
    var bodyA := ClaimBody(a.deps, callA, a.world(|h.trace|, name));
    var bodyB := ClaimBody(b.deps, callB, b.world(|h.trace|, name));
    var r := Step(a, h, name, bodyA);
    assert r.h == ClaimCall(a, h, callA).h;
    StepSame(a, b, h, name, bodyA, bodyB);
    if r.Go? {
      assert r.h.trace[|h.trace|] == Asked(name, Some(r.v));
    }
  }

  lemma ExecuteSame(a: Process, b: Process, h: H, c: Settled)
    requires Replays(b, Execute(a, h, c).h.trace)
    ensures Same(Execute(a, h, c), Execute(b, h, c))
  {
    var ra, rb := Ask(a, h, Tool(c.id)), Ask(b, h, Tool(c.id));
    Earlier(b, ra.h.trace, Execute(a, h, c).h.trace);
    AskSame(a, b, h, Tool(c.id));
    if ra.Go? {
      QuietSame(a, b, ra.h, [Outcome(ResultOf(ra.v), c.id)]);
    } else {
      StillBehind(b, ra.h, rb.h, Execute(b, h, c).h);
    }
  }

  lemma DelegationSame(x: Fixed, a: Process, b: Process, h: H, c: Settled)
    requires Replays(b, RunDelegation(x, a, h, c).h.trace)
    ensures Same(RunDelegation(x, a, h, c), RunDelegation(x, b, h, c))
  {
    var names :=
      match BranchOf(x, c)
      case Start => [Spawn(c.id), Exec(c.id)]
      case Delegate => [Child(c.id), Exec(c.id)]
      case _ => [Exec(c.id)];
    QuietSame(a, b, h, names);
  }

  lemma AnswersSame(a: Process, b: Process, h: H, c: Settled)
    requires Replays(b, AwaitAnswers(a, h, c).h.trace)
    ensures Same(AwaitAnswers(a, h, c), AwaitAnswers(b, h, c))
  {
    var ra, rb := Ask(a, h, Answers(c.id)), Ask(b, h, Answers(c.id));
    Earlier(b, ra.h.trace, AwaitAnswers(a, h, c).h.trace);
    AskSame(a, b, h, Answers(c.id));
    if ra.Go? {
      QuietSame(a, b, ra.h, [if ra.v.Replied? && ra.v.skipped then Reject(c.id) else Exec(c.id)]);
    } else {
      StillBehind(b, ra.h, rb.h, AwaitAnswers(b, h, c).h);
    }
  }

  lemma QuestionSame(x: Fixed, a: Process, b: Process, h: H, c: Settled)
    requires Replays(b, RunQuestion(x, a, h, c).h.trace)
    ensures Same(RunQuestion(x, a, h, c), RunQuestion(x, b, h, c))
  {
    if !x.validQuestions(c.input) {
      QuietSame(a, b, h, [Fail(c.id)]);
    } else {
      var ra, rb := Quiet(a, h, [Elicit(c.id)]), Quiet(b, h, [Elicit(c.id)]);
      Earlier(b, ra.h.trace, RunQuestion(x, a, h, c).h.trace);
      QuietSame(a, b, h, [Elicit(c.id)]);
      if ra.Stop? {
        StillBehind(b, ra.h, rb.h, RunQuestion(x, b, h, c).h);
      } else {
        AnswersSame(a, b, ra.h, c);
      }
    }
  }

  lemma PreflightSame(a: Process, b: Process, h: H, c: Settled)
    requires c.claim.preflight.Some? && Replays(b, RunPreflight(a, h, c).h.trace)
    ensures Same(RunPreflight(a, h, c), RunPreflight(b, h, c))
  {
    var p := c.claim.preflight.value;
    var names :=
      if p == Completed then (if c.claim.presents then [Present(c.id)] else []) + [Exec(c.id)]
      else if p == Denied then [Reject(c.id)]
      else [Fail(c.id)];
    QuietSame(a, b, h, names);
  }

  lemma ApprovalSame(a: Process, b: Process, h: H, c: Settled)
    requires Replays(b, RunApproval(a, h, c).h.trace)
    ensures Same(RunApproval(a, h, c), RunApproval(b, h, c))
  {
    var ra, rb := Ask(a, h, ApprovalSignal(c.id)), Ask(b, h, ApprovalSignal(c.id));
    Earlier(b, ra.h.trace, RunApproval(a, h, c).h.trace);
    AskSame(a, b, h, ApprovalSignal(c.id));
    if ra.Stop? {
      StillBehind(b, ra.h, rb.h, RunApproval(b, h, c).h);
    } else if ra.v.Decided? && ra.v.decision == Approve {
      ExecuteSame(a, b, ra.h, c);
    } else {
      QuietSame(a, b, ra.h, [Reject(c.id)]);
    }
  }

  /** A claimed call goes the same way in every process. */
  lemma CallSame(x: Fixed, a: Process, b: Process, h: H, c: Settled)
    requires Replays(b, RunCall(x, a, h, c).h.trace)
    ensures Same(RunCall(x, a, h, c), RunCall(x, b, h, c))
  {
    var h0 := Noted(h, c.id, BranchOf(x, c));
    match BranchOf(x, c)
    case Propose =>
    case Question => QuestionSame(x, a, b, h0, c);
    case Settle => PreflightSame(a, b, h0, c);
    case Park => ApprovalSame(a, b, h0, c);
    case Run => ExecuteSame(a, b, h0, c);
    case _ => DelegationSame(x, a, b, h0, c);
  }

  // ----- A turn's calls, replayed -----

  lemma {:induction false} SequentiallySame(x: Fixed, a: Process, b: Process, h: H,
                                            callsA: seq<Call>, callsB: seq<Call>)
    requires Alike(callsA, callsB) && Replays(b, Sequentially(x, a, h, callsA).h.trace)
    ensures Same(Sequentially(x, a, h, callsA), Sequentially(x, b, h, callsB))
    decreases |callsA|, 0
  {
    if callsA != [] {
      var ra, rb := ClaimCall(a, h, callsA[0]), ClaimCall(b, h, callsB[0]);
      Earlier(b, ra.h.trace, Sequentially(x, a, h, callsA).h.trace);
      ClaimSame(a, b, h, callsA[0], callsB[0]);
      if ra.Stop? {
        StillBehind(b, ra.h, rb.h, Sequentially(x, b, h, callsB).h);
      } else {
        RunThenSame(x, a, b, ra.h, ra.v, callsA[1..], callsB[1..]);
      }
    }
  }

  lemma {:induction false} RunThenSame(x: Fixed, a: Process, b: Process, h: H, c: Settled,
                                       othersA: seq<Call>, othersB: seq<Call>)
    requires Alike(othersA, othersB) && Replays(b, RunThen(x, a, h, c, othersA).h.trace)
    ensures Same(RunThen(x, a, h, c, othersA), RunThen(x, b, h, c, othersB))
    decreases |othersA|, 1
  {
    var ra, rb := RunCall(x, a, h, c), RunCall(x, b, h, c);
    Earlier(b, ra.h.trace, RunThen(x, a, h, c, othersA).h.trace);
    CallSame(x, a, b, h, c);
    if ra.Stop? {
      StillBehind(b, ra.h, rb.h, RunThen(x, b, h, c, othersB).h);
    } else {
      SequentiallySame(x, a, b, ra.h, othersA, othersB);
    }
  }

  lemma {:induction false} ClaimAllSame(a: Process, b: Process, h: H, callsA: seq<Call>, callsB: seq<Call>)
    requires Alike(callsA, callsB) && Replays(b, ClaimAll(a, h, callsA).h.trace)
    ensures Same(ClaimAll(a, h, callsA), ClaimAll(b, h, callsB))
    decreases |callsA|
  {
    if callsA != [] {
      var ra, rb := ClaimAll(a, h, callsA), ClaimAll(b, h, callsB);
      var ra1, rb1 := ClaimCall(a, h, callsA[0]), ClaimCall(b, h, callsB[0]);
      Earlier(b, ra1.h.trace, ra.h.trace);
      ClaimSame(a, b, h, callsA[0], callsB[0]);
      if ra1.Stop? {
        StillBehind(b, ra1.h, rb1.h, rb.h);
      } else {
        ClaimAllSame(a, b, ra1.h, callsA[1..], callsB[1..]);
      }
    }
  }

  lemma {:induction false} RunAllSame(x: Fixed, a: Process, b: Process, h: H, claimed: seq<Settled>)
    requires Replays(b, RunAll(x, a, h, claimed).h.trace)
    ensures Same(RunAll(x, a, h, claimed), RunAll(x, b, h, claimed))
    decreases |claimed|
  {
    if claimed != [] {
      var ra, rb := RunAll(x, a, h, claimed), RunAll(x, b, h, claimed);
      var ra1, rb1 := RunCall(x, a, h, claimed[0]), RunCall(x, b, h, claimed[0]);
      Earlier(b, ra1.h.trace, ra.h.trace);
      CallSame(x, a, b, h, claimed[0]);
      if ra1.Stop? {
        StillBehind(b, ra1.h, rb1.h, rb.h);
      } else {
        RunAllSame(x, a, b, ra1.h, claimed[1..]);
      }
    }
  }

  /** The invocations of a batch take the same positions, even where the process died in some. */
  lemma {:induction false} InvokeAllSame(a: Process, b: Process, ha: H, hb: H, claimed: seq<Settled>)
    requires Behind(ha, hb) && |ha.trace| == |hb.trace|
    requires Replays(b, InvokeAll(a, ha, claimed).0.trace)
    ensures Behind(InvokeAll(a, ha, claimed).0, InvokeAll(b, hb, claimed).0)
    ensures None !in InvokeAll(a, ha, claimed).1 && ha == hb ==>
              InvokeAll(b, hb, claimed) == InvokeAll(a, ha, claimed)
    decreases |claimed|
  {
    if claimed != [] {
      var ra, rb := Ask(a, ha, Tool(claimed[0].id)), Ask(b, hb, Tool(claimed[0].id));
      Earlier(b, ra.h.trace, InvokeAll(a, ha, claimed).0.trace);
      InvokeAllSame(a, b, ra.h, rb.h, claimed[1..]);
      if ha == hb {
        AskSame(a, b, ha, Tool(claimed[0].id));
      }
    }
  }

  lemma {:induction false} RecordAllSame(a: Process, b: Process, h: H, claimed: seq<Settled>,
                                         outcomes: seq<Option<Value>>)
    requires |outcomes| == |claimed| && Replays(b, RecordAll(a, h, claimed, outcomes).h.trace)
    ensures Same(RecordAll(a, h, claimed, outcomes), RecordAll(b, h, claimed, outcomes))
    decreases |claimed|
  {
    if claimed != [] {
      var result := if outcomes[0].Some? then ResultOf(outcomes[0].value) else Failed;
      var names := [Outcome(result, claimed[0].id)];
      var ra, rb := RecordAll(a, h, claimed, outcomes), RecordAll(b, h, claimed, outcomes);
      var ra1, rb1 := Quiet(a, h, names), Quiet(b, h, names);
      Earlier(b, ra1.h.trace, ra.h.trace);
      QuietSame(a, b, h, names);
      if ra1.Stop? {
        StillBehind(b, ra1.h, rb1.h, rb.h);
      } else {
        RecordAllSame(a, b, ra1.h, claimed[1..], outcomes[1..]);
      }
    }
  }

  lemma TogetherSame(a: Process, b: Process, h: H, claimed: seq<Settled>)
    requires Replays(b, Together(a, h, claimed).h.trace)
    ensures Same(Together(a, h, claimed), Together(b, h, claimed))
  {
    var h0 := NotedAll(h, claimed);
    var (ha, outcomes) := InvokeAll(a, h0, claimed);
    var (hb, outcomesB) := InvokeAll(b, h0, claimed);
    Earlier(b, ha.trace, Together(a, h, claimed).h.trace);
    InvokeAllSame(a, b, h0, h0, claimed);
    if None in outcomes {
      StillBehind(b, ha, hb, Together(b, h, claimed).h);
    } else {
      RecordAllSame(a, b, ha, claimed, outcomes);
    }
  }

  lemma BatchedSame(x: Fixed, a: Process, b: Process, h: H, callsA: seq<Call>, callsB: seq<Call>)
    requires Alike(callsA, callsB) && Replays(b, Batched(x, a, h, callsA).h.trace)
    ensures Same(Batched(x, a, h, callsA), Batched(x, b, h, callsB))
  {
    var ra, rb := ClaimAll(a, h, callsA), ClaimAll(b, h, callsB);
    Earlier(b, ra.h.trace, Batched(x, a, h, callsA).h.trace);
    ClaimAllSame(a, b, h, callsA, callsB);
    if ra.Stop? {
      StillBehind(b, ra.h, rb.h, Batched(x, b, h, callsB).h);
    } else if AllPlain(ra.v) {
      TogetherSame(a, b, ra.h, ra.v);
    } else {
      RunAllSame(x, a, b, ra.h, ra.v);
    }
  }

  lemma ToolsSame(x: Fixed, a: Process, b: Process, h: H, callsA: seq<Call>, callsB: seq<Call>)
    requires Alike(callsA, callsB) && Replays(b, Tools(x, a, h, callsA).h.trace)
    ensures Same(Tools(x, a, h, callsA), Tools(x, b, h, callsB))
  {
    if x.parallel && |callsA| > 1 {
      var ra, rb := Patched(x, a, h, ToolsPatch), Patched(x, b, h, ToolsPatch);
      Earlier(b, ra.h.trace, Tools(x, a, h, callsA).h.trace);
      PatchedSame(x, a, b, h, ToolsPatch);
      if ra.Stop? {
        StillBehind(b, ra.h, rb.h, Tools(x, b, h, callsB).h);
      } else {
        BatchedSame(x, a, b, ra.h, callsA, callsB);
      }
    } else {
      SequentiallySame(x, a, b, h, callsA, callsB);
    }
  }

  // ----- The whole run, replayed -----

  lemma HaltSame(x: Fixed, a: Process, b: Process, h: H, name: Name)
    requires !Computed(name) && Replays(b, HaltIfCancelled(x, a, h, name).h.trace)
    ensures Same(HaltIfCancelled(x, a, h, name), HaltIfCancelled(x, b, h, name))
  {
    if x.cancellable {
      AskSame(a, b, h, name);
    }
  }

  lemma PromptSame(a: Process, b: Process, h: H, thread: Value, stages: Value)
    requires stages.Stages? && Replays(b, Prompt(a, h, thread, stages).h.trace)
    ensures Same(Prompt(a, h, thread, stages), Prompt(b, h, thread, stages))
  {
    var ra, rb := Prompt(a, h, thread, stages), Prompt(b, h, thread, stages);
    var names := [StartedAt, RunStart] + (if stages.memory then [MemoryDigest] else []);
    var ra1, rb1 := Quiet(a, h, names), Quiet(b, h, names);
    Earlier(b, ra1.h.trace, ra.h.trace);
    QuietSame(a, b, h, names);
    if ra1.Stop? {
      StillBehind(b, ra1.h, rb1.h, rb.h);
    } else {
      RetrievalSame(a, b, ra1.h, thread, stages);
    }
  }

  lemma RetrievalSame(a: Process, b: Process, h: H, thread: Value, stages: Value)
    requires stages.Stages? && Replays(b, Retrieval(a, h, thread, stages).h.trace)
    ensures Same(Retrieval(a, h, thread, stages), Retrieval(b, h, thread, stages))
  {
    var ra := if stages.retriever then Ask(a, h, Retrieve) else Go(h, Passages(0));
    var rb := if stages.retriever then Ask(b, h, Retrieve) else Go(h, Passages(0));
    if stages.retriever {
      Earlier(b, ra.h.trace, Retrieval(a, h, thread, stages).h.trace);
      AskSame(a, b, h, Retrieve);
    }
    if ra.Stop? {
      StillBehind(b, ra.h, rb.h, Retrieval(b, h, thread, stages).h);
    } else {
      QuietSame(a, b, ra.h, if stages.skills then [SkillsCatalog] else []);
    }
  }

  /** The journal, not the wiring, says which prompt stages take a position. */
  lemma StagesSame(a: Process, b: Process, h: H, thread: Value)
    requires Replays(b, Staged(a, h, thread).h.trace)
    ensures Same(Staged(a, h, thread), Staged(b, h, thread))
  {
    var bodyA := Stages(a.deps.memory, a.deps.retriever, a.deps.skills);
    var bodyB := Stages(b.deps.memory, b.deps.retriever, b.deps.skills);
    var ra, rb := Step(a, h, PromptStages, bodyA), Step(b, h, PromptStages, bodyB);
    Earlier(b, ra.h.trace, Staged(a, h, thread).h.trace);
    StepSame(a, b, h, PromptStages, bodyA, bodyB);
    if ra.Stop? {
      StillBehind(b, ra.h, rb.h, Staged(b, h, thread).h);
    } else {
      PromptSame(a, b, ra.h, thread, StagesOf(ra.v));
    }
  }

  lemma ResolvingSame(x: Fixed, a: Process, b: Process, h: H, thread: Value)
    requires Replays(b, Resolving(x, a, h, thread).h.trace)
    ensures Same(Resolving(x, a, h, thread), Resolving(x, b, h, thread))
  {
    var ra, rb := Patched(x, a, h, StagesPatch), Patched(x, b, h, StagesPatch);
    Earlier(b, ra.h.trace, Resolving(x, a, h, thread).h.trace);
    PatchedSame(x, a, b, h, StagesPatch);
    if ra.Stop? {
      StillBehind(b, ra.h, rb.h, Resolving(x, b, h, thread).h);
    } else {
      StagesSame(a, b, ra.h, thread);
    }
  }

  lemma LoadingSame(x: Fixed, a: Process, b: Process, h: H)
    requires Replays(b, Loading(x, a, h).h.trace)
    ensures Same(Loading(x, a, h), Loading(x, b, h))
  {
    var ra, rb := Ask(a, h, LoadThread), Ask(b, h, LoadThread);
    Earlier(b, ra.h.trace, Loading(x, a, h).h.trace);
    AskSame(a, b, h, LoadThread);
    if ra.Stop? {
      StillBehind(b, ra.h, rb.h, Loading(x, b, h).h);
    } else {
      ResolvingSame(x, a, b, ra.h, ra.v);
    }
  }

  lemma HistorySame(x: Fixed, a: Process, b: Process, h: H)
    requires Replays(b, History(x, a, h).h.trace)
    ensures Same(History(x, a, h), History(x, b, h))
  {
    var ra, rb := Patched(x, a, h, HistoryPatch), Patched(x, b, h, HistoryPatch);
    Earlier(b, ra.h.trace, History(x, a, h).h.trace);
    PatchedSame(x, a, b, h, HistoryPatch);
    if ra.Stop? {
      StillBehind(b, ra.h, rb.h, History(x, b, h).h);
    } else {
      LoadingSame(x, a, b, ra.h);
    }
  }

  lemma OpeningSame(x: Fixed, a: Process, b: Process, h: H)
    requires Replays(b, Opening(x, a, h).h.trace)
    ensures Same(Opening(x, a, h), Opening(x, b, h))
  {
    var names := Intake(x);
    var ra, rb := Quiet(a, h, names), Quiet(b, h, names);
    Earlier(b, ra.h.trace, Opening(x, a, h).h.trace);
    QuietSame(a, b, h, names);
    if ra.Stop? {
      StillBehind(b, ra.h, rb.h, Opening(x, b, h).h);
    } else {
      HistorySame(x, a, b, ra.h);
    }
  }

  lemma StepToolsSame(x: Fixed, a: Process, b: Process, h: H, i: nat, callsA: seq<Call>, callsB: seq<Call>)
    requires Alike(callsA, callsB) && Replays(b, StepTools(x, a, h, i, callsA).h.trace)
    ensures Same(StepTools(x, a, h, i, callsA), StepTools(x, b, h, i, callsB))
  {
    var ra, rb := Tools(x, a, h, callsA), Tools(x, b, h, callsB);
    Earlier(b, ra.h.trace, StepTools(x, a, h, i, callsA).h.trace);
    ToolsSame(x, a, b, h, callsA, callsB);
    if ra.Stop? {
      StillBehind(b, ra.h, rb.h, StepTools(x, b, h, i, callsB).h);
    } else {
      QuietSame(a, b, ra.h, [ToolOutputs(i), StepFinish(i)]);
    }
  }

  lemma CallToolsSame(x: Fixed, a: Process, b: Process, h: H, i: nat, calls: seq<Call>)
    requires Replays(b, CallTools(x, a, h, i, calls).h.trace)
    ensures Same(CallTools(x, a, h, i, calls), CallTools(x, b, h, i, calls))
  {
    if calls == [] {
      QuietSame(a, b, h, [StepFinish(i)]);
    } else {
      var ra, rb := HaltIfCancelled(x, a, h, CancelTools(i)), HaltIfCancelled(x, b, h, CancelTools(i));
      Earlier(b, ra.h.trace, CallTools(x, a, h, i, calls).h.trace);
      HaltSame(x, a, b, h, CancelTools(i));
      if ra.Stop? {
        StillBehind(b, ra.h, rb.h, CallTools(x, b, h, i, calls).h);
      } else {
        StepToolsSame(x, a, b, ra.h, i, WithKinds(a.deps, calls), WithKinds(b.deps, calls));
      }
    }
  }

  lemma AfterMessageSame(x: Fixed, a: Process, b: Process, h: H, i: nat, synthetic: bool, message: Value,
                         calls: seq<Call>)
    requires Replays(b, AfterMessage(x, a, h, i, synthetic, message, calls).h.trace)
    ensures Same(AfterMessage(x, a, h, i, synthetic, message, calls),
                 AfterMessage(x, b, h, i, synthetic, message, calls))
  {
    if !message.Appended? || message.messageId.None? {
      QuietSame(a, b, h, [StepFinish(i)]);
    } else {
      var names := if synthetic then [PersistRetrieval(message.messageId.value)] else [];
      var ra, rb := Quiet(a, h, names), Quiet(b, h, names);
      Earlier(b, ra.h.trace, AfterMessage(x, a, h, i, synthetic, message, calls).h.trace);
      QuietSame(a, b, h, names);
      if ra.Stop? {
        StillBehind(b, ra.h, rb.h, AfterMessage(x, b, h, i, synthetic, message, calls).h);
      } else {
        CallToolsSame(x, a, b, ra.h, i, calls);
      }
    }
  }

  lemma AnswerSame(x: Fixed, a: Process, b: Process, h: H, o: Opened, i: nat, turn: Value)
    requires Replays(b, Answer(x, a, h, o, i, turn).h.trace)
    ensures Same(Answer(x, a, h, o, i, turn), Answer(x, b, h, o, i, turn))
  {
    var name, synthetic := PersistAssistant(i), i == 0 && o.passages > 0;
    var bodyA := MessageBody(turn, synthetic, a.world(|h.trace|, name));
    var bodyB := MessageBody(turn, synthetic, b.world(|h.trace|, name));
    var ra, rb := Step(a, h, name, bodyA), Step(b, h, name, bodyB);
    Earlier(b, ra.h.trace, Answer(x, a, h, o, i, turn).h.trace);
    StepSame(a, b, h, name, bodyA, bodyB);
    if ra.Stop? {
      StillBehind(b, ra.h, rb.h, Answer(x, b, h, o, i, turn).h);
    } else {
      AfterMessageSame(x, a, b, ra.h, i, synthetic, ra.v, CallsOf(turn));
    }
  }

  lemma BilledSame(x: Fixed, a: Process, b: Process, h: H, o: Opened, i: nat, turn: Value)
    requires Replays(b, Billed(x, a, h, o, i, turn).h.trace)
    ensures Same(Billed(x, a, h, o, i, turn), Billed(x, b, h, o, i, turn))
  {
    var ra, rb := Quiet(a, h, [PersistUsage(i)]), Quiet(b, h, [PersistUsage(i)]);
    Earlier(b, ra.h.trace, Billed(x, a, h, o, i, turn).h.trace);
    QuietSame(a, b, h, [PersistUsage(i)]);
    if ra.Stop? {
      StillBehind(b, ra.h, rb.h, Billed(x, b, h, o, i, turn).h);
    } else {
      AnswerSame(x, a, b, ra.h, o, i, turn);
    }
  }

  lemma ModelSame(x: Fixed, a: Process, b: Process, h: H, o: Opened, i: nat)
    requires Replays(b, Model(x, a, h, o, i).h.trace)
    ensures Same(Model(x, a, h, o, i), Model(x, b, h, o, i))
  {
    var ra, rb := Ask(a, h, Llm(i)), Ask(b, h, Llm(i));
    Earlier(b, ra.h.trace, Model(x, a, h, o, i).h.trace);
    AskSame(a, b, h, Llm(i));
    if ra.Stop? {
      StillBehind(b, ra.h, rb.h, Model(x, b, h, o, i).h);
    } else {
      BilledSame(x, a, b, ra.h, o, i, ra.v);
    }
  }

  lemma StepBodySame(x: Fixed, a: Process, b: Process, h: H, o: Opened, i: nat)
    requires Replays(b, StepBody(x, a, h, o, i).h.trace)
    ensures Same(StepBody(x, a, h, o, i), StepBody(x, b, h, o, i))
  {
    var ra, rb := Quiet(a, h, [StepStart(i)]), Quiet(b, h, [StepStart(i)]);
    Earlier(b, ra.h.trace, StepBody(x, a, h, o, i).h.trace);
    QuietSame(a, b, h, [StepStart(i)]);
    if ra.Stop? {
      StillBehind(b, ra.h, rb.h, StepBody(x, b, h, o, i).h);
    } else {
      ModelSame(x, a, b, ra.h, o, i);
    }
  }

  lemma OneStepSame(x: Fixed, a: Process, b: Process, h: H, o: Opened, i: nat)
    requires Replays(b, OneStep(x, a, h, o, i).h.trace)
    ensures Same(OneStep(x, a, h, o, i), OneStep(x, b, h, o, i))
  {
    var ra, rb := HaltIfCancelled(x, a, h, CancelCheck(i)), HaltIfCancelled(x, b, h, CancelCheck(i));
    Earlier(b, ra.h.trace, OneStep(x, a, h, o, i).h.trace);
    HaltSame(x, a, b, h, CancelCheck(i));
    if ra.Stop? {
      StillBehind(b, ra.h, rb.h, OneStep(x, b, h, o, i).h);
    } else {
      StepBodySame(x, a, b, ra.h, o, i);
    }
  }

  /** From here on, the two processes take the same steps. */
  ghost predicate LoopAgrees(x: Fixed, a: Process, b: Process, h: H, o: Opened, i: nat) {
    Same(Loop(x, a, h, o, i), Loop(x, b, h, o, i))
  }

  lemma LoopStops(x: Fixed, a: Process, b: Process, h: H, o: Opened, i: nat)
    requires i < x.maxSteps && OneStep(x, a, h, o, i).Stop?
    requires Same(OneStep(x, a, h, o, i), OneStep(x, b, h, o, i))
    ensures LoopAgrees(x, a, b, h, o, i)
  {
    StillBehind(b, OneStep(x, a, h, o, i).h, OneStep(x, b, h, o, i).h, Loop(x, b, h, o, i).h);
  }

  lemma LoopGoesOn(x: Fixed, e: Process, h: H, o: Opened, i: nat)
    requires i < x.maxSteps && OneStep(x, e, h, o, i).Go?
    ensures var r := OneStep(x, e, h, o, i);
            Loop(x, e, h, o, i) == if r.v then Loop(x, e, r.h, o, i + 1) else Go(r.h, Nothing)
  {
  }

  lemma StepWithinLoop(x: Fixed, e: Process, h: H, o: Opened, i: nat)
    requires i < x.maxSteps
    ensures OneStep(x, e, h, o, i).h.trace <= Loop(x, e, h, o, i).h.trace
  {
  }

  lemma LoopIsOver(x: Fixed, a: Process, b: Process, h: H, o: Opened, i: nat)
    requires i >= x.maxSteps
    ensures LoopAgrees(x, a, b, h, o, i)
  {
  }

  lemma LoopAgreesNext(x: Fixed, a: Process, b: Process, h: H, o: Opened, i: nat, h1: H)
    requires Loop(x, a, h, o, i) == Loop(x, a, h1, o, i + 1)
    requires Loop(x, b, h, o, i) == Loop(x, b, h1, o, i + 1)
    requires LoopAgrees(x, a, b, h1, o, i + 1)
    ensures LoopAgrees(x, a, b, h, o, i)
  {
  }

  lemma LoopAgreesLast(x: Fixed, a: Process, b: Process, h: H, o: Opened, i: nat)
    requires Loop(x, a, h, o, i).Go? && Loop(x, b, h, o, i) == Loop(x, a, h, o, i)
    ensures LoopAgrees(x, a, b, h, o, i)
  {
  }

  lemma {:induction false} LoopSame(x: Fixed, a: Process, b: Process, h: H, o: Opened, i: nat)
    requires Replays(b, Loop(x, a, h, o, i).h.trace)
    ensures LoopAgrees(x, a, b, h, o, i)
    decreases x.maxSteps - i
  {
    if i >= x.maxSteps {
      LoopIsOver(x, a, b, h, o, i);
    } else {
      StepWithinLoop(x, a, h, o, i);
      Earlier(b, OneStep(x, a, h, o, i).h.trace, Loop(x, a, h, o, i).h.trace);
      OneStepSame(x, a, b, h, o, i);
      LoopFollows(x, a, b, h, o, i);
    }
  }

  lemma {:induction false} LoopFollows(x: Fixed, a: Process, b: Process, h: H, o: Opened, i: nat)
    requires Replays(b, Loop(x, a, h, o, i).h.trace) && i < x.maxSteps
    requires Same(OneStep(x, a, h, o, i), OneStep(x, b, h, o, i))
    ensures LoopAgrees(x, a, b, h, o, i)
    decreases x.maxSteps - i, 0
  {
    var r := OneStep(x, a, h, o, i);
    if r.Stop? {
      LoopStops(x, a, b, h, o, i);
    } else {
      LoopGoesOn(x, a, h, o, i);
      LoopGoesOn(x, b, h, o, i);
      if r.v {
        LoopSame(x, a, b, r.h, o, i + 1);
        LoopAgreesNext(x, a, b, h, o, i, r.h);
      } else {
        LoopAgreesLast(x, a, b, h, o, i);
      }
    }
  }

  lemma TurnsSame(x: Fixed, a: Process, b: Process, h: H, o: Opened)
    requires Replays(b, Turns(x, a, h, o).h.trace)
    ensures Same(Turns(x, a, h, o), Turns(x, b, h, o))
  {
    var first := 0;
    var ra, rb := Loop(x, a, h, o, first), Loop(x, b, h, o, first);
    Earlier(b, ra.h.trace, Turns(x, a, h, o).h.trace);
    LoopSame(x, a, b, h, o, first);
    if ra.Stop? {
      StillBehind(b, ra.h, rb.h, Turns(x, b, h, o).h);
    } else {
      QuietSame(a, b, ra.h, Closing(x, o));
    }
  }

  lemma BodySame(x: Fixed, a: Process, b: Process, h: H, o: Opened)
    requires Replays(b, Body(x, a, h, o).h.trace)
    ensures Same(Body(x, a, h, o), Body(x, b, h, o))
  {
    if x.cancellable {
      var ra, rb := Patched(x, a, h, CancelPatch), Patched(x, b, h, CancelPatch);
      Earlier(b, ra.h.trace, Body(x, a, h, o).h.trace);
      PatchedSame(x, a, b, h, CancelPatch);
      if ra.Stop? {
        StillBehind(b, ra.h, rb.h, Body(x, b, h, o).h);
      } else {
        TurnsSame(x, a, b, ra.h, o);
      }
    } else {
      TurnsSame(x, a, b, h, o);
    }
  }

  /**
   * A process given the journal of an earlier one goes the same way as far as that one got: the same
   * checkpoints in the same order, and the same branch for every call.
   */
  lemma RunSame(x: Fixed, a: Process, b: Process)
    requires Replays(b, RunLoop(x, a).h.trace)
    ensures Same(RunLoop(x, a), RunLoop(x, b))
  {
    var ra, rb := Opening(x, a, H([], [])), Opening(x, b, H([], []));
    Earlier(b, ra.h.trace, RunLoop(x, a).h.trace);
    OpeningSame(x, a, b, H([], []));
    if ra.Stop? {
      StillBehind(b, ra.h, rb.h, RunLoop(x, b).h);
    } else {
      BodySame(x, a, b, ra.h, ra.v);
    }
  }

  // ----- A run's processes, one after the other -----

  /** What the journal holds once a process recorded what it got through. */
  function Recorded(journal: map<nat, Entry>, trace: seq<Asked>): map<nat, Entry> {
    map p | p in journal.Keys + (set q | 0 <= q < |trace| && trace[q].value.Some?) ::
      if p in journal then journal[p] else Entry(trace[p].name, trace[p].value.value)
  }

  /** A process as it comes to the run: everything but the journal it will be given. */
  function Given(p: Process, journal: map<nat, Entry>): Process {
    p.(journal := journal)
  }

  /** The journal after these processes ran, each given what the ones before left. */
  function JournalOf(x: Fixed, processes: seq<Process>): map<nat, Entry> {
    if processes == [] then map[]
    else
      var journal := JournalOf(x, processes[..|processes| - 1]);
      Recorded(journal, RunLoop(x, Given(processes[|processes| - 1], journal)).h.trace)
  }

  /** Every recorded position was asked for under the name it is recorded under. */
  ghost predicate Matches(journal: map<nat, Entry>, trace: seq<Asked>) {
    forall p :: p in journal ==> p < |trace| && trace[p].name == journal[p].name
  }

  lemma RecordedServes(e: Process, trace: seq<Asked>)
    requires forall p :: 0 <= p < |trace| ==> Proper(e, p, trace[p])
    requires forall p :: p in e.journal && e.journal[p].name.PersistCall? ==> KindGiven(e.journal[p].value)
    requires Matches(e.journal, trace)
    ensures Serves(Recorded(e.journal, trace), trace) && Kinded(trace)
    ensures Matches(Recorded(e.journal, trace), trace)
  {
  }

  /** What holds of the journal: the last process asked for all of it, and its claims say their kind. */
  ghost predicate WellKept(journal: map<nat, Entry>, trace: seq<Asked>) {
    && Matches(journal, trace)
    && Serves(journal, trace)
    && Kinded(trace)
    && (forall p :: p in journal && journal[p].name.PersistCall? ==> KindGiven(journal[p].value))
  }

  lemma NextKeepsJournal(x: Fixed, a: Process, b: Process)
    requires WellKept(b.journal, RunLoop(x, a).h.trace)
    ensures Matches(b.journal, RunLoop(x, b).h.trace)
    ensures RunLoop(x, a).h.branches <= RunLoop(x, b).h.branches
    ensures WellKept(Recorded(b.journal, RunLoop(x, b).h.trace), RunLoop(x, b).h.trace)
  {
    RunSame(x, a, b);
    assert Grew(b, H([], []), RunLoop(x, b).h);
    assert Behind(RunLoop(x, a).h, RunLoop(x, b).h);
    RecordedServes(b, RunLoop(x, b).h.trace);
  }

  lemma FirstKeepsJournal(x: Fixed, a: Process)
    requires a.journal == map[]
    ensures WellKept(Recorded(map[], RunLoop(x, a).h.trace), RunLoop(x, a).h.trace)
  {
    assert Grew(a, H([], []), RunLoop(x, a).h);
    RecordedServes(a, RunLoop(x, a).h.trace);
  }

  /** The last of some processes, with the journal it was given. */
  function Last(x: Fixed, processes: seq<Process>): Process
    requires processes != []
  {
    Given(processes[|processes| - 1], JournalOf(x, processes[..|processes| - 1]))
  }

  lemma {:induction false} JournalWellKept(x: Fixed, processes: seq<Process>)
    requires processes != []
    ensures WellKept(JournalOf(x, processes), RunLoop(x, Last(x, processes)).h.trace)
  {
    var front := processes[..|processes| - 1];
    if front == [] {
      FirstKeepsJournal(x, Last(x, processes));
    } else {
      JournalWellKept(x, front);
      NextKeepsJournal(x, Last(x, front), Last(x, processes));
    }
  }

  /**
   * However many processes ran the run before, each with its own memory, retrieval and skills wiring
   * and its own tool registry, and wherever each died or parked: the next one asks for every recorded
   * position, in order, under the name it was recorded under, and takes for every call the branch the
   * one before it took.
   */
  lemma ReplayAsksWhatIsRecorded(x: Fixed, processes: seq<Process>, next: Process)
    requires processes != []
    ensures var journal := JournalOf(x, processes);
            var replay := RunLoop(x, Given(next, journal));
            && Matches(journal, replay.h.trace)
            && RunLoop(x, Last(x, processes)).h.branches <= replay.h.branches
  {
    JournalWellKept(x, processes);
    NextKeepsJournal(x, Last(x, processes), Given(next, JournalOf(x, processes)));
  }

  /** A run that came to its end is replayed whole: the same checkpoints, answers, branches, result. */
  lemma FinishedRunReplaysExactly(x: Fixed, processes: seq<Process>, next: Process)
    requires processes != [] && RunLoop(x, Last(x, processes)).Go?
    ensures RunLoop(x, Given(next, JournalOf(x, processes))) == RunLoop(x, Last(x, processes))
  {
    JournalWellKept(x, processes);
    RunSame(x, Last(x, processes), Given(next, JournalOf(x, processes)));
  }
}
