# A verified model of the agent library's protocols

This project models, in Dafny, the parts of the agent library whose correctness depends on how steps
interleave or on how functions fit together, and proves what they are for. It has four parts.

**Independent action proposals.** A proposed tool action is a row with a decision, an execution under
a lease, an outcome, and a delivery of that outcome under a second lease. `ActionProposals` holds the
row transitions; `ProposalRows` shows every one of them keeps a row consistent and refines
`LeaseProtocol`, one abstract lease protocol that both leases are instances of; `AgentDb` is the whole
store as a value, one function per operation; `AgentStore` is the store as a class whose methods change
maps in place and are proved to do exactly what those functions say. `ProposalAnswers`, `StoreAnswers`
and `DiscoveryAnswers` say what each operation answers and what it leaves, when it throws and which
rows it takes, from the stored rows, the command and the clock alone. Over every sequence of operations,
`ProposalRuns`, `Supersession`, `ToolCallRecords`, `Paging` and `Discovery` prove what the store
promises, and `ProposalWorkers` what any number of claiming, renewing, crashing and settling workers
can do to it. Fencing rests on generations that
only grow, so these results hold for a clock that jumps either way. That it does not go back is used
only for lease windows not to overlap (`LeaseProtocol.WindowsDisjoint`,
`ProposalWorkers.LeaseWindowsApart`), and for which rows a batch finds, that it stands still
meanwhile (`Discovery`).

**Channel delivery.** `Outbox`, `ReadTurn`, `TurnStart` and `QuestionSettlement` are the handler's
phases as steps with crashes between any two of them, and `TurnMessages` says what a read sends from
the frames alone: its cards, its notices, and nothing read before a question after it. Each keeps the one key, or the slots, its phase
uses as state of its own: free, claimed, or holding a value, as long as its time to live.
`ChannelStore` is the store these keys are in; `QuestionSettlement.SettleQuestion` runs its phase on
that class and shows the key behaves as the steps take it to, and for the other phases the reading of
a key as free, claimed or recorded is not itself proved. `Executor` is what the phases run in.

**The agent loop's journal.** `Journal` is the loop as its journal sees it: which checkpoint is asked
for next, given what the earlier ones answered. A checkpoint serves the next journal entry if there is
one, else runs its body and records it. Processes with different memory, retrieval and skills wiring
and different tool registries run one after the other over one journal. `CallOutcomes` says what the
loop asks for one call, a turn's calls and a batch, how each is settled by what its tool came back
with, and when they end the turn; `RunOutline` the same of a step and of the whole run. `CallSafety`
says what comes last for a call and what not before an approval, `Approvals` that no run ever executes a call a person has yet to approve,
`ParallelTasks` and `Batches` what overlapping invocations leave behind, `Delegation` how far chains
of agents go.

**Kernels.** `JsonText`, `CanonicalJson` and `ConfirmToken` (what a confirm token signs, and the store
that marks it spent), `JsonReading` (the printed text read back by the grammar of RFC 8259),
`ConfirmedTool` (how often it can be committed), `Memory` (the digest), `Split` (message splitting),
`History` (the history window and the prompt made of it) and `PromptContents` (that the prompt holds
what the messages do).

Strings are sequences of UTF-16 code units, compared unit by unit as JavaScript does. Clock readings,
random ids, jitter, what hosts and providers answer, and which process dies where are parameters, so
every theorem holds for all of them. A thrown error is a `Failure`, and an operation that throws leaves
the store unchanged.

What the original promises does not hold everywhere. Where it does not, the code is modelled as it is,
and both the failing run and the exact condition are proved:

- A later run of a message's phase need not return the turn an earlier run started. If that run died
  before recording it, the next finds only the claim and may answer the message by another branch
  (`TurnStart.LaterRunMayDivert`); it does so if and only if it takes such a branch, or finds one
  recorded when it looks (`LaterRunDiverts`). A start that threw and whose key could not be deleted
  leaves the message without a turn for good (`UnreleasedStartIsLost`); a turn can still start if and
  only if the key is free or held by a run under way (`TurnCanStillStart`).
- `settleQuestion` is to answer false only when something else settled the question. A run that dies
  between claiming the key and naming its owner makes it answer false for good, with nothing settled
  (`QuestionSettlement.OrphanedIsReached`, `OrphanedForGood`); a question can be settled if and only
  if that has not happened (`CanBeSettled`).
- With a store a confirm token is to be single use. The claim forgets marks that ran out and does not
  look at the token's own expiry, so a confirmation that verified in time and claims late commits it
  again (`ConfirmedTool.CommittedTwice`). A token leads to at most one commit as long as no claim comes
  after its expiry (`CommittedAtMostOnce`); another commit can follow if and only if some confirmation
  holds the token or it has not run out (`CanStillCommit`).
- Superseding a proposal directly keeps chains going forward if and only if it is not a proper command
  for a pending, unexpired row naming a replacement created no later
  (`Supersession.DirectSupersessionForward`); a run that ends in a cycle is in `TwoPendingInASlot`.
- Recording a call as proposed leaves it in step with its proposal if and only if that is not concluded
  yet (`ToolCallRecords.RecordedInTimeOrNever`).
- Reading only a thread's newest rows yields all that reading the whole thread does if and only if none
  of them is a blank assistant message, or every older row is, or the token limit leaves no room for
  an older one anyway (`History.BoundedReadIsWhole`).
- What the memory digest shows and omits adds up to the keys in scope if and only if the ceiling is not
  negative (`Memory.ShownAndOmitted`).
- A text is cut at white space if and only if the window has any past its first third
  (`Split.CutsAtSpace`).

## Model

| member | source | states |
|---|---|---|
| LeaseProtocol.StepKeepsHistory | packages/core/src/action-proposal-transitions.ts:255-351 | whatever is claimed, renewed or settled, the history of a leased piece of work stays safe: generations grow, only the holder acts, nothing follows a settlement |
| LeaseProtocol.SettledAtMostOnce | packages/core/src/action-proposal-transitions.ts:320-352 | a safe history holds at most one settlement |
| LeaseProtocol.SettledByHighest | packages/core/src/action-proposal-transitions.ts:282-301 | the settlement comes last, after the approval, under a claim by the settler, and no generation ever issued is higher |
| LeaseProtocol.TakenOverIsFenced | packages/core/src/action-proposal-transitions.ts:255-301 | nothing done later is done under a lower generation, and a later claim's is strictly higher |
| LeaseProtocol.TakeoverBetween | packages/core/src/action-proposal-transitions.ts:255-280 | between two acts under different generations there is the claim that took the first lease over |
| LeaseProtocol.WindowsDisjoint | packages/core/src/action-proposal-transitions.ts:255-318 | with a clock that does not go back, the window granted under a lower generation ends before one under a higher begins |
| ProposalRows.InitialConsistent | packages/core/src/action-proposal-transitions.ts:166-176 | a created row is consistent and carries its input and its time |
| ProposalRows.MoveKeepsConsistent | packages/core/src/action-proposal-transitions.ts:202-398 | every transition keeps a row consistent: execution exactly if approved, lease exactly while executing and of its generation, outcome and delivery exactly once concluded |
| ProposalRows.MoveKeepsIdentity | packages/core/src/action-proposal-transitions.ts:202-398 | no transition changes what the row was created with, or when |
| ProposalRows.MoveKeepsConclusions | packages/core/src/action-proposal-transitions.ts:202-398 | decided and settled states absorb: decision, audit, superseding row, execution, outcome and a finished delivery never change again |
| ProposalRows.ExecutionRefines | packages/core/src/action-proposal-transitions.ts:202-352 | on a row's execution, each transition is a step of the lease protocol |
| ProposalRows.DeliveryRefines | packages/core/src/action-proposal-outcome.ts:48-97 | on the delivery of its outcome, so is each delivery step |
| ProposalAnswers.CreationThrows | packages/core/src/action-proposal-transitions.ts:23-103 | a creation throws exactly on a missing or overlong id, an empty text, or an expiry or clock that is no exact integer |
| ProposalAnswers.CreationThrowsWhich | packages/core/src/action-proposal-transitions.ts:23-103 | which error it throws, in the order the checks are made |
| ProposalAnswers.CreationLeaves | packages/core/src/action-proposal-transitions.ts:166-176 | a row begins pending, with nothing decided, done or delivered |
| ProposalAnswers.DecisionAnswers | packages/core/src/action-proposal-transitions.ts:202-248 | which of applied, unchanged, conflict and expired a decision answers, in terms of the row before and the time |
| ProposalAnswers.ImproperDecisionThrows | packages/core/src/action-proposal-transitions.ts:202-222 | a decision throws exactly on a clock that is no exact integer, a decision nobody can make, or a missing actor or channel, and which error |
| ProposalAnswers.DecisionConcludes | packages/core/src/action-proposal-transitions.ts:202-248 | past its time a row expires in the system's name whatever is decided; else approval queues an execution and concludes nothing, rejection concludes; the audit and the whole row are given |
| ProposalAnswers.ClaimThrows | packages/core/src/action-proposal-transitions.ts:250-264 | a claim throws exactly on a lease that is no positive exact integer, a sum that is none, or a missing worker or token |
| ProposalAnswers.ClaimAnswers | packages/core/src/action-proposal-transitions.ts:255-280 | a claim applies exactly to approved work nobody holds, gives the next generation, leaves the rest of the row, and keeps others out exactly until the lease runs out |
| ProposalAnswers.ExtendThrows | packages/core/src/action-proposal-transitions.ts:250-311 | a renewal throws exactly on an improper lease or fence |
| ProposalAnswers.ExtendAnswers | packages/core/src/action-proposal-transitions.ts:282-318 | a renewal applies exactly to the holder within its lease, never shortens it, and otherwise changes nothing |
| ProposalAnswers.SettleThrows | packages/core/src/action-proposal-transitions.ts:320-340 | a settlement throws exactly on an ambiguous report or an improper fence |
| ProposalAnswers.SettleAnswers | packages/core/src/action-proposal-transitions.ts:320-352 | a settlement applies exactly to the holder within its lease, records what was reported, concludes the row, and nobody holds it afterwards |
| ProposalAnswers.SupersessionThrows | packages/core/src/action-proposal-transitions.ts:354-372 | a supersession throws exactly on an improper clock or a missing name |
| ProposalAnswers.SupersessionAnswers | packages/core/src/action-proposal-transitions.ts:354-398 | which answer a supersession gives, from the two rows and the time, and the whole row it leaves |
| ProposalAnswers.OutcomeSays | packages/core/src/action-proposal-outcome.ts:10-46 | whatever concludes a row, its outcome carries the row's identity and origin, its decision, how the work ended, why it failed or was refused, and what was reported |
| ProposalAnswers.OutcomeClaimThrows | packages/core/src/action-proposal-discovery.ts:3-13 | handing an outcome out throws exactly on an improper clock, worker or lease |
| ProposalAnswers.OutcomeClaimAnswers | packages/core/src/action-proposal-outcome.ts:48-97 | an outcome is handed out exactly while it waits and nobody holds it, under the next generation, and waits again exactly once the lease runs out |
| ProposalAnswers.FenceAnswers | packages/core/src/action-proposal-outcome.ts:73-97 | a delivery's fence throws exactly on improper arguments, and holds exactly of the live lease under its id, token and generation |
| ProposalAnswers.OtherScopesUntouched | packages/core/src/in-memory-action-proposal-store.ts:83-102 | an operation reads and changes nothing outside its scope: it answers as if the row were not there |
| ProposalAnswers.ReplacingStaysInScope | packages/core/src/in-memory-action-proposal-store.ts:208-241 | nor does a replacing create |
| StoreAnswers.CreateAnswers | packages/core/src/in-memory-action-proposal-store.ts:47-60 | a creation makes a row exactly if its id is free and it is proper, last in creation order; a taken id is told so to its own scope alone; nothing else changes |
| StoreAnswers.MutateAnswers | packages/core/src/in-memory-action-proposal-store.ts:83-136 | a caller moves exactly a row of its own scope, as the row's transition says, and only that row and the record of its call change; any other id is not found, and a throw changes nothing |
| StoreAnswers.SupersedeAnswers | packages/core/src/in-memory-action-proposal-store.ts:242-252 | a supersession needs both rows in the caller's scope |
| StoreAnswers.CreateReplacingAnswers | packages/core/src/in-memory-action-proposal-store.ts:208-241 | a replacing create leaves the new row, every pending row of its scope, tool and key superseded in its creator's name or expired, and every record following; or it throws and changes nothing |
| StoreAnswers.AdmissionAnswers | packages/core/src/in-memory-store.ts:734-784 | what an admission answers, check by check, and the whole store it leaves |
| StoreAnswers.DispatchAnswers | packages/core/src/in-memory-action-proposal-store.ts:177-207 | handing out stores the one row under its lease, and nothing else changes |
| StoreAnswers.StreamClaimAnswers | packages/core/src/in-memory-store.ts:583-598 | a claim takes a thread if and only if it exists and is held by nobody, by this run, or by the run named as replaced; a refused claim changes nothing, an applied one the holder alone |
| StoreAnswers.StreamReleaseAnswers | packages/core/src/in-memory-store.ts:600-608 | a release frees a thread if and only if its run holds it, and changes nothing else |
| StoreAnswers.ThreadAnswers | packages/core/src/in-memory-store.ts:571-581 | every other write to a thread changes that thread alone, and only if it is there |
| StoreAnswers.HolderStays | packages/core/src/in-memory-store.ts:571-608 | one operation takes a thread from its holder if and only if it is its own release, a claim naming it as replaced, a write of another holder, or the thread's deletion |
| StoreAnswers.HeldUntilTakenAway | packages/core/src/in-memory-store.ts:571-608 | so over every run of operations a holder keeps its thread until one of those |
| StoreAnswers.FailUnsettledAnswers | packages/core/src/in-memory-store.ts:930-940 | a run's end fails exactly its calls that wait for an approval, with its error |
| AgentDb.StepMovesRows | packages/core/src/in-memory-action-proposal-store.ts:47-252 | each operation moves each stored row by one transition at most, drops none, and adds at most the one it creates |
| AgentDb.StepKeepsWellFormed | packages/core/src/in-memory-action-proposal-store.ts:47-252 | rows stay consistent, under their own id, each once in creation order |
| AgentDb.RunWellFormed | packages/core/src/in-memory-action-proposal-store.ts:47-252 | so after every sequence of operations |
| ProposalRuns.ReachStories | packages/core/src/action-proposal-transitions.ts:255-352 | in every run the history of every execution and every delivery is safe and says what its row says |
| ProposalRuns.SettledExactly | packages/core/src/action-proposal-transitions.ts:320-352 | a row is settled exactly when its history has a settlement |
| ProposalRuns.SettledOnceByHighestGeneration | packages/core/src/action-proposal-transitions.ts:255-352 | in every run a proposal is settled at most once, only after approval and only under the highest generation issued |
| ProposalRuns.OutcomeIdsDiffer | packages/core/src/action-proposal-outcome.ts:10-46 | outcomes of different proposals have different ids |
| ProposalRuns.OnlyAdmissionAdmits | packages/core/src/in-memory-store.ts:734-784 | a delivery becomes admitted by an applied admission alone, with the message it appended, and stays as it is |
| ProposalRuns.AdmittedExactlyOnce | packages/core/src/in-memory-store.ts:734-784 | in every run an outcome is admitted exactly when one append under its recorded message id happened, and only one ever did |
| ProposalRuns.AdmissionNeeds | packages/core/src/in-memory-store.ts:734-784 | an admission applies only to a thread no run holds, under the current lease within its time, and appends one message to that thread alone |
| ProposalRuns.AppendedOnlyWhenFree | packages/core/src/in-memory-store.ts:734-784 | in every run an append happens only on a free thread and only under the highest delivery generation issued |
| ProposalRuns.ConclusionsAreFinal | packages/core/src/in-memory-store.ts:583-784 | whatever happens later, a conclusion, its outcome, and an admitted or discarded delivery stay |
| ProposalRuns.TakenIdAnswers | packages/core/src/in-memory-action-proposal-store.ts:47-60 | creating under a taken id answers unchanged for the same input and conflict for another, shows the row in its own scope only, and changes nothing |
| ProposalRuns.CreationReplay | packages/core/src/action-proposal-transitions.ts:178-193 | after any run since, repeating the original creation answers unchanged and any other under its id conflict, neither changing anything |
| ProposalWorkers.FleetAttributed | packages/core/src/action-proposal-worker.ts:100-146 | every event a worker's attempt causes is under the claim it holds |
| ProposalWorkers.SettledMeansFenced | packages/core/src/action-proposal-worker.ts:100-146 | an attempt that settled never had a renewal refused |
| ProposalWorkers.FleetSettledOnce | packages/core/src/action-proposal-worker.ts:71-146 | in every interleaving of any number of workers and of anything else, one settlement at most, by the highest generation |
| ProposalWorkers.TakenOverForGood | packages/core/src/action-proposal-worker.ts:100-146 | a lease taken over is never got back |
| ProposalWorkers.TakenOverChangesNothing | packages/core/src/action-proposal-worker.ts:100-146 | whatever an attempt does after being taken over, however late, changes nothing in the store |
| ProposalWorkers.SettlerWasNeverTakenOver | packages/core/src/action-proposal-worker.ts:100-146 | no attempt that settled is ever taken over |
| ProposalWorkers.LeaseWindowsApart | packages/core/src/action-proposal-transitions.ts:255-318 | with a clock that does not go back, in every run the lease windows of successive generations of an execution, and of a delivery, do not overlap |
| ProposalWorkers.TakeUpSays | packages/core/src/action-proposal-worker.ts:74-84 | an attempt begins exactly with a claim that is applied, under the generation it issues |
| ProposalWorkers.AttemptSays | packages/core/src/action-proposal-worker.ts:100-146 | an attempt renews one at a time while it runs, loses its fence exactly with a renewal refused or thrown, and once its executor returned settles exactly if it still has it |
| Supersession.ReplacementRuns | packages/core/src/in-memory-action-proposal-store.ts:208-241 | when keyed proposals come only from the replacing create, every reachable store has at most one pending proposal per scope, tool and key, and every superseded row points at a later one |
| Supersession.ChainGoesForward | packages/core/src/in-memory-action-proposal-store.ts:208-241 | then following superseding rows goes strictly forward in creation order |
| Supersession.ChainEnds | packages/core/src/action-proposal-transitions.ts:354-398 | and ends in a row that is not superseded |
| Supersession.DirectSupersessionForward | packages/core/src/in-memory-action-proposal-store.ts:242-252 | a direct supersession keeps chains going forward if and only if it is not a proper command for a pending, unexpired row of its scope naming a row that may replace it and was created no later |
| Supersession.DirectsWhenApplied | packages/core/src/action-proposal-transitions.ts:354-398 | that command is the one that is applied |
| Supersession.DirectApplies | packages/core/src/action-proposal-transitions.ts:354-398 | it does apply to any pending row of the same slot, whatever their order |
| Supersession.DirectSupersessionCycle | packages/core/src/in-memory-action-proposal-store.ts:242-252 | from any run with two pending rows of one slot, two direct supersessions make them supersede each other |
| Supersession.TwoPendingInASlot | packages/core/src/in-memory-action-proposal-store.ts:47-60 | plain creates leave two pending rows in one slot, and a run from there ends with two rows that supersede each other |
| ToolCallRecords.StatusSays | packages/core/src/action-proposal-tool-call.ts:15-71 | a record in step reads proposed, executed, failed, rejected or expired exactly when the proposal is pending or running, succeeded, failed, rejected, or expired or superseded |
| ToolCallRecords.RecordSays | packages/core/src/action-proposal-tool-call.ts:15-71 | and its result, error, decider, channel and remembrance are exactly those of the proposal: a result only of success, and only one that can be stored |
| ToolCallRecords.StorableOutputSays | packages/core/src/action-proposal-tool-call.ts:91-105 | which JSON text holds an escaped NUL or half a surrogate pair, unit by unit |
| ToolCallRecords.NotStorable | packages/core/src/action-proposal-tool-call.ts:91-105 | a result is not stored only for one of those |
| ToolCallRecords.StorableTextDropsNul | packages/core/src/action-proposal-tool-call.ts:108-110 | an error is stored without its NULs and otherwise as it is |
| ToolCallRecords.PrescribedOnceConcluded | packages/core/src/action-proposal-tool-call.ts:15-71 | a row prescribes a status exactly once it is concluded |
| ToolCallRecords.PrescribedStays | packages/core/src/action-proposal-tool-call.ts:15-83 | and from then on the same |
| ToolCallRecords.RecordsFollowProposals | packages/core/src/in-memory-store.ts:894-977 | after every sequence of operations, a call recorded as proposed in time carries exactly what its proposal's row prescribes |
| ToolCallRecords.LateRecordStays | packages/core/src/action-proposal-tool-call.ts:74-83 | a record made after the conclusion is never updated |
| ToolCallRecords.RecordedInTimeOrNever | packages/core/src/in-memory-store.ts:894-977 | recording a call as proposed leaves it in step if and only if its proposal is not concluded |
| Paging.PageIsPage | packages/core/src/in-memory-action-proposal-store.ts:65-82 | a page is strictly increasing, matches its query, and leaves out only rows past its last one, and only when full |
| Paging.RunExtends | packages/core/src/in-memory-action-proposal-store.ts:83-102 | later operations keep every row, with its scope and its place in the order |
| Paging.WalkIncreases | packages/core/src/in-memory-action-proposal-store.ts:65-82 | pages read one after the other, with anything happening between them, are strictly increasing taken together |
| Paging.WalkShows | packages/core/src/in-memory-action-proposal-store.ts:65-82 | a walk to its end shows every row that was there at its start |
| Paging.WalkShowsEachOnce | packages/core/src/in-memory-action-proposal-store.ts:65-82 | no row is shown twice, and every row of the scope present at the start is shown exactly once |
| Discovery.ClaimNextClaimsOne | packages/core/src/in-memory-action-proposal-store.ts:138-158 | claiming the next proposal is one applied claim of what it returns, or changes nothing |
| Discovery.ClaimNextTakesOldest | packages/core/src/in-memory-action-proposal-store.ts:138-158 | while the clock stands still, with a command the claim accepts, it returns nothing exactly when nothing is claimable, and else the oldest claimable row |
| Discovery.ExpiresOldestDue | packages/core/src/in-memory-action-proposal-store.ts:159-176 | while the clock stands still, a batch expires exactly the oldest due rows up to its limit, touches no other, and counts them |
| Discovery.TryExpireIsRun | packages/core/src/in-memory-action-proposal-store.ts:159-176 | with any clock, a batch is a run of expiring decisions |
| Discovery.ClaimNextOutcomeHandsOut | packages/core/src/in-memory-action-proposal-store.ts:177-207 | what is handed out is deliverable, stored under the lease handed out, and nothing else changes |
| DiscoveryAnswers.ClaimNextAnswers | packages/core/src/in-memory-action-proposal-store.ts:138-158 | claiming the next proposal throws at once exactly on an improper clock, worker or lease; else, however the clock moves, it tries the 32 oldest free rows in turn and claims the first still free, changing nothing else |
| DiscoveryAnswers.OldestIsClaimed | packages/core/src/in-memory-action-proposal-store.ts:138-158 | while the clock stands still it succeeds exactly for a proper command, takes nothing exactly when no row is free, and else the oldest free row |
| DiscoveryAnswers.ClaimNextOutcomeAnswers | packages/core/src/in-memory-action-proposal-store.ts:177-207 | claiming the next outcome throws at once exactly on an improper command; else it hands out the first of the 32 oldest undelivered that still waits when tried |
| DiscoveryAnswers.ExpireAnswers | packages/core/src/in-memory-action-proposal-store.ts:159-176 | expiring throws exactly on an improper clock or a limit outside 1 to 1000; else exactly the oldest overdue rows up to the limit expire, in the system's name, and are counted |
| DiscoveryAnswers.ListAnswers | packages/core/src/in-memory-action-proposal-store.ts:65-82 | a listing throws exactly on a limit outside 1 to 1000 or an improper cursor, and shows the oldest matching rows past the cursor, 100 unless told |
| AgentStore.Store.CreateActionProposal | packages/core/src/in-memory-action-proposal-store.ts:47-60 | does to the maps what the specification's create does |
| AgentStore.Store.GetActionProposal | packages/core/src/in-memory-action-proposal-store.ts:61-64 | finds a row in its own scope only |
| AgentStore.Store.ListActionProposals | packages/core/src/in-memory-action-proposal-store.ts:65-82 | returns the page the specification describes, or its error |
| AgentStore.Store.MutateRow | packages/core/src/in-memory-action-proposal-store.ts:103-136 | deciding, claiming, extending and settling do to the maps what the specification does |
| AgentStore.Store.Transact | packages/core/src/in-memory-action-proposal-store.ts:83-102 | reads, transitions and stores one row, and lets its tool call follow |
| AgentStore.Store.ProposalChanged | packages/core/src/in-memory-store.ts:946-977 | updates the tied call, and no other |
| AgentStore.Store.SupersedeActionProposal | packages/core/src/in-memory-action-proposal-store.ts:242-252 | supersedes as the specification says |
| AgentStore.Store.Supersessions | packages/core/src/in-memory-action-proposal-store.ts:208-241 | computes every replacement before anything is stored, or finds that one of them throws |
| AgentStore.Store.CreateReplacingActionProposal | packages/core/src/in-memory-action-proposal-store.ts:208-241 | stores the new row and every replacement, or nothing at all |
| AgentStore.Store.ClaimNextActionProposal | packages/core/src/in-memory-action-proposal-store.ts:138-158 | the loop over 32 candidates claims as the specification says, whose answers `DiscoveryAnswers.ClaimNextAnswers` gives |
| AgentStore.Store.ExpireActionProposals | packages/core/src/in-memory-action-proposal-store.ts:159-176 | the loop over the due rows expires and counts as the specification says |
| AgentStore.Store.ClaimNextActionProposalOutcome | packages/core/src/in-memory-action-proposal-store.ts:177-207 | the loop over 32 candidates hands out as the specification says, whose answers `DiscoveryAnswers.ClaimNextOutcomeAnswers` gives |
| AgentStore.Store.AdmitActionProposalOutcome | packages/core/src/in-memory-store.ts:734-784 | finds the row by its outcome and admits it: missing, unchanged, discarded, conflict, busy or applied, with its whole new state |
| AgentStore.HolderIsProposal | packages/core/src/in-memory-store.ts:737 | whoever the search for an outcome's row finds is the proposal whose outcome it is |
| AgentStore.Store.ClaimActiveStream | packages/core/src/in-memory-store.ts:583-598 | takes a thread as the specification says: `StoreAnswers.StreamClaimAnswers` says which |
| AgentStore.Store.ReleaseActiveStream | packages/core/src/in-memory-store.ts:600-608 | frees a thread its run holds, and no other |
| AgentStore.Store.RecordToolCall | packages/core/src/in-memory-store.ts:894-912 | stores the record under its call id |
| AgentStore.Store.FailUnsettledToolCalls | packages/core/src/in-memory-store.ts:930-940 | fails exactly the run's calls that wait for an approval, and counts them |
| ChannelStore.Store.Claim | packages/core/src/channel-store.ts:32-36 | takes a key exactly if it is not live, and then it is live until its time is up; no other key changes, now or later |
| ChannelStore.Store.Get | packages/core/src/channel-store.ts:38-40 | answers the live value, and changes nothing live |
| ChannelStore.Store.Set | packages/core/src/channel-store.ts:42-44 | a key is live with its value until its time is up, whatever it was before |
| ChannelStore.Store.Delete | packages/core/src/channel-store.ts:46-48 | a deleted key is not live, and no other changes |
| ChannelStore.Store.PurgeExpired | packages/core/src/channel-store.ts:50-59 | drops exactly what ran out, counts it, and changes nothing live |
| Outbox.Sender.Send | packages/channels/src/handler.ts:819-844 | takes the next slot; a message whose slot is taken is skipped, a failed one gives its slot back |
| Outbox.Sender.SendAll | packages/channels/src/handler.ts:807-844 | a phase sending its list leaves the slots and the log of a pass over it |
| Outbox.PassInOrder | packages/channels/src/handler.ts:807-844 | whatever fails or dies, what is delivered stays an in-order part of the list, none of it twice |
| Outbox.PassExactly | packages/channels/src/handler.ts:807-844 | when sends only succeed or fail cleanly, what is delivered is a prefix of the list, each once, and the whole of it once a pass completes |
| ReadTurn.Read | packages/channels/src/handler.ts:1480-1706 | the frame-reading loop over its buffers sends exactly the messages of the specification, parks exactly when that does, and reports a failed or blocked turn as one |
| ReadTurn.TextTurnSendsItsText | packages/channels/src/handler.ts:1508-1519 | a turn of text frames sends their text joined and trimmed, or nothing if it is blank |
| ReadTurn.FailureHidesComponents | packages/channels/src/handler.ts:1682-1688 | a turn that failed sends none of the components drawn before, keeps its text and its cards, and says that it failed |
| ReadTurn.DrawnAgainReplaces | packages/channels/src/handler.ts:1573-1577 | a component rendered again replaces itself in its first place, and no other |
| TurnMessages.ReadEnds | packages/channels/src/handler.ts:1697-1703 | a read that does not park sends what still waits, then says once that the turn failed and once that it is blocked, if so, and ends with one card for each distinct proposal announced, in first-announced order and as announced last, however the turn went |
| TurnMessages.ParksAtQuestion | packages/channels/src/handler.ts:1631-1681 | a read parks exactly if it gets to an unanswered question before any blocking approval |
| TurnMessages.QuestionFollowsWhatWasRead | packages/channels/src/handler.ts:1631-1681 | all text and components read before a question are sent before it, the rest of the turn after it, and nothing after an unanswered one |
| TurnMessages.FlushSends | packages/channels/src/handler.ts:1505-1526 | what a flush sends: every rendered component's replies in order, then the text with what was drawn in it, then, for a turn of components alone, what accompanies them |
| TurnMessages.TextIsOnePiece | packages/channels/src/handler.ts:1508-1516 | text with no component drawn within it goes out as one piece, trimmed, and not at all if blank |
| TurnMessages.DrawnGoesBetween | packages/channels/src/handler.ts:1510-1521 | a component drawn goes out, as last drawn, between what was said before and after it |
| TurnMessages.ComponentTaken | packages/channels/src/handler.ts:1552-1610 | a component that renders is kept; one that does not is dropped, and drawn in place or stood in for by its text, once |
| TurnMessages.DropRenderedSays | packages/channels/src/handler.ts:1580 | a component that no longer renders is taken out, and the others keep their order |
| ReadTurn.ReadAgainExtends | packages/channels/src/handler.ts:1638-1676 | reading the stream again once more questions are settled extends a read that parked and repeats one that did not |
| ReadTurn.DeliveredInOrder | packages/channels/src/handler.ts:1475-1706 | over all reads of a run, with crashes anywhere, the conversation received an in-order part of the last read's list, none twice |
| ReadTurn.DeliveredExactly | packages/channels/src/handler.ts:1475-1706 | when sends only succeed or fail cleanly and the last read completes, it received exactly that list, in order, each once |
| TurnStart.AtMostOneTurn | packages/channels/src/handler.ts:1752-1869 | over any interleaving of redeliveries, retries and crashes, at most one turn starts, and every run that reports a turn reports that one |
| TurnStart.StartedForGood | packages/channels/src/handler.ts:1752-1869 | once a turn started, nothing later starts another |
| TurnStart.LaterRunReturnsOrIsRefused | packages/channels/src/handler.ts:1757-1869 | a run of the phase begun after a turn started, once it has ended, was refused, died, returned that turn, or returned the result of another branch |
| TurnStart.LaterRunDiverts | packages/channels/src/handler.ts:1764-1828 | it ends with another result than the turn if and only if it took another branch itself or found one recorded when it looked |
| TurnStart.LaterRunReturnsTheTurn | packages/channels/src/handler.ts:1757-1869 | where no other branch is taken or recorded, it was refused, died, or returns exactly the turn that started |
| TurnStart.LaterRunMayDivert | packages/channels/src/handler.ts:1764-1828 | a run that starts the turn and dies unrecorded is followed by one that ends with another branch's result |
| TurnStart.TurnCanStillStart | packages/channels/src/handler.ts:1821-1869 | a message without its turn can still get one if and only if its key is free or held by a run under way; so a thrown start that gives the key back may be retried |
| TurnStart.UnreleasedStartIsLost | packages/channels/src/handler.ts:1865-1869 | a thrown start whose key could not be deleted leaves the message without a turn, whatever follows |
| TurnStart.DecisionStartsNothing | packages/channels/src/handler.ts:1871-1884 | a message that `send` answered with a decision never gets a turn |
| TurnStart.StepSays | packages/channels/src/handler.ts:1752-1884 | which steps move a run from where to where, and what they do to the key and to the turns started; any other changes nothing |
| QuestionSettlement.OneOwner | packages/channels/src/handler.ts:793-804 | over any interleaving of answers, timeouts and skips, at most one owner ever settles a question |
| QuestionSettlement.OwnedForGood | packages/channels/src/handler.ts:793-804 | a named owner stays |
| QuestionSettlement.OrphanedForGood | packages/channels/src/handler.ts:797-804 | once the claimer died before naming the owner, whoever asks loses, for good |
| QuestionSettlement.OrphanedIsReached | packages/channels/src/handler.ts:797-804 | there is a run that comes to that |
| QuestionSettlement.CanBeSettled | packages/channels/src/handler.ts:793-804 | a question has an owner or can still get one if and only if it has not come to that |
| QuestionSettlement.StepSays | packages/channels/src/handler.ts:793-804 | the key is claimed only while free and named only by its claimer, and a run that found it taken wins exactly if it names its own owner |
| QuestionSettlement.SettleQuestion | packages/channels/src/handler.ts:797-804 | on the channel store: wins exactly if the key was free or holds this owner, names the owner, touches no other key, and within the key's time to live does what the steps do |
| Executor.WithRetries | packages/channels/src/executor.ts:252-269 | stops at the first success, the first refusal retrying cannot change, or the last attempt, and not before; waits between half of each delay and the whole of it |
| Executor.DelaysGrow | packages/channels/src/executor.ts:252-269 | delays do not shrink, and stay within the longest |
| Executor.DelaysDouble | packages/channels/src/executor.ts:252-267 | the first delay is the base and each next one twice the last, up to the longest; a second and half a minute unless told |
| Executor.AttemptsAre | packages/channels/src/executor.ts:256 | three attempts unless told, and never less than one |
| Executor.OneAtATimeInOrder | packages/channels/src/executor.ts:72-98 | with chains forgotten as they settle, a conversation's jobs run one at a time, and none begins before every earlier one settled |
| Executor.SomethingCanHappen | packages/channels/src/executor.ts:72-98 | while any job is not settled, the earliest such job can begin or end: nothing waits for ever |
| Journal.ReplayAsksWhatIsRecorded | packages/core/src/agent-loop.ts:3360-4442 | however many processes ran before, with whatever wiring and registries and wherever each ended, the next asks for every recorded position in order under its recorded name, and takes the branch recorded for every call |
| Journal.FinishedRunReplaysExactly | packages/core/src/agent-loop.ts:3360-4442 | a finished run replays to the same checkpoints, answers, branches and result |
| Journal.RunSame | packages/core/src/agent-loop.ts:3500-3643 | a process given an earlier one's journal goes the same way as far as that one got |
| Journal.JournalWellKept | packages/core/src/agent-loop.ts:536-542 | whatever processes ran, the journal holds what the last one was answered, position by position, and every claim in it says its kind |
| Journal.StagesSame | packages/core/src/agent-loop.ts:1885-1908 | the recorded stages, not the wiring here, say which prompt stages take a position |
| Journal.ClaimSame | packages/core/src/agent-loop.ts:2148-2381 | the recorded claim, not the registry here, says a call's kind |
| Journal.CallSame | packages/core/src/agent-loop.ts:2966-3088 | so a claimed call takes the same branch and the same positions in every process |
| Journal.ClaimPositions | packages/core/src/agent-loop.ts:4209-4221 | a turn's claims take one block of positions, in call order |
| Journal.BatchInvocations | packages/core/src/agent-loop.ts:3210-3220 | a batch's invocations take one block of positions, in call order, even where the process dies in some of them |
| Journal.UnwoundBatchPersistsNothing | packages/core/src/agent-loop.ts:3203-3220 | if any invocation unwinds, the batch takes no persist position |
| Journal.BatchPersists | packages/core/src/agent-loop.ts:3221-3229 | once all came back, the batch takes one persist position per call, in call order and right after the block; what each records is in `CallOutcomes.BatchGoes` |
| Journal.TakeSteps | packages/core/src/agent-loop.ts:3684-4355 | the loop over the turn's steps is the specification's recursion |
| Journal.ClaimCalls | packages/core/src/agent-loop.ts:4215-4221 | the loop claiming a turn's calls is the specification's recursion |
| CallOutcomes.CallGoes | packages/core/src/agent-loop.ts:2966-3130 | a call goes on exactly if every checkpoint it asks for is answered; then, from its claim and those answers: a proposal asks nothing, a refused agent neither starts nor is waited for, an unreadable question fails and a skipped one is rejected, a preflight completes, rejects or fails it, and a tool is reached at once or past an approval alone |
| CallOutcomes.ToolIsRecordedAsItEnded | packages/core/src/agent-loop.ts:2735-2850 | a tool that was reached is recorded next and last: executed, rejected or failed exactly as it came back executed, denied, or anything else |
| CallOutcomes.ClaimGoes | packages/core/src/agent-loop.ts:2148-2381 | a claim made by a process says the kind the process knows and what its policies answered |
| CallOutcomes.SequentiallyGoes | packages/core/src/agent-loop.ts:4237-4240 | calls taken one by one are each claimed and settled before the next, all of them, and the turn ends exactly if one of them ends it |
| CallOutcomes.BatchGoes | packages/core/src/agent-loop.ts:3203-3229 | a batch that goes on invoked every tool before recording any, recorded each call exactly as its own tool came back, and ends the turn exactly if a terminal tool in it succeeded |
| CallOutcomes.BatchedGoes | packages/core/src/agent-loop.ts:4215-4236 | calls claimed first are all claimed in call order, and then run together exactly if none of them is an action, an agent or a question |
| CallOutcomes.ToolsGo | packages/core/src/agent-loop.ts:4209-4241 | only a run that allows it, with more than one call, claims them first, past the mark that says so |
| RunOutline.OpeningGoes | packages/core/src/agent-loop.ts:3365-3643 | up to the first model call a run asks exactly for what its input and the recorded stages call for, marks where the runner says so |
| RunOutline.StepGoes | packages/core/src/agent-loop.ts:3684-4355 | every step asks for its start, the model, its usage, its message, what was retrieved for it, its calls and its end, and another step follows exactly if it was written, asked for calls, and none ended the turn |
| RunOutline.LoopGoes | packages/core/src/agent-loop.ts:3684-4355 | steps follow one another for as long as one asks for the next, up to the limit |
| RunOutline.RunGoes | packages/core/src/agent-loop.ts:3360-4442 | a run is over exactly if everything it asked for was answered and no cancel check said otherwise; then it opened, took its steps, wrote a title exactly for an untitled thread, delivered if it does, and ended |
| RunOutline.RunAnswered | packages/core/src/agent-loop.ts:536-542 | at every position a run is answered what the journal holds there, nothing where the process ends, and else what the world answers or the process itself computes |
| RunOutline.KindSays | packages/core/src/agent-loop.ts:1572-1596 | a call keeps the kind it came with; else it has a built-in tool's where that is wired, else the declared one, else it reads |
| CallSafety.CallIsSettledLast | packages/core/src/agent-loop.ts:2966-3088 | whichever branch a call takes, recording how it ended is the last checkpoint asked for it; which of the three it records is in `CallOutcomes.CallGoes` |
| CallSafety.NotExecutedUnapproved | packages/core/src/agent-loop.ts:3020-3088 | a call that waits for a person reaches its tool only after an approval, which is the first thing asked for |
| Approvals.RunGuarded | packages/core/src/agent-loop.ts:3360-4442 | in every run, on whatever journal, every tool asked for comes after a claim of its call, and after an approval since if that claim says the call waits for a person |
| Approvals.NeverUnapproved | packages/core/src/agent-loop.ts:2966-3088 | so where a call was claimed once, as one that waits for a person, an approval lies between that claim and its tool |
| Approvals.JournalNeverUnapproved | packages/core/src/agent-loop.ts:3360-4442 | and over runs one after the other, every execution the journal holds has its claim, and its approval where one is needed, before it in the journal |
| ParallelTasks.SettleAll | packages/core/src/agent-loop.ts:466-476 | whatever order the tasks complete in, the results come in call order and the journal gains the same entries |
| ParallelTasks.FirstUnwound | packages/core/src/agent-loop.ts:3214-3219 | what is rethrown is the first failure in call order, if there is any |
| Batches.SettleInvocations | packages/core/src/agent-loop.ts:466-476 | over the journal: whatever order a batch's invocations settle in, the results and what the journal gains are those of the positions in call order |
| Batches.InvokeTogether | packages/core/src/agent-loop.ts:3210-3229 | so a batch goes on, or unwinds, the same way and leaves the same journal for every completion order, even where the process dies in some invocations |
| Delegation.AppearsAtMost | packages/core/src/agent-loop.ts:798-825 | on any chain let through, no agent appears more often than allowed |
| Delegation.Pigeonhole | packages/core/src/agent-loop.ts:765-790 | a chain over N names, each at most k times, is at most k times N long |
| Delegation.ChainIsBounded | packages/core/src/agent-loop.ts:765-825 | so no chain let through is longer than that |
| Delegation.DepthIsBounded | packages/core/src/agent-loop.ts:820-823 | nor does one nest deeper than the depth limit |
| Delegation.RefusedExactly | packages/core/src/agent-loop.ts:798-825 | a hop is let through if and only if its target is on the chain less often than allowed and the run is less deep than allowed, once and five unless told; a cycle is named first, with its chain |
| Delegation.SelfHandoffRefused | packages/core/src/agent-loop.ts:804-818 | at one appearance an agent handing to itself is refused as a cycle |
| Delegation.HandingBackRefused | packages/core/src/agent-loop.ts:804-818 | so is handing to anyone on the chain already |
| Delegation.MutualHandoffRefused | packages/core/src/agent-loop.ts:804-818 | a mutual handoff is refused at the hop that closes it |
| JsonText.PrintUnambiguous | packages/core/src/confirm-token.ts:24-36 | two printed values followed by anything that may follow a value split in one place only |
| JsonText.PrintInjective | packages/core/src/confirm-token.ts:24-36 | different values print differently |
| JsonReading.PrintReads | packages/core/src/confirm-token.ts:24-36 | printed text is JSON text of the value it was printed from, by the grammar of RFC 8259, sections 3 to 7, without white space |
| JsonReading.BodyReads | packages/core/src/confirm-token.ts:24-36 | every string, paired surrogates or not, decodes from its printed form to itself |
| JsonReading.EscapeSays | packages/core/src/confirm-token.ts:24-36 | exactly quotes, backslashes, controls and unpaired surrogates are escaped, and how |
| CanonicalJson.CanonicalPrintsNormal | packages/core/src/confirm-token.ts:24-36 | canonical JSON is the printed form of a normal value |
| CanonicalJson.SameIffNormal | packages/core/src/confirm-token.ts:24-36 | two values have one normal form exactly when they are equal up to key order, dropped undefined properties and undefined read as null |
| CanonicalJson.CanonicalUnambiguous | packages/core/src/confirm-token.ts:24-36 | and print to the same text exactly then |
| JsonReading.NormalHolds | packages/core/src/confirm-token.ts:24-36 | the normal form holds what the value does: properties in key order, without the undefined ones, and null for what has no form |
| JsonReading.CanonicalReads | packages/core/src/confirm-token.ts:24-36 | so canonical text is JSON text of what the value holds |
| ConfirmToken.SignedTextBinds | packages/core/src/confirm-token.ts:38-54 | equal signed texts mean equal tool, actor, tenant (absent and empty alike), expiry and arguments, and the other way round |
| ConfirmToken.SignedTextSays | packages/core/src/confirm-token.ts:38-54 | what is signed, character by character: purpose, tool, actor, tenant, expiry and the arguments' canonical text |
| ConfirmToken.SignSays | packages/core/src/confirm-token.ts:61-67 | a token is its expiry, a dot and the keyed hash; without a secret there is none |
| ConfirmToken.VerifiesIff | packages/core/src/confirm-token.ts:69-88 | any text verifies if and only if it is an unexpired expiry, a dot and the hash that goes with it, under a secret |
| ConfirmToken.VerifiesExactly | packages/core/src/confirm-token.ts:61-88 | an issued token verifies exactly under its secret, for its subject, until it runs out |
| ConfirmedTool.CommittedAtMostOnce | packages/core/src/confirmed-tool.ts:290-345 | with a store configured, however confirmations interleave, prepare, throw and die, a token text leads to at most one successful commit, as long as no confirmation that verified it claims it after it ran out |
| ConfirmedTool.CommittedTwice | packages/core/src/confirmed-tool.ts:299-344 | without that there is a run that commits one token twice: a confirmation verifies in time, prepares, and claims just after the token ran out and its mark was forgotten |
| ConfirmedTool.CanStillCommit | packages/core/src/confirmed-tool.ts:299-344 | with a store configured, at any point, committed or not, another commit of a token can still follow if and only if some confirmation holds it verified or is committing it, or it has not run out |
| ConfirmedTool.CanStillCommitInTime | packages/core/src/confirmed-tool.ts:321-344 | where every claim comes in time, if and only if someone is committing it, or it is unmarked and has not run out: a commit that throws gives it back, a confirmation that dies does not |
| ConfirmedTool.ClaimSays | packages/core/src/confirmed-tool.ts:321-332 | a claim forgets the marks that ran out and takes exactly a token none is left of |
| ConfirmedTool.StepSays | packages/core/src/confirmed-tool.ts:299-344 | what every other step needs and does: a commit counts once, and one that throws gives its token back unless that fails |
| ConfirmedTool.Confirm | packages/core/src/confirmed-tool.ts:321-344 | claims, commits and releases on the store exactly as the steps do, and is refused exactly when the token is marked still |
| ConfirmToken.Store.Claim | packages/core/src/confirm-token.ts:104-109 | forgets what ran out, and marks a hash exactly if it is not marked still |
| ConfirmToken.Store.Release | packages/core/src/confirm-token.ts:111-113 | forgets one hash, and no other |
| ConfirmToken.Store.PurgeExpired | packages/core/src/confirm-token.ts:115-124 | drops exactly the marks that ran out, and counts them |
| Memory.ResolveMemoryDigest | packages/core/src/memory.ts:305-393 | the loops over records and keys compute the specification's digest |
| Memory.DigestIgnoresOrder | packages/core/src/memory.ts:305-393 | unranked, the digest depends neither on the order of the records nor on records out of scope |
| Memory.OutOfScopeIgnored | packages/core/src/memory.ts:311-319 | ranked or not, records out of scope change nothing |
| Memory.EntryAnswers | packages/core/src/memory.ts:327-349 | a key is won by its most specific scope, with every value it beat beside it in scope order, pinned if any record of the key is |
| Memory.ShownEntriesAnswer | packages/core/src/memory.ts:305-393 | that holds of every entry shown |
| Memory.ShownIsGiven | packages/core/src/memory.ts:311-349 | every entry shown is a given record of a scope that was asked for |
| Memory.KeysInScope | packages/core/src/memory.ts:311-326 | the keys answered are exactly those with a record in scope |
| Memory.ShownAndOmitted | packages/core/src/memory.ts:370-393 | as many entries are shown as the ceiling allows, no more and no fewer, and the others counted as left out; the two add up to the distinct keys in scope if and only if the ceiling is not negative |
| Memory.PinnedShownFirst | packages/core/src/memory.ts:366-384 | no unpinned entry is shown while a pinned one is left out |
| Memory.PinnedOmittedIs | packages/core/src/memory.ts:380-392 | the pinned entries left out are counted exactly |
| Memory.OmittedComeAfter | packages/core/src/memory.ts:362-378 | what is left out comes after all that is shown: pinned first, then by relevance where ranked, else by scope, recency and key |
| Memory.ShownInOrder | packages/core/src/memory.ts:383-388 | the block reads pinned entries first, then by scope, then by key |
| Split.SplitMessage | packages/channels/src/split.ts:7-28 | the loop shrinking the rest computes the specification's pieces |
| Split.SplitIsFaithful | packages/channels/src/split.ts:7-28 | for every text and positive limit, pieces are non-empty, trimmed and within it, rebuild the trimmed text with blank gaps between them, and are at most 1 + length / (limit / 3 + 1) |
| Split.SplitAnswers | packages/channels/src/split.ts:7-13 | it throws exactly without a positive limit, and a text that fits is one piece, whole |
| Split.SplitGoesOn | packages/channels/src/split.ts:11-27 | a longer one is its trimmed start up to the cut, and then whatever the trimmed rest splits into |
| Split.CutsWhereAReaderWould | packages/channels/src/split.ts:14-43 | a cut is the window's last paragraph break past its first third, else its last line break there, else its last sentence end, else its last space, else the limit |
| Split.ParagraphsFound | packages/channels/src/split.ts:18 | the paragraph breaks it chooses among are breaks, and every break lies in white space one of them starts |
| Split.CutsAtSpace | packages/channels/src/split.ts:14-22 | a cut is at white space if and only if there is any past the first third |
| History.FindTokenCut | packages/core/src/history.ts:73-93 | the loop walking back computes the specification's cut |
| History.KeepsLongestThatFits | packages/core/src/history.ts:48-93 | the window keeps the longest suffix within both limits, or the newest message alone when none is |
| History.BoundedReadIsSuffix | packages/core/src/agent-loop.ts:1179-1300 | reading only the newest maxMessages rows yields a suffix of what the whole transcript yields, and the same when none of them is a blank assistant message |
| History.BoundedReadIsWhole | packages/core/src/agent-loop.ts:1179-1300 | it yields the same if and only if none of those rows is a blank assistant message, or every older row is, or the token limit leaves no room for an older one |
| History.DanglingToolCallIds | packages/core/src/dangling-tool-calls.ts:30-45 | the nested loops collect exactly the specification's unanswered calls |
| History.NothingDangles | packages/core/src/dangling-tool-calls.ts:30-45 | there are none exactly when every message is answered |
| PromptContents.DanglingAreOpen | packages/core/src/dangling-tool-calls.ts:30-45 | what dangles is exactly every assistant call without a result in its own message, in order |
| PromptContents.ResultSays | packages/core/src/dangling-tool-calls.ts:47-87 | what a call nobody answered is told to have come to, for each thing a store may know of it |
| PromptContents.SettlingAdds | packages/core/src/dangling-tool-calls.ts:89-110 | settling adds, behind an assistant's own results, exactly one for each call without, in call order |
| History.SettledAnswers | packages/core/src/dangling-tool-calls.ts:89-110 | settling answers every call, keeps earlier results first and in order, and changes nothing else |
| History.SettleTwice | packages/core/src/dangling-tool-calls.ts:89-110 | settling again, knowing anything else, changes nothing |
| History.MapMessages | packages/ai-sdk/src/ai-sdk-model.ts:373-432 | the mapping loop computes the specification's list, which `PromptContents.PromptKeepsPieces` says holds what the messages do |
| PromptContents.PromptKeepsPieces | packages/ai-sdk/src/ai-sdk-model.ts:373-432 | nothing is lost, added or moved: taken in order, the prompt's system and user contents, its assistant texts, calls and results are exactly the messages', assistant text left out exactly when blank |
| PromptContents.ExpandSays | packages/ai-sdk/src/ai-sdk-model.ts:380-428 | how one message is put together: its text and calls in one entry, its results in the next |
| PromptContents.LeavesOutBlank | packages/core/src/agent-loop.ts:1179-1230 | only assistant messages that say, call and answer nothing are left out of a loaded history |
| PromptContents.PromptHolds | packages/core/src/agent-loop.ts:1179-1300 | the prompt holds the newest messages the window keeps, each whole, and beside them only what settling adds |
| History.ResumingIsHarmless | packages/core/src/agent-loop.ts:1179-1230 | settling a loaded history again when a turn resumes changes nothing |
| History.PromptWellFormed | packages/ai-sdk/src/ai-sdk-model.ts:373-432 | for every transcript and all known outcomes, each assistant message with calls is followed at once by a tool message answering every call, and no assistant text is blank |

## Left out

- AgentStore.Store.Transact: generations are unbounded integers, where the original's are exact only up to 2^53 claims of one row.
- ToolCallRecords.RecordsFollowProposals: a result is its JSON text; printing it, which can itself throw, is not modelled.
- ActionProposals: rows are immutable values, so deep copies and the key order of `canonicalActionProposalJson` are identities; a creation's free-form fields are their canonical text, and its JSON checks are not modelled.
- ProposalWorkers.FleetAttributed: timers, `maxConcurrency`, the 32 deliveries of a tick and `stop` are any interleaving of attempts, which allows more than a worker does.
- CanonicalJson.CanonicalUnambiguous: numbers are integers; fractions, exponents and BigInt are not modelled.
- ConfirmToken.VerifiesExactly: HMAC-SHA256 and SHA-256 are injective functions, and how the platform reads a number from text is a parameter that reads back what it writes.
- ConfirmedTool.CommittedAtMostOnce: keyed on the exact token text; the clock does not go back, and what a run without a store may commit is not modelled.
- ReadTurn.DeliveredExactly: the turn timeout, slots whose time to live ran out, and the host's answers changing between two reads are not modelled; a failed send is taken not to have delivered.
- ReadTurn.Read: the buffer is a list of text and component parts, so a component id containing the mark that separates them is not modelled; a card's text does not depend on the clock.
- TurnStart.AtMostOneTurn: keys are within their time to live, and a `send` that throws started nothing.
- QuestionSettlement.OneOwner: the key is within its time to live; the questions after the first of one request, and how an answer is read, are not modelled.
- ChannelStore.Store.Set: the store is below its ceiling, so no entry is evicted to make room.
- ChannelStore.Store.Claim: likewise, claiming evicts nothing.
- Executor.OneAtATimeInOrder: the in-process executor only; the durable executor relies on its engine, which is not part of this model.
- Journal.ReplayAsksWhatIsRecorded: quota, pricing, intake, processors, follow-ups, structured output and history summaries are absent, `patched` answers true (whether it takes a position is any rule on what was asked before), and tool timeouts and live abort signals are not modelled; the journal is given by what a checkpoint means, the durable runtime itself is not part of this model.
- Memory.DigestIgnoresOrder: records are taken to be one per key and scope, as the provider promises.
- Memory.ShownAndOmitted: how memories are offered, written, searched and worded is not modelled.
- History.PromptWellFormed: attachments, the summary of what a window drops and the wording of results are not modelled.
- Delegation.ChainIsBounded: persona refusals, which only refuse more, are not modelled.
- HTTP, webhook signatures, provider adapters, streams as bytes, NestJS wiring, dashboards, code generation and telemetry are not modelled.
- Message queues, thread settings, usage rows, feedback, media and generative UI of the in-memory store are not modelled.
- Markdown, inline tokens, button ids, command parsing and all wording are parameters of the channel.
