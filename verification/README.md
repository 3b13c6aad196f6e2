# Evie agent harness: a verified model

Evie's agent drives one model-and-tools turn at a time over an append-only
event log. This project models the parts of that harness whose correctness
rests on several functions agreeing with one another, and proves that they do.
The Dafny files follow the Go packages they model; each file's header names
its sources.

- **Turn coordination.** `Coordinator` is the object that arbitrates between
  the turn goroutine, the heartbeat and provider callbacks; its methods are the
  atomic steps. `CoordinatorRuns` interleaves those steps over any number of
  goroutines and proves the protocol's safety and that a reserved cause never
  gets stuck. `ProviderCallbacks` does the same for one provider call's
  callbacks, and models the retry loop around it.
- **The event log.** `Events` and `History` model stored events and the pairing
  of tool calls with results. `TurnCompaction`, `TurnCompactionPlans` and
  `TurnViews` are in-turn compaction: validator, planner and view.
  `CompactionChain` and `CompactionPlans` are the same for whole-turn
  compaction. `ContextLog` is the validator that every load runs.
- **The turn loop.** `TurnLoop` is one turn as a machine over its log, in which
  the provider, the tools, the compactor and the estimators may do anything;
  `Projections` is what a request selects of that log; `LogAppends` and
  `TurnRuns` prove that every run leaves a log that the validator accepts, and
  that every run ends; `Sessions` chains turns and compactions by hand.
  `AutomaticCompaction` decides when a request is compacted.
- **Bounding tool results.** `Allocation` is the water-filling allocator,
  `Frames`, `Excerpts` and `ToolResultExcerpts` the frame-aware excerpt, and
  `ToolResultLimits` their use on a history's tool groups.
- **Budgets.** `Pressure` shortens older results, `Composer` chooses the turns a
  request starts from, `TokenRatio` calibrates bytes per token,
  `EvidenceBuffer`, `EvidenceSupport` and `RetrievalBudget` hold, prune and
  charge delivered memory, `EventDecodes` and `TurnCaches` hold the per-turn
  caches, and `CompactionCarry` carries a prior summary's sections forward.

## How the model is stated

Loops over mutable state are methods with loop invariants, proved against a
specification function or predicate; what the harness promises is then proved
about that specification. Where a function specifies a method, lemmas whose
names end in `Exactly` or `IsGreatest` say independently of it what it yields,
in terms of the stored data alone. Objects whose methods update fields are classes.
Preconditions are what the callers in the repository establish; malformed
input is modelled as an error result, and where an operation can fail the
contract says exactly when.

JSON, SHA-256, request encodings and clocks are functions passed as
parameters, so every theorem holds for all of them. A stored payload is modelled by
what decoding it yields, with `Malformed` for bytes that do not decode. Byte
lengths are unbounded integers; the source's own guards against 64-bit
overflow in the ratio arithmetic are kept.

Concurrency is a machine of atomic steps. A lock is part of the state, a read
lock excludes the write lock, a waiting writer blocks new readers as Go's
`RWMutex` does, and a step is enabled only when the lock it needs is free.

## Results that need a word

- *The retry after a context-length rejection is not smaller for every
  profile.* `TokenRatio.RetryShrinksExactly` and
  `Composer.RetriedRequestShrinks` give the exact condition, which can be
  checked before composing: the window's input tokens number fewer than 1000
  per rejected byte. It holds whenever 1000 times the rejected bytes cover the
  hard window less the output reserve (`TokenRatio.RetryShrinks`).
  `TokenRatio.RetryMayNotShrink` is an input at which it fails: a 200000-token
  window with a reserve and a margin of 1000, and a rejected request of 100
  bytes. A provider has no true reason to reject a request that small for its
  length, since a request that exceeds the window has more tokens than that;
  `TokenRatio.TrueRejectionShrinks` proves the retry smaller whenever the
  rejection is true of a request whose tokens take a byte each or more.
- *Pruning graph paths is one pass.* The source says that trimming never
  fabricates support for an orphaned graph path. `EvidenceSupport.OnePassOrphansPath` is an
  input at which it shows one, and `EvidenceSupport.PathsShownExactly` the exact
  condition on the evidence; conflicts and relations are always supported
  (`EvidenceSupport.NoFabricatedSupport`).
- *Excerpts re-parse cleanly when the content's delimiter-like lines all pair.*
  `Frames.WellFramedPairsAll` shows that this is exactly when the scan leaves no
  such line unpaired.
- *Progress of the coordinator* is stated as existence of a finishing step in
  every reachable state with a reserved cause, and as a measure that such steps
  lower. It rests on lifecycle callbacks of a tool phase only reporting an
  interruption; `CoordinatorRuns.SelectingInToolPhaseBlocks` shows that
  otherwise the turn would wait for ever.
- *The turn loop's actions carry outcomes, not computations.* A snapshot action
  names any start and carries any projection of what the composer selects from
  there: the concatenated views of the turns, or a wrap-up's retained range.
  That the selected results are durable and in order is proved of those two
  selections (`Projections.ConsideredResults`), not assumed of the action.

## Model

| member | source | states |
|---|---|---|
| `Coordinator.TurnCoordinator.SetStage` | internal/agent/ownership.go:142-150 | The stage changes exactly when no cause is reserved or final, and nothing else does. |
| `Coordinator.TurnCoordinator.Reserve` | internal/agent/ownership.go:180-191 | The first failure reserves its own kind for its own caller; a reservation or a final cause refuses every later one and stays as it is. |
| `Coordinator.TurnCoordinator.Finalise` | internal/agent/ownership.go:202-212 | A reservation becomes the final cause, in the stage reached by then, only if it is still the caller's own and no success displaced it. |
| `Coordinator.TurnCoordinator.FinishSuccessBoundary` | internal/agent/ownership.go:240-246 | Success becomes final and displaces a reserved failure. |
| `Coordinator.TurnCoordinator.BeginToolPhase` | internal/agent/ownership.go:248-256 | A tool phase opens only while the turn is active. |
| `Coordinator.TurnCoordinator.CompleteToolPhase` | internal/agent/ownership.go:261-271 | The phase ends, and the stage moves to tool commit unless a cause is final. |
| `Coordinator.TurnCoordinator.Result` | internal/agent/ownership.go:296-307 | A reserved cause is reported as well as a final one. |
| `CoordinatorRuns.StepInv` | internal/agent/ownership.go:118-320 | Every atomic step of the turn goroutine, the heartbeat and the callbacks keeps the protocol's invariant: who holds which lock, who owns the reservation, which boundary is open. |
| `CoordinatorRuns.AtMostOneCause` | internal/agent/ownership.go:180-271 | In every interleaving at most one cause is assigned, in the stage the turn had reached; only its owner is told it selected it; and once a failure is final no commit boundary, admitted callback or tool phase is open. |
| `CoordinatorRuns.CauseIsFinal` | internal/agent/ownership.go:142-246 | Whatever runs on, a final cause is never overwritten and the stage stands still with it. |
| `CoordinatorRuns.CauseAssigned` | internal/agent/ownership.go:180-246 | The only step that displaces a reservation is a success from its own open commit boundary; a failure becomes final only with its context cancelled, no tool phase and no reader inside a boundary. |
| `CoordinatorRuns.HelpfulStep` | internal/agent/ownership.go:180-294 | In every reachable state with a reserved cause some goroutine can take a step that finishes what it began, and each such step lowers a lexicographic measure. |
| `CoordinatorRuns.ReservationResolves` | internal/agent/ownership.go:180-294 | So no state with a reserved cause is stuck: such steps alone reach a final cause. |
| `CoordinatorRuns.SelectingInToolPhaseBlocks` | internal/agent/turn.go:594-700 | Why lifecycle callbacks of a tool phase only report: a turn goroutine that selects a cause while it runs a tool phase waits for ever. |
| `CoordinatorRuns.CauseWasSelected` | internal/agent/ownership.go:180-212 | In every run a failure reserved or final at the end is exactly one that some goroutine passed in a step taken while no cause was reserved or final, and that goroutine owns it. |
| `ProviderCallbacks.StepInv` | internal/agent/turn.go:36-67 | Every step of the callback lifetime keeps its count of active callbacks, the admission mutex and the closing state in agreement. |
| `ProviderCallbacks.OneAtATime` | internal/agent/turn.go:43-60 | Callbacks run one at a time and in the order they were admitted. |
| `ProviderCallbacks.NoneAfterReturn` | internal/agent/turn.go:62-67 | When closeAndWait has returned, every admitted callback has finished and none starts afterwards, in any continuation. |
| `ProviderCallbacks.FlagIsFinal` | internal/agent/turn.go:790-839 | Read after the callbacks are joined, callbackFired is set exactly when some admitted callback carried output. |
| `ProviderCallbacks.JoinedStays` | internal/agent/turn.go:43-67 | Whatever goroutines of a joined attempt still call, what it admitted, emitted and reported stays as it is. |
| `ProviderCallbacks.OnlyTheLastSpeaks` | internal/agent/turn.go:753-839 | Over any interleaving of the attempts of one call, late callbacks of earlier attempts included, every admitted callback with output and all emitted output belong to the last attempt. |
| `ProviderCallbacks.CallProvider` | internal/agent/turn.go:753-785 | Attempts repeat only while no admitted callback has carried output; the outcome is a response, a context rejection or a failure exactly as the last attempt ended, after exactly the retries' waits. |
| `ProviderCallbacks.WaitsAreBounded` | internal/agent/turn.go:845-864 | A call's retries wait in all at least the doubling backoff and at most the bound on one wait per retry. |
| `ProviderCallbacks.EmittedInOrder` | internal/agent/turn.go:36-67 | Output is emitted in the order its callbacks were admitted, each text at most once, and all of it when none is declined. |
| `ProviderCallbacks.DelayExactly` | internal/agent/turn.go:845-864 | Another attempt may start exactly when one is left and the provider gave no response or was unavailable; it waits the longer of the doubling backoff and what the provider asked for, within 30 seconds. |
| `History.IncompleteToolGroupEvents` | internal/agent/history.go:203-286 | Succeeds exactly on histories whose calls and results pair up, and then returns exactly the events of groups with unanswered calls. |
| `History.ScanGroup` | internal/agent/history.go:218-275 | One group's scan accepts exactly the well-formed groups and claims exactly the results between its assistant event and the next boundary. |
| `History.MessagesFromEvents` | internal/agent/history.go:87-201 | Succeeds exactly when every kept event renders, and then yields their messages in order. |
| `History.OmissionsKeepWholeGroups` | internal/agent/history.go:203-286 | A result is kept exactly when the event that opens its group is, and a kept group answers each of its calls. |
| `History.EveryCallAnsweredOnce` | internal/agent/history.go:87-286 | In a projected conversation every tool message answers exactly one call of the assistant message opening its group, and every call has exactly one answer before the next other message. |
| `History.OmittedExactly` | internal/agent/history.go:203-286 | Left out are exactly the events of groups with a call that no result answers before the next user or assistant event. |
| `TurnCompaction.TurnToolGroups` | internal/agent/turn_compaction.go:121-150 | The turn's tool groups, by opening event, last result and completeness, exactly when its calls and results pair up. |
| `TurnCompaction.CheckCompaction` | internal/agent/turn_compaction.go:219-284 | One in-turn compaction event is accepted exactly when it names this turn, follows a provider trigger, cuts between complete groups and advances the accepted generation. |
| `TurnCompaction.LatestTurnCompaction` | internal/agent/turn_compaction.go:206-287 | The loop accepts exactly the chains that the check accepts event by event, and returns the last generation. |
| `TurnCompaction.LatestStays` | internal/agent/turn_compaction.go:206-287 | An accepted compaction stays the accepted latest as later whole groups are appended. |
| `TurnCompaction.AcceptedPrefix` | internal/agent/turn_compaction.go:206-287 | What a turn accepted is accepted unchanged whatever separate events follow it. |
| `TurnCompaction.CheckedExactly` | internal/agent/turn_compaction.go:219-284 | A compaction is accepted exactly when it names its turn, comes right after a result that triggered it or that trigger's rejected snapshot, covers whole complete groups up to one its trigger's group does not precede, with their identities and sequences, and goes on where the generation before it ends. |
| `TurnCompactionPlans.PlanTurnCompaction` | internal/agent/turn_compaction.go:449-538 | Plans the shortest covered prefix whose projection reaches the target, or else the longest considered one that fits usable input, always leaving the two newest groups; plans nothing only when no considered prefix fits either. |
| `TurnCompactionPlans.ChooseLast` | internal/agent/turn_compaction.go:492-537 | The planning loop chooses the first prefix that reaches the target while the compactor requests fit, or the last one that fits usable input, or none exactly when no considered prefix does. |
| `TurnCompactionPlans.PlannedIsAccepted` | internal/agent/turn_compaction.go:206-287 | A planned compaction appended after its trigger, or after the trigger's rejected snapshot, is accepted as the next generation with exactly the planned frontier. |
| `TurnCompactionPlans.GenerationsCount` | internal/agent/turn_compaction.go:206-287 | An accepted turn's generation number is the number of its compactions, and each covers at least one group none before it covered. |
| `TurnCompactionPlans.GroupsInOrder` | internal/agent/turn_compaction.go:121-150 | Tool groups are disjoint and in order, and a complete one ends with a result. |
| `TurnCompactionPlans.GroupsExactly` | internal/agent/turn_compaction.go:121-150 | There is one group for each event that asks for tools, it ends with its last result, and no two share an end. |
| `TurnViews.TurnCompactionView` | internal/agent/turn_compaction.go:315-340 | The view is the root event, the summary and the events from the frontier on without compactions; it fails when the frontier is missing. |
| `TurnViews.ViewAndHiddenPartition` | internal/agent/turn_compaction.go:315-365 | Every durable event of a compacted turn is either shown by its view or hidden, never both. |
| `TurnViews.ViewProjects` | internal/agent/turn_compaction.go:315-340 | If a turn projects to messages so does its view, and every call in it has exactly one answer. |
| `TurnViews.AcceptedViewProjects` | internal/agent/turn_compaction.go:206-340 | The same for the view of the compaction the validator accepted: it exists, projects and pairs every call. |
| `TurnViews.ViewExactly` | internal/agent/turn_compaction.go:315-340 | The view is the root, one user message of the summary under the compaction's identity, and every event from the first with the retained identity on that is no compaction, in order; it fails exactly when that event is the root, or (`NoView`) missing. |
| `CompactionChain.CompactionTurnComplete` | internal/agent/compaction.go:438-471 | A turn is complete exactly when terminal evidence names its root, or its last kept assistant message asks for no tools; terminal evidence of another root is an error. |
| `CompactionChain.CompactionRootTurns` | internal/agent/compaction.go:406-436 | The history's root turns without whole-turn compactions; each is complete when it ended or a later root superseded it. |
| `CompactionChain.IndexEvents` | internal/agent/compaction.go:562-572 | Finds each identity at its last position in the root turns. |
| `CompactionChain.CheckCompaction` | internal/agent/compaction.go:575-632 | One whole-turn compaction is accepted exactly when it covers whole complete root turns from the prior frontier and retains the next root. |
| `CompactionChain.ValidatedCompactionChain` | internal/agent/compaction.go:557-642 | Accepts exactly the histories whose root turns are valid and whose compactions each check on top of those before. |
| `CompactionChain.ChainConsecutive` | internal/agent/compaction.go:557-642 | Accepted generations are numbered consecutively and each names the one before it, starts where that one ends, covers whole complete turns by the identities and sequences of their first and last events, and was recorded after the root it retains. |
| `CompactionChain.EachTurnOnce` | internal/agent/compaction.go:557-642 | So every root turn is covered by exactly one generation, or is retained and covered by none. |
| `CompactionChain.EndedExactly` | internal/agent/compaction.go:438-471 | A turn with a terminal event is valid exactly when the first names its root, and has then ended; any other turn has ended exactly when its last assistant event that is not left out asks for no tools. |
| `CompactionPlans.SelectManualCompaction` | internal/agent/compaction.go:293-382 | Covers from the chain's frontier as many complete turns before the two newest as the compactor request affords; says nothing is eligible, or overflows, exactly when that is so. |
| `CompactionPlans.SelectAutomaticCompaction` | internal/agent/automatic_compaction.go:55-155 | The planning loop picks the earliest retained root whose planned request reaches the target among the affordable ones, and nothing exactly when none does. |
| `CompactionPlans.SplitOrdered` | internal/agent/compaction.go:406-436 | The root turns of a store are in sequence order and share no identity. |
| `CompactionPlans.PlannedExtendsChain` | internal/agent/compaction.go:205-242 | A plan of either selector passes the validator's check as exactly the next generation with the planned first-retained root. |
| `CompactionPlans.PlannedIsAccepted` | internal/agent/compaction.go:557-642 | Appended to a store whose chain is accepted, it extends the validated chain by exactly itself. |
| `CompactionPlans.ChainStays` | internal/agent/compaction.go:557-642 | An accepted chain stays accepted, unchanged, however the history goes on without compactions. |
| `CompactionPlans.ManualExactly` | internal/agent/compaction.go:293-330 | A compaction by hand stops before the second newest complete turn, of at least three. |
| `CompactionPlans.NothingExactly` | internal/agent/compaction.go:293-345 | There is nothing to cover exactly when the first retained turn is not complete or there is no such turn to stop at. |
| `AutomaticCompaction.SelectAutomatic` | internal/agent/automatic_compaction.go:55-174 | Under pressure or after a rejection, whole turns are compacted exactly when some prefix reaches the target; the active turn's groups only when the request is stuck; otherwise a request that fits proceeds and any other has no legal compaction. |
| `EventDecodes.TurnDecodes.Snapshot` | internal/agent/turn_decodes.go:45-62 | A remembered snapshot decode equals the fresh one, failures included. |
| `EventDecodes.TurnDecodes.Calibration` | internal/agent/turn_decodes.go:66-101 | A remembered calibration decode equals the fresh one. |
| `EventDecodes.TurnDecodes.ContentDigest` | internal/agent/turn_decodes.go:105-117 | A remembered digest is the content's. |
| `EventDecodes.TurnDecodes.BytesPerToken` | internal/agent/token_ratio.go:60-111 | Calibration over remembered decodes is calibration afresh. |
| `EventDecodes.TurnDecodes.StillValid` | internal/agent/turn_decodes.go:12-36 | A longer history leaves every remembered decode and digest true. |
| `ContextLog.RootTurnSlices` | internal/agent/turn_compaction.go:292-308 | The contiguous slices from each root user event to the next. |
| `ContextLog.IndexEvents` | internal/agent/context.go:1082-1091 | Succeeds exactly when identities are named and distinct, and indexes each. |
| `ContextLog.CheckPlaceholders` | internal/agent/context.go:1173-1192 | Reading digests through the turn's cache, accepts exactly placeholders that each describe a durable tool result of the retained range, later than the one before it. |
| `ContextLog.CheckSnapshot` | internal/agent/context.go:1117-1193 | Reading decodes through the turn's cache, accepts exactly a snapshot that follows its trigger directly, after one compaction, or after the one permitted retry, names the right active compaction and retained frontier and carries described placeholders. |
| `ContextLog.DecodedTurnCompactions` | internal/agent/context.go:1066-1195 | Over any caches the turn has filled, or none, the validator succeeds exactly on logs whose identities, in-turn compactions and snapshots are all valid, returns each turn's latest compaction and leaves the caches true. |
| `ContextLog.SnapshotExactly` | internal/agent/context.go:1117-1193 | A snapshot is accepted exactly when what it says is so: its trigger and where it stands, the retained range, the last in-turn compaction, and placeholders that describe durable results of that range in order, by size and digest. |
| `TurnCaches.RequestHistory.CalibratedRatio` | internal/agent/request_history.go:72-91 | The memoised ratio is the one the history yields. |
| `TurnCaches.RatioIsUnique` | internal/agent/token_ratio.go:98-110 | Two calibrations of the same samples agree. |
| `TurnCaches.AcceptedIsUnique` | internal/agent/request_history.go:54-68 | Two derivations of a history's accepted compactions agree. |
| `TurnCaches.TailCompletes` | internal/agent/request_history.go:98-115 | What was loaded and what was committed since are the whole history. |
| `TurnCaches.TurnEvents` | internal/agent/request_history.go:98-115 | Incremental loading equals a full load. |
| `TurnCaches.NewRequestHistory` | internal/agent/request_history.go:33-45 | A history validated through the turn's decodes exists exactly when the log is valid, and holds what a fresh derivation finds. |
| `TurnCaches.RequestHistory.Compactions` | internal/agent/request_history.go:54-68 | The compactions of a history, kept or derived through the decodes, are those the validator derives. |
| `TurnCaches.RequestHistory.StillValid` | internal/agent/request_history.go:14-27 | A longer store leaves a history's compactions and ratios true. |
| `TurnCaches.TurnRequests.NextRequest` | internal/agent/turn.go:213-228 | Request after request, with whatever was committed since, the loaded history is the whole store and its validation through the caches is validation afresh. |
| `Projections.SelectTurns` | internal/agent/context.go:310-335 | Concatenates each turn from the start on as its own accepted compaction leaves it. |
| `Projections.EveryTurnShows` | internal/agent/context.go:310-335 | On a history that loads selection never fails: every accepted compaction's frontier is in its turn. |
| `Projections.ConsideredResults` | internal/agent/context.go:310-335 | The results a request selects are durable results from its start on, in the log's order, whatever compactions hide; so are those a wrap-up retains. |
| `Projections.RetainedEvents` | internal/agent/wrap_up.go:156-172 | The retained range without what compactions hide. |
| `Projections.TurnCompactionHiddenEvents` | internal/agent/turn_compaction.go:342-365 | The union over a history's turns of the events their latest compactions cover, with the compactions themselves; fails exactly when a turn's compactions do not validate. |
| `Projections.SelectedIsUnhidden` | internal/agent/context.go:310-335 | On a history that loads, the durable events an ordinary request shows from a root turn on are exactly those that no compaction of the history hides: what a wrap-up retains of that range. |
| `LogAppends.LogAppend` | internal/agent/context.go:1077-1195 | An event appended to the active turn keeps the log accepted when its own turn and, for a snapshot, the snapshot itself are. |
| `LogAppends.AppendResult` | internal/agent/history.go:203-286 | The next call's result is claimed by the group awaiting it and keeps the turn's calls paired. |
| `LogAppends.ChainAppendEvent` | internal/agent/compaction.go:406-642 | An event that is no compaction keeps the whole-turn chain accepted while the turn stays valid. |
| `LogAppends.SnapshotAppend` | internal/agent/context.go:1117-1193 | An accepted snapshot stays accepted whatever is appended. |
| `LogAppends.SplitExactly` | internal/agent/compaction.go:406-436 | A history splits into root turns exactly when what remains without whole-turn compactions starts with a root user event and has no other user event; the turns are then that remainder in order, one root each. |
| `TurnLoop.SummaryIsActive` | internal/agent/context.go:601-658 | The in-turn compaction a snapshot names is the one the validator computes as active. |
| `TurnLoop.SelectedAreDescribed` | internal/agent/tool_results.go:643-660 | For any start, any selection the composer makes and any projection of it, the manifest passes the validator's placeholder check. |
| `TurnLoop.ComposedIsAccepted` | internal/agent/context.go:601-658 | The snapshot the composer describes, over the turns' views or a wrap-up's range, is accepted where it is appended. |
| `TurnLoop.ManifestsExactly` | internal/agent/tool_results.go:643-660 | The manifest names each considered result whose shown content differs from its durable one, in order, with that content's size and digest, and nothing else. |
| `TurnRuns.StepKeeps` | internal/agent/turn.go:201-738 | Every step of the turn loop keeps the log accepted, the chain accepted and the turn's calls paired. |
| `TurnRuns.NoEndlessTurn` | internal/agent/turn.go:201-738 | No infinite run exists: from every reachable state each run comes to a state that takes no further step. |
| `TurnRuns.OwnedTurn.CommitSnapshot` | internal/agent/turn.go:402-441 | Appends exactly the snapshot, counts a request and awaits the provider, as the machine steps. |
| `TurnRuns.OwnedTurn.CommitCompaction` | internal/agent/turn.go:313-354 | Appends exactly a planned compaction of either kind and remembers it, as the machine steps. |
| `TurnRuns.OwnedTurn.CompactionFailed` | internal/agent/turn.go:349-372 | A failed compaction is remembered for the turn; during a retry it ends the turn. |
| `TurnRuns.OwnedTurn.ContextRejected` | internal/agent/turn.go:450-469 | One context rejection may be retried, and only if its request followed no compaction. |
| `TurnRuns.OwnedTurn.Responded` | internal/agent/turn.go:490-556 | An answer ends the turn; tool calls are committed only below the step limit. |
| `TurnRuns.OwnedTurn.CommitOutcome` | internal/agent/turn.go:714-738 | A call's outcome is appended; the last one triggers the next request of a new iteration. |
| `TurnRuns.EveryRunIsAccepted` | internal/agent/turn.go:201-738 | From a started turn every run only appends, the next load accepts its log and its compaction chain, and it records at most stepLimit + 1 requests. |
| `TurnRuns.RejectedOnce` | internal/agent/turn.go:450-469 | No run of a turn retries a context rejection twice. |
| `TurnRuns.RetryCompacts` | internal/agent/turn.go:349-469 | What is retried is a request that followed no compaction, and its rejection is followed at once by a compaction or the turn's end. |
| `TurnRuns.FailureIsRemembered` | internal/agent/turn.go:313-372 | After a compaction has failed, no compaction is committed in that turn. |
| `TurnRuns.CompactedOncePerRequest` | internal/agent/turn.go:313-469 | Between two compactions of a turn lie a request and its tools' outcomes. |
| `Sessions.NextTurnStarts` | internal/agent/turn.go:139-201 | A fresh root user event on any history that loads starts a turn, whatever the turn before left undone. |
| `Sessions.HandKeeps` | internal/agent/compaction.go:60-178 | A compaction planned and appended by hand leaves a history that loads. |
| `Sessions.EverySessionLoads` | internal/agent/turn.go:139-738 | From any history that loads, however its turns run and stop and whatever is compacted by hand between them, a session only appends and every log it leaves loads. |
| `Allocation.LargestFirstAllocationsWithFloors` | internal/agent/tool_results.go:559-591 | Bisection finds the greatest feasible level; each share is between floor and size, at its level or one byte more, and they sum to exactly min(total, budget) when the floors fit. |
| `Allocation.WaterLevel` | internal/agent/tool_results.go:564-578 | The bisection's result is the greatest level whose total fits the budget. |
| `Allocation.WaterFillSpendsBudget` | internal/agent/tool_results.go:559-591 | Any water-filling spends the whole budget and stays between floors and sizes. |
| `Allocation.WaterFillIsFair` | internal/agent/tool_results.go:559-591 | A shortened result is at most a byte below another unless that one is held up by its floor. |
| `Allocation.ModelGroupAllocations` | internal/agent/tool_results.go:307-354 | Fails exactly when neither the protected results nor everyone's floors fit; otherwise totals min(total, 96 KiB), keeps every share above its minimum, and keeps protected results whole whenever the others' floors fit beside them. |
| `Allocation.OddBytesGoFirst` | internal/agent/tool_results.go:579-590 | Odd bytes go to the results in order: one that the level shortens has its extra byte before any later one. |
| `Allocation.ProtectedFitExactly` | internal/agent/tool_results.go:307-340 | Protected results stay whole exactly when they fit 96 KiB beside 8 KiB of each other result, or beside the others' excerpt labels. |
| `Allocation.SharesReachFloors` | internal/agent/tool_results.go:307-354 | When 8 KiB of each other result fits beside the protected ones, each shows at least that much of itself. |
| `ToolResultLimits.CompleteToolResultGroups` | internal/agent/history.go:38-81 | The complete groups, exactly when the history pairs up and each answers its calls in order. |
| `ToolResultLimits.ApplyModelToolResultLimits` | internal/agent/tool_results.go:261-302 | Succeeds exactly when every complete group can be shared out; each group then shows its shares, and no event changes but a result its group does not show whole. |
| `ToolResultLimits.ShareIsUnique` | internal/agent/tool_results.go:261-354 | A group's shares are a function of that group alone. |
| `ToolResultLimits.GroupWithinBudget` | internal/agent/tool_results.go:261-302 | A group shows at most 96 KiB of what is not whole, each result within its share, protected ones whole whenever they fit. |
| `ToolResultLimits.CompleteGroupClosed` | internal/agent/history.go:203-286 | A complete group claims no result that arrives later. |
| `ToolResultLimits.ShownBytesStay` | internal/agent/tool_results.go:261-302 | Appending events never changes what a request shows of an earlier complete group. |
| `ToolResultLimits.ResultShown` | internal/agent/tool_results.go:261-302 | Of a complete group's results, one of neither a skill nor a protected tool shows at most 32 KiB, and in a group within 96 KiB a result that is protected or within 32 KiB is unchanged. |
| `ToolResultLimits.WithoutWholeExactly` | internal/agent/tool_results.go:261-275 | The results a group may shorten are exactly those of calls to other tools than the skill tool, in order. |
| `Frames.UntrustedFrameSpans` | internal/agent/tool_results.go:409-436 | The line scan pairs each end line with the innermost open frame it closes, dropping the frames inside it. |
| `Frames.FindInnermost` | internal/agent/tool_results.go:424-431 | The innermost open line that pairs with an end line. |
| `Frames.WellFramedPairsAll` | internal/agent/tool_results.go:402-449 | The scan pairs every delimiter-like line exactly when frames nest and every such line is a delimiter. |
| `Frames.NumberedFramesPair` | internal/agent/tool_results.go:438-449 | A begin and an end line of a kind pair by their numbers. |
| `Frames.FramesPairByKind` | internal/agent/tool_results.go:438-449 | Unnumbered ones pair by their kinds, whatever note follows the begin line's kind. |
| `Excerpts.HeadCut` | internal/agent/tool_results.go:473-486 | The two loops compute the cut that `HeadCutIsSafe` and `HeadCutIsGreatest` characterise, for any spans and limit. |
| `Excerpts.HeadCutIsSafe` | internal/agent/tool_results.go:473-486 | The head ends at or before its limit and splits no rune and no delimiter line. |
| `Excerpts.TailCut` | internal/agent/tool_results.go:492-508 | The three loops compute the cut that `TailCutIsSafe` and `TailCutIsGreatest` characterise, for any whole delimiter lines. |
| `Excerpts.TailCutIsSafe` | internal/agent/tool_results.go:492-508 | The tail starts at or after its bound, splits no rune and no delimiter line, and starts with a bracket only at a line start. |
| `Excerpts.CutState` | internal/agent/tool_results.go:402-436 | Cutting well-framed content leaves exactly the frames the scan says are open at the cut. |
| `Excerpts.HeadCutIsGreatest` | internal/agent/tool_results.go:471-486 | The head is the longest possible: every later cut up to the limit splits a rune or a delimiter line. |
| `Excerpts.TailCutIsGreatest` | internal/agent/tool_results.go:488-508 | So is the tail: every earlier cut from its bound on is inside a rune, inside or at the end of a delimiter line, or at a bracket in mid-line. |
| `ToolResultExcerpts.CloseOpenFrames` | internal/agent/tool_results.go:512-528 | The end lines of the frames open at the cut, innermost first. |
| `ToolResultExcerpts.ReopenFrames` | internal/agent/tool_results.go:532-546 | The begin lines of the frames open at the cut, outermost first. |
| `ToolResultExcerpts.HeadFramed` | internal/agent/tool_results.go:512-528 | However well-framed content is cut, head and closing lines together leave no frame open. |
| `ToolResultExcerpts.TailFramed` | internal/agent/tool_results.go:532-546 | However well-framed content is cut, opening lines and tail together close only frames they open. |
| `ToolResultExcerpts.FrameSafeHeadTail` | internal/agent/tool_results.go:455-469 | The shrinking loop ends; head and tail do not overlap and together fit the bytes available. |
| `ToolResultExcerpts.CutIsSafe` | internal/agent/tool_results.go:451-546 | What the loop chose fits, splits no rune, and both parts are well framed. |
| `ToolResultExcerpts.LabelFits` | internal/agent/tool_results.go:361-375 | The overhead, measured with the largest numbers, covers every label. |
| `ToolResultExcerpts.ToolResultExcerpt` | internal/agent/tool_results.go:385-394 | The excerpt is its specification's, for any limit below the content's size. |
| `ToolResultExcerpts.ExcerptIsSafe` | internal/agent/tool_results.go:385-394 | An excerpt never exceeds its limit, splits no rune, and re-parses with no frame open or orphaned. |
| `ToolResultExcerpts.ShownIsGreatest` | internal/agent/tool_results.go:451-508 | An excerpt shows as much as its budget lets it on both sides; the budget is all the limit leaves, or the last one that did not fit less exactly its excess. |
| `ToolResultExcerpts.PlainExcerptShowsAll` | internal/agent/tool_results.go:385-508 | Without frames the head falls short of half of what the limit leaves by at most three bytes, all within one rune, and the tail starts at the other half but for a rune or a bracket. |
| `ToolResultExcerpts.ExcerptReads` | internal/agent/tool_results.go:361-394 | The excerpt names its event, size, digest, reason and the offsets left out, and carries the content's own first and last bytes. |
| `ToolResultExcerpts.DecimalReads` | internal/agent/tool_results.go:361-368 | The numbers a label prints read back as themselves. |
| `Pressure.ProjectOlder` | internal/agent/context.go:488-535 | The running-total pass, redone with re-encoding when its total disagrees, ends at the request's true size. |
| `Pressure.RunningTotal` | internal/agent/context.go:477-535 | With an additive encoding the running total shortens exactly the results that re-encoding after each would. |
| `Pressure.OlderIsExact` | internal/agent/context.go:477-535 | So the second way is never needed then, and what any pass leaves is its true size. |
| `Pressure.PassIsShortestPrefix` | internal/agent/context.go:492-520 | A pass shortens exactly the shortest oldest-first prefix of eligible results whose savings reach the target, or all of them. |
| `Pressure.TargetInBand` | internal/agent/context.go:455-462 | The bytes to free are the excess rounded up to whole bands, so requests in one band free the same number. |
| `Pressure.PercentageFloor` | internal/agent/context.go:667-669 | The overflow-free form is value * percent / 100 rounded down. |
| `Pressure.ProjectUnderPressure` | internal/agent/context.go:450-562 | Ends at the request's true size; the passes' result stands, unless the request fitted and they freed less than 8 KiB without reaching the target. |
| `Pressure.ProtectedLast` | internal/agent/context.go:536-550 | The passes over unprotected results leave every protected result as it was. One that changes at all does so when the request those passes leave exceeds usable input, and then every older unprotected result is within 4 KiB or projects no shorter than it is shown. |
| `Pressure.NewestGroupsStay` | internal/agent/context.go:468-476 | No result of the three newest groups is changed, whatever the request's size. |
| `Pressure.ShownIsProjected` | internal/agent/context.go:492-520 | Whatever result changes is of an older group, exceeds 4 KiB, and then shows its own projection, which is shorter than what it showed. |
| `Pressure.WholeBatchesFirst` | internal/agent/context.go:463-476 | While the request comes to fit, only the older groups in whole fours are shortened: of their unprotected results the shortest oldest-first prefix that reaches the target, or all. |
| `Composer.ComposeFrom` | internal/agent/context.go:565-597 | A request starts at the oldest root turn from which it fits; it overflows exactly when not even the active turn fits. |
| `Composer.StartIndex` | internal/agent/context.go:283-299 | Composition starts at the whole-turn frontier, which must exist and not lie after the active turn. |
| `Composer.Compose` | internal/agent/context.go:256-308 | The same through the budget: no budget, a bad frontier and an overflow are each reported exactly when they hold. |
| `Composer.RetriedRequestShrinks` | internal/agent/context.go:273-278 | Whatever the turns, the retry of a rejected request composes smaller than it exactly when the window's input tokens number under a thousand per rejected byte. |
| `TokenRatio.BytesPerToken` | internal/agent/token_ratio.go:60-111 | The ratio is the least of the newest 32 samples and the cap their number earns; which samples there are `UsageIsSampled`, `RejectionIsSampled` and `SampledExactly` say. |
| `TokenRatio.RatioBounded` | internal/agent/token_ratio.go:60-111 | It is always in 1..6000 and at most 3000 below eight samples. |
| `TokenRatio.RetryShrinksExactly` | internal/agent/token_ratio.go:116-149 | The retry's usable input is below the rejected size exactly when its input tokens are under 1000 per rejected byte. |
| `TokenRatio.RetryShrinks` | internal/agent/token_ratio.go:116-149 | In particular whenever 1000 times the rejected bytes cover the hard window less the reserve. |
| `TokenRatio.RejectionIsSampled` | internal/agent/token_ratio.go:60-111 | A snapshot followed, before anything settles its trigger, by the retry's snapshot or the turn's context overflow records the bound that rejection proved, wherever in the log. |
| `TokenRatio.RejectionBoundsRatio` | internal/agent/token_ratio.go:60-111 | So no ratio exceeds the bound of a rejection in the log until 32 newer samples displace it. |
| `TokenRatio.SampleHoldsForWindow` | internal/agent/token_ratio.go:100-110 | The ratio stays at or below every sample until 32 newer ones displace it. |
| `TokenRatio.RetryMayNotShrink` | internal/agent/token_ratio.go:116-149 | An accepted profile and a rejected size of 100 bytes for which the retry's budget is 198 bytes. |
| `TokenRatio.TrueRejectionShrinks` | internal/agent/token_ratio.go:113-122 | The retry is always smaller when the rejected request truly exceeded the window and its tokens take a byte each or more. |
| `TokenRatio.UsageIsSampled` | internal/agent/token_ratio.go:82-98 | An answered request, anywhere in the log, appends exactly one sample: its bytes over the input tokens its answer reports, in thousandths rounded down, or the nearer of one and six bytes a token. |
| `TokenRatio.SampledExactly` | internal/agent/token_ratio.go:60-99 | An event adds a sample exactly when the model's request for its trigger still waits and the event proves it rejected or answers it with the tokens it took. |
| `TokenRatio.RejectionMeasures` | internal/agent/token_ratio.go:116-122 | The bound a rejection proves is its bytes over the window less the reserve, in thousandths rounded down, within 1 and 6000. |
| `EvidenceBuffer.RoomForResult` | internal/agent/retrieval.go:181-201 | A full buffer that lacks one of at most eight returned items holds an entry that is no part of the result. |
| `EvidenceBuffer.SearchHoldsResult` | internal/agent/retrieval.go:154-202 | After a search the buffer holds every returned item, at most eight entries with distinct identities, and lost only entries outside the result. |
| `EvidenceBuffer.MergeKeepsRelations` | internal/agent/retrieval.go:154-180 | A second read of the current view of a superseded excerpt keeps the relations the held one has and its marker, each once; any other read is taken as it comes. |
| `EvidenceBuffer.RememberedInPlace` | internal/agent/retrieval.go:154-180 | A returned item that is held is merged where it stands, and nothing else changes. |
| `EvidenceBuffer.RememberedLast` | internal/agent/retrieval.go:181-202 | A new one is appended, to a full buffer in place of the last entry that is no part of the result. |
| `EvidenceSupport.ProjectionSupportedEvidence` | internal/agent/retrieval_budget.go:152-214 | The two passes compute the evidence that `SupportIsExact` characterises. |
| `EvidenceSupport.SupportedFromHeld` | internal/agent/retrieval_budget.go:150-214 | What is shown is a held item with some graph paths, conflicts and relations left out, and nothing else changed. |
| `EvidenceSupport.NoFabricatedSupport` | internal/agent/retrieval_budget.go:150-214 | Every conflict and relation shown is among Claims that are shown; every path shown is among Claims of the evidence it was cut from, under the item's own view; an item found only by traversal keeps a path. |
| `EvidenceSupport.PathsShownExactly` | internal/agent/retrieval_budget.go:150-214 | The Claims of every shown path are shown exactly when no kept item's complete path runs through Claims that only dropped items carry. |
| `EvidenceSupport.OnePassOrphansPath` | internal/agent/retrieval_budget.go:159-185 | Two items for which one pass shows a path through a Claim that the same pass drops. |
| `EvidenceSupport.SupportIsExact` | internal/agent/retrieval_budget.go:150-214 | Every held item is shown, in order, unless only traversal found it and none of its paths is complete; and each shows exactly its paths that are complete in the evidence under its own view, its conflicts whose Claims are all shown and its relations to Claims shown. |
| `RetrievalBudget.RetrievalTurn.Undelivered` | internal/agent/retrieval_budget.go:54-67 | Exactly the units not delivered yet, once each, and their cost. |
| `RetrievalBudget.RetrievalTurn.Deliver` | internal/agent/retrieval_budget.go:69-79 | Cumulative delivery stays the sum over the distinct units delivered. |
| `RetrievalBudget.DeliveredIsFree` | internal/agent/retrieval_budget.go:54-67 | Re-admitting delivered bytes costs nothing. |
| `RetrievalBudget.CostIsOfTheSet` | internal/agent/retrieval_budget.go:54-98 | What distinct units cost depends on which they are, not on how they arrived. |
| `RetrievalBudget.RenderProjection` | internal/agent/retrieval.go:271-357 | The trimming loop removes the first item that does not fit alone, or the last, and prunes what lost its support, until what is left fits. |
| `RetrievalBudget.TrimmedFits` | internal/agent/retrieval.go:271-357 | What is left is held items, some pruned, and fits the context and the budget under the status it reads, or is empty. |
| `RetrievalBudget.RetrievalTurn.RememberResult` | internal/agent/retrieval.go:154-202 | The held evidence becomes that of its specification, every entry lost has its origin invalidated, and nothing delivered changes. |
| `RetrievalBudget.RetrievalTurn.AdmitRequest` | internal/agent/retrieval_budget.go:108-148 | Refuses exactly when undelivered tool outcomes alone exceed what remains; otherwise charges the new units, or the outcomes with as much trimmed held evidence as fits, each pruned form as a unit of its own, never past the turn's budget. |
| `RetrievalBudget.TrimmedStep` | internal/agent/retrieval.go:316-357 | Trimming leaves evidence that fits alone; otherwise it takes out the first item that does not fit by itself, or the last, with what lost its support, and goes on. |
| `CompactionCarry.CompactionSectionLines` | internal/agent/compaction_carry.go:74-94 | Finds the headings exactly when the summary is valid: each once, in order, over a body that is not blank, within 16 KiB. |
| `CompactionCarry.HeadingPositions` | internal/memory/event.go:179-197 | Finds the headings exactly when each stands once and in order. |
| `CompactionCarry.CarrySections` | internal/agent/compaction_carry.go:119-144 | The loop assembles every section with its chosen body, and says whether one was carried. |
| `CompactionCarry.CarryForwardCompactionSections` | internal/agent/compaction_carry.go:108-155 | The generated summary when nothing is carried; otherwise the assembled one when it is valid, and an error exactly when it is not. |
| `CompactionCarry.CarriedBodies` | internal/agent/compaction_carry.go:108-155 | Splitting a carried summary returns, under each heading in order, the body that section keeps: the prior body without its trailing blank lines and then the back-reference; the prior body for an empty section, but for open questions and next steps; the generated one otherwise. |
| `CompactionCarry.SplitJoined` | internal/agent/compaction_carry.go:78-80 | Splitting joined lines gives them back. |
| `CompactionCarry.WrittenIsValid` | internal/memory/event.go:160-215 | Seven sections written under their headings, none blank and none quoting a heading, are a valid summary within the limit, and each body reads back. |
| `CompactionCarry.ValidSays` | internal/memory/event.go:167-209 | A valid summary is within 16 KiB and has its seven headings in order, each with a line below it that is not blank. |

## Left out

- CompactionCarry.CarryForwardCompactionSections: how `classifyCompactionSection` normalises text (case, bullets, punctuation, the lists of placeholder phrases) is a parameter, as is which lines are blank; the result holds for every classification. The heading texts, their order and the 16 KiB limit are the source's. UTF-8 validity of the summary is not modelled.
- AutomaticCompaction.SelectAutomatic: the in-turn planner's result is a parameter here (`TurnCompactionPlans.PlanTurnCompaction` is that planner), and an estimator's failure is not modelled.
- CompactionCarry.CarriedBodies: nothing is claimed about carrying a summary forward twice; the source's operation is not idempotent.
- Pressure.ProjectUnderPressure: encoding a request is total here, so an encoding failure in the middle of a pass is not modelled; the check that panics when verification of reuse is switched on is left out.
- Pressure.PassIsShortestPrefix: stated of the running-total pass; it carries over to the re-encoding pass under the additive encoding that `Pressure.RunningTotal` assumes.
- ToolResultLimits.ApplyModelToolResultLimits: the bounds used when a request does not offer result paging (`boundToolResultGroups`), and admission of a result into the log (`headTailPreview`), are not modelled.
- ToolResultExcerpts.ExcerptIsSafe: well-framedness is claimed for well-framed content and labels without line breaks; of other content the limit and rune safety are claimed, but not how its unpaired delimiter lines read in an excerpt. For limits below zero nothing is claimed.
- History.MessagesFromEvents: text-part validation, provider-native continuation items and invoked skill bodies are not modelled.
- ContextLog.CheckSnapshot: a snapshot's diagnostic fields (versions, byte breakdown, receipts) and their own validation are left out.
- CompactionChain.CheckCompaction: summary text, model and prompt provenance, and session identities are left out of a compaction's payload.
- Sessions.EverySessionLoads: events that other writers could commit to the session are excluded by the turn lease, and are not modelled; the recovery of a turn that a stopped daemon left behind is likewise outside a session.
- ProviderCallbacks.CallProvider: how an attempt ends, and whether the turn is still live, waits and is authorized, are outcomes; timers, contexts and the streaming wire format are not modelled.
- CoordinatorRuns.ReservationResolves: fairness of the Go scheduler is not modelled, so this says that finishing steps reach a final cause, not that they are scheduled.
- RetrievalBudget.RenderProjection: the encodings of an item and of the whole message are parameters, and an encoding failure is not modelled; hashing of a unit's bytes is taken as injective, so a unit is its kind and its bytes.
- RetrievalBudget.RetrievalTurn.RememberResult: the query outcomes and work limits that surround the buffer update in `search`, and the refresh of invalidated evidence after revalidation, are left out.
- TurnCaches.TurnEvents: the store's own listing and its errors are not modelled.
- TokenRatio.BytesPerToken: text of the canonical model name is compared as it is; profile loading is left out.
- `cmd/`, `internal/changes`, `internal/eviedb`, `internal/delegation`, `internal/composition`: command lines, rendering, HTTP, Git, SQLite and receipts; they would add only easy members.
- Prompts, skills, standing memory, repository instructions and the lexical recall heuristics: text assembly whose content carries no invariant.
- Semantic-memory preparation and application: the logic they wrap is outside these packages.
