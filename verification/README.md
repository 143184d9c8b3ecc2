# Verified models of the agent runtime's engine

This project models the parts of the agent runtime that carry state, protocols or
formats, and proves properties of the models with Dafny 4.11. `dafny verify
dfyconfig.toml` checks everything.

## What is modelled

**The context window manager** (`Transcript`, `AtomicGroups`, `SummaryFacts`,
`Compaction`, `CompactionRounds`, `HistoryTurns`, `TurnHistory`, `SessionPins`,
`CompactionReceipt`, `FoldOutcome`, `ContextWindow`). A transcript is priced, split into
atomic tool exchanges, reduced in place and, when that is not enough, folded into one
summary message. The central results are about whole runs. Any interleaving of appended
exchanges, late tool results, rewritten session projections and folds equals the run
that never folded, with some whole exchanges replaced by one summary that records their
messages in order. Whatever is prepared for a known window fits it, in tokens and in bytes.
The turn search keeps the longest suffix that fits. The receipt lists an event the compaction
made unreachable exactly when some message that pointed at it is not hidden from the
lookup by id suffix.

**Commit notification** (`CommitNotification`). The store's operations act on heap
objects and are tied to value functions; those functions drive a machine with any
number of committers and watchers, in which no wake-up is lost.

**MCP session and catalog** (`McpSession`, `McpDiscovery`, `McpCatalog`, `McpOutcome`,
`McpRestart`). Every stretch of code between two awaits is one step; steps of the owner, of
start-up activities and of callers interleave freely, and callers may be cancelled any
number of times. Start-up activities share the manager's clients and its lock for each server. A
start may come at any moment, also while a stop is under way. Besides what never happens,
the results say what can always be brought to an end: a close, a start, a cancelled start
and a stop.

**Kernel mixin extractor** (`MixinExtractor`, `LineDeletion`, `SymbolOrder`,
`SharedLines`). The fixpoint that decides which symbols travel, and the deletion of their
lines in place, each with the exact condition under which it does what it is for.

**Two parsers** (`JpegScan`, `EventStream`). Each loop is proved against a function,
and the function against a printer.

**Checkpoint codec** (`CheckpointCodec`, `V1Migration`, `CanonicalText`). Encoding,
decoding, tolerance for older writers, the integrity hash and the migration of version 1.
A float is its bit pattern.

**Cancellation scope** (`CancellationScope`). Bounded release of resources with a
report that accounts for each.

## What is taken as given

* JSON text, SHA-256, `ast`, `re`, base64 and UTF-8 decoding. A text block stands for
  its decoded value; the checkpoint hash is a function, injective where a lemma says so
  (`CanonicalText.AssumptionsCanBeMet` gives one that is).
* Prompt assembly, the read-result projection, JSON sizes and image prices are functions
  of an environment.
* The codecs of messages and tool calls inside a checkpoint, and Python's `str`, `int`,
  `float` and iteration on JSON values, each the identity on its own kind.
* Time is a clock in milliseconds that moves only while a cleanup is awaited.
* One event loop runs all tasks, so code between two awaits is atomic.
* What a stop or a cancelled start has cancelled does not return normally from its await: it
  is cancelled too, or fails. Tasks first run in the order in which they were created.
* The lists inside a managed history are lists.
* The durable stores do not suspend inside their own commit.

## Where the code does less than its documentation says

* Receipts: a managed history that was compacted before keeps its `-compacted` name, the
  lookup cannot find it, and what the second round drops from it is not listed. A lost
  event is listed exactly when some message that pointed at it is not such a survivor
  (`LossIsListed`, `SecondRewritingIsUnaudited`, `UnauditedExample`).
* History compaction rewrites both lists of single events, so an event that only such a
  list named, no row and no range, can no longer be traced (`CompactBodyTraces`,
  `ListedOnlyIsLost`).
* A start of an MCP session can fail before its owner has ended: exactly when the session
  was served, stopped before the starter resumed, and fewer than two contexts had been
  exited by then (`FailedStartJoinsOwner`, `FailedStartLeavesOwner`).
* A start of the MCP tool provider that comes while a stop drains is accepted, and its
  servers can be published during the stop or after it. Without one, nothing is published
  once the stop has begun (`NothingPublishedAfterStop`, `RestartPublishes`,
  `RestartOutlivesStop`, `RestartConfusesStatus`). A start while the manager closes
  publishes nothing, but until the stop ends it is told of the old tools although no server
  is ready (`CatalogIsExact`, `ClosingStartIsStale`).
* A failed MCP server's client is closed at once, but it stays registered until the stop ends
  if closing it raises or the start-up activity is cancelled meanwhile
  (`FailedServerIsClosed`, `CancelledCloseLeavesClient`).
* Checkpoints: enabled skills are decoded but never encoded; negative renewal counters are
  encoded but not accepted; a version below 1 is decoded without looking at its hash
  (`SurvivesUnchanged`, `ReloadingSettles`, `OlderVersionsAreNotMeasured`; `SkillsAreLost`,
  `NegativeCounterIsRefused`, `WrongHashPasses`).
* Event streams: an HTTP error whose body cannot be read ends the stream as if it were
  complete, and no other fault does (`AppearsComplete`, `FailureLooksComplete`).
* Extractor: deletion takes a line too many exactly when a line that is to stay follows two
  spans that share a line (`DeletionIsExact`, `SharedLinesLoseALine`). The rounds leave a
  free symbol behind exactly when one becomes free in a later round than one it contains
  (`RoundsAreExact`, `LateContainerStays`). Some order of single additions ends short of the
  least set exactly when a definition can become free before one that contains it and
  travels (`OrdersAreExact`, `SharedLinesEndDifferently`).
* Cancellation scope: a close that is cancelled keeps its entries, and the next close starts
  them again (`StartsAtMostOnce`, `CancelledCloseRepeats`, `CancelledCloseStartsAgain`).
* `_compact_session_messages` renames a projection even when nothing is removed from it, and
  then no receipt records the change: without a receipt the result is the conversation
  exactly when no projection can be reduced (`ContextWindow.Compact`, `ReducingRenames`,
  `RenamedWithoutReceipt`).

## Model

| member | source | states |
|---|---|---|
| `AtomicGroups.TakeExchange` | src/tsm_agt/core/context.py:796-820 | the exchange that starts at an index is as long as the scan of its answers says and is exactly that slice of the transcript |
| `AtomicGroups.SplitIntoGroups` | src/tsm_agt/core/context.py:789-821 | grouping loses, copies and reorders nothing; in every transcript, well formed or not, it cuts exactly before each message that does not answer calls still open in the group before it, and nothing else |
| `AtomicGroups.TakesTheAnswers` | src/tsm_agt/core/context.py:801-819 | after a call message the scan takes exactly the tool messages that answer it, and stops where they end |
| `AtomicGroups.GroupsRecoverExchanges` | src/tsm_agt/core/context.py:789-821 | on every transcript that follows the tool protocol (the last batch may be unfinished) grouping recovers exactly its exchanges |
| `SummaryFacts.SummaryMessage` | src/tsm_agt/core/context.py:823-863 | the message returned records what it was given: an entry for each message with its role, its call blocks and its result blocks in order, each result with the tool last called under its id before it; an earlier summary contributes its own entries in its place |
| `SummaryFacts.FactsRecord` | src/tsm_agt/core/context.py:823-863 | the facts of any list of messages record it in that sense |
| `SummaryFacts.ClosedFactsIgnoreContext` | src/tsm_agt/core/context.py:823-863 | a list whose results all name calls known or made in it is summarised the same whatever was seen before |
| `SummaryFacts.TwoRoundsAreOne` | src/tsm_agt/core/context.py:823-863 | summarising in two rounds gives the facts of summarising once, when no later result names an earlier folded call |
| `SummaryFacts.PriorIsInlined` | src/tsm_agt/core/context.py:827-831 | an earlier summary contributes its own facts, in place, and no call context |
| `SummaryFacts.ExchangesClosed` | src/tsm_agt/core/context.py:789-821 | whole exchanges never refer to a call outside themselves |
| `Compaction.SummaryNotProtected` | src/tsm_agt/core/context.py:775-787 | a summary is never protected, so the next round can fold it |
| `Compaction.RecentIndexes` | src/tsm_agt/core/context.py:431-438 | the backward loop selects exactly the shortest suffix of groups after group 0 that reaches the floor, or all of them |
| `Compaction.ChooseCandidates` | src/tsm_agt/core/context.py:431-450 | the candidates are exactly the groups that are neither first, nor recent, nor protected; their messages come in order |
| `Compaction.Rebuild` | src/tsm_agt/core/context.py:455-466 | the result is the kept groups in order with one summary in place of the first dropped one |
| `Compaction.CompactExchanges` | src/tsm_agt/core/context.py:431-466 | one fold returns the dropped messages and the spliced transcript, with their summary at the first dropped group |
| `Compaction.Retention` | src/tsm_agt/core/context.py:431-450 | a group is dropped iff it is not the first, is not protected and enough messages follow it; dropped plus kept messages are the source |
| `Compaction.FlattenConserves` | src/tsm_agt/core/context.py:442-466 | kept and dropped messages together are the transcript, as multisets |
| `CompactionRounds.Refolded` | src/tsm_agt/core/context.py:423-466 | folding a folded transcript is folding the original once: same groups kept, and the old summary is the first thing folded |
| `CompactionRounds.CompactionKeepsProtocol` | src/tsm_agt/core/context.py:423-466 | one fold keeps the tool protocol, never folds an unfinished batch, keeps the last group, and the next round sees exactly its groups |
| `CompactionRounds.RunInvariant` | src/tsm_agt/core/context.py:401-471 | every run of appends, late answers, projection rewrites and folds keeps the transcript equal to the never-folded one with some whole exchanges summarised |
| `CompactionRounds.RoundsEqualOneShot` | src/tsm_agt/core/context.py:423-466 | over any number of rounds the summary holds, in order, the one-shot facts of everything it replaced |
| `CompactionRounds.AtMostOneSummary` | src/tsm_agt/core/context.py:823-863 | at most one summary message exists; its facts record, in order, every message folded in any round (roles, calls, results, and the tool each result answers), and without one the transcript was never folded |
| `FoldOutcome.ProtectedIsInputOrState` | src/tsm_agt/core/context.py:775-787 | what is protected is user input that was not generated, and state projections, by role, scaffolding and name |
| `FoldOutcome.FoldIsExact` | src/tsm_agt/core/context.py:423-471 | one fold of any transcript, message by message: exactly the messages of exchanges go that are not the first, hold neither user input nor state and have the floor of messages behind them; one message that records them all takes the place of the first, and nothing else changes |
| `FoldOutcome.NewestAndInputStay` | src/tsm_agt/core/context.py:431-450 | the first message, all user input, all state and the newest messages up to the floor stay |
| `HistoryTurns.HistoryTurnGroups` | src/tsm_agt/core/session_history.py:184-198 | the rows are cut exactly where the task or turn changes, where rows with a turn and rows without one meet, and, among rows without a turn, before every user row |
| `HistoryTurns.TurnsAreRows` | src/tsm_agt/core/session_history.py:184-198 | the turns concatenate to the rows in order, and none is empty |
| `HistoryTurns.SuffixKeepsTurns` | src/tsm_agt/core/session_history.py:184-198 | cutting at a turn boundary does not change how the remaining rows are grouped |
| `HistoryTurns.MergeRanges` | src/tsm_agt/core/session_history.py:136-142 | the merge loop over the sorted intervals computes the merged ranges |
| `HistoryTurns.MergeCoversExactly` | src/tsm_agt/core/session_history.py:136-142 | merging neither loses nor invents an event sequence |
| `HistoryTurns.RangesCoverExactly` | src/tsm_agt/core/session_history.py:79-86 | recording dropped events covers exactly the earlier and the dropped ones, in separated ranges |
| `HistoryTurns.CompactBodyAccounts` | src/tsm_agt/core/session_history.py:89-181 | the newest turns are kept whole, and message and turn counts of the others move to earlier_summary |
| `HistoryTurns.CompactBodyKeeps` | src/tsm_agt/core/session_history.py:89-181 | entry by entry: the rows left are the newest; a task summary stays iff a row of its task and turn does, an investigation entry iff its task is pinned or has a row; the single events are those of the rows |
| `HistoryTurns.CompactBodyTraces` | src/tsm_agt/core/session_history.py:130-149 | an event stays traceable iff a row showed it or a range covered it, and none is invented |
| `HistoryTurns.ListedOnlyIsLost` | src/tsm_agt/core/session_history.py:130-149 | a concrete body whose list names an event no row shows: it cannot be traced afterwards |
| `HistoryTurns.RepeatedPasses` | src/tsm_agt/core/session_history.py:89-181 | over any number of passes with any parameters the counts balance, the newest turns are left whole, and exactly the events in rows or ranges stay traceable |
| `TurnHistory.FitHistory` | src/tsm_agt/core/context.py:514-544 | the search result fits or is down to one turn; previews and read bodies are added only when they still fit; under downward closure no longer suffix fits |
| `TurnHistory.SearchTurns` | src/tsm_agt/core/context.py:523-533 | the binary search ends with a number of newest turns that fits, or with one; no larger number fits when fitting is downward closed |
| `TurnHistory.CompactTurnHistory` | src/tsm_agt/core/context.py:473-549 | every message is settled in turn: given the earlier ones, a managed history that does not fit is replaced by its best fit (the longest suffix that fits, with what extras fit) and everything else is kept; the count is zero iff the conversation fits or has no managed history |
| `TurnHistory.FittingIsLeftAlone` | src/tsm_agt/core/context.py:473-549 | a conversation that fits, or has no managed history, is left alone |
| `TurnHistory.FitsOrNewestTurns` | src/tsm_agt/core/context.py:514-549 | the result fits, or every managed history in it is down to its newest turn |
| `TurnHistory.RewrittenReadsBack` | src/tsm_agt/core/context.py:504-512 | a rewritten history decodes to the compacted body, which accounts for what it dropped; role and scaffolding stay and the name gains the suffix once |
| `SessionPins.CompactSessionMessages` | src/tsm_agt/core/context.py:551-660 | every unmanaged projection is reduced as specified (rows, task records, investigation entries, missing lists made empty, the compaction block), everything else is unchanged, positions are kept, and the count of what was dropped is exact |
| `SessionPins.CompactSessionMessage` | src/tsm_agt/core/context.py:560-659 | a reduced projection keeps role and scaffolding, gains the suffix, and its body is reduced entry by entry as below |
| `SessionPins.CompactSessionBody` | src/tsm_agt/core/context.py:579-653 | without pins the newest rows stay, with pins all pinned rows and then the other newest ones, cut from the front to the ceiling; the empty pin counts for nothing; task records and investigation entries stay iff their task is pinned or that of a row that stays; rows that go are counted if the body counts them; everything else is left |
| `SessionPins.ReducingRenames` | src/tsm_agt/core/context.py:551-660 | a pass changes a transcript iff it holds a projection that can be reduced, dropped from or not, because that gets a new name |
| `SessionPins.NewestSurvive` | src/tsm_agt/core/context.py:579-600 | the newest recent_message_floor rows survive whichever rows are pinned |
| `SessionPins.KeptIsBounded` | src/tsm_agt/core/context.py:579-600 | at most pinned_message_ceiling rows are kept and none twice |
| `SessionPins.PinnedSurvive` | src/tsm_agt/core/context.py:579-600 | all pinned rows survive, in order, when they fit beside the recent ones; otherwise exactly the excess goes, oldest first |
| `SessionPins.KeptSettles` | src/tsm_agt/core/context.py:579-600 | a second round keeps everything the first one kept, in the same order |
| `SessionPins.RoundsConserve` | src/tsm_agt/core/context.py:615-629 | earlier_summary.message_count plus the rows kept is constant over any number of rounds |
| `SessionPins.RoundsSettle` | src/tsm_agt/core/context.py:579-629 | rounds after the first drop nothing more |
| `CompactionReceipt.Receipt` | src/tsm_agt/core/context.py:662-732 | forgotten ids are, in order, those of source messages that no preserved message carries with or without the suffix; an event is listed iff some source message lists it or shows a row of it, and that message is gone or the last preserved message that goes by its id does neither |
| `CompactionReceipt.IndexBySource` | src/tsm_agt/core/context.py:685-696 | preserved messages are found under their id without the suffix, the last one winning |
| `CompactionReceipt.ForgottenWithoutSurvivor` | src/tsm_agt/core/context.py:671-681 | a forgotten id is exactly a source id without a survivor |
| `CompactionReceipt.LookupFindsSurvivors` | src/tsm_agt/core/context.py:671-697 | the suffix lookup finds a survivor iff it is not the blind kind (kept under a name that already carried the suffix) |
| `CompactionReceipt.AuditIsComplete` | src/tsm_agt/core/context.py:662-732 | for sources whose ids do not end in the suffix every referenced event is still referenced or listed, and nothing else is listed |
| `CompactionReceipt.AuditUnlessBlind` | src/tsm_agt/core/context.py:662-732 | the same for all ids: only a blind survivor can hide a loss |
| `CompactionReceipt.ListedExactly` | src/tsm_agt/core/context.py:689-701 | an event is listed iff some source message referenced it and its survivor, if any, no longer does |
| `CompactionReceipt.LossIsListed` | src/tsm_agt/core/context.py:662-732 | whole transcripts, any ids: an event no preserved message references is listed iff some source message that is not a blind survivor referenced it |
| `CompactionReceipt.SecondRoundIsUnaudited` | src/tsm_agt/core/context.py:685-701 | a lone rewritten history that kept its name has nothing listed iff its name already carried the suffix or nothing was dropped |
| `CompactionReceipt.SecondRewritingIsUnaudited` | src/tsm_agt/core/context.py:504-512 | whatever the second rewriting of a managed history drops is never listed, because the second does not rename it |
| `CompactionReceipt.UnauditedExample` | src/tsm_agt/core/context.py:662-732 | a concrete two-turn history that, rewritten once without loss, loses an event when it is rewritten to its newest turn, without it being listed |
| `ContextWindow.BucketsPartition` | src/tsm_agt/core/context.py:303-392 | every message is priced in exactly one bucket |
| `ContextWindow.FillBuckets` | src/tsm_agt/core/context.py:314-359 | the loop gives every bucket its share and images their price |
| `ContextWindow.EstimateInputBudget` | src/tsm_agt/core/context.py:303-392 | the estimate counts from 8: each assembled message adds the least number of four-byte tokens that hold its JSON, at least one, and 4 and its image tokens; each tool likewise and 2; the history bucket is the same sum over history messages without images |
| `ContextWindow.EstimateIsUnique` | src/tsm_agt/core/context.py:303-400 | that determines the estimate |
| `ContextWindow.TriggerTokens` | src/tsm_agt/core/context.py:220-226 | the trigger is the greatest number within the ratio of the window and the latency cap, but at least 1 |
| `ContextWindow.ReducesAtTrigger` | src/tsm_agt/core/context.py:236-244 | the conversation is reduced iff its estimate and the output reach the trigger or a managed history exceeds its soft cap |
| `ContextWindow.FitsWithinTarget` | src/tsm_agt/core/context.py:484-492 | a candidate of the turn search fits iff its estimate, unless it is a single token, leaves room for the output within window and trigger, and its history keeps to the soft cap |
| `ContextWindow.FoldsAboveTarget` | src/tsm_agt/core/context.py:416-422 | exchanges are folded iff the estimate of the reduced transcript and the output exceed the window or the trigger |
| `ContextWindow.Compact` | src/tsm_agt/core/context.py:401-471 | the reductions alone when they meet the target, otherwise one fold; a receipt audits exactly the difference; there is none iff nothing was dropped and nothing folded, and then the result differs from the conversation iff some projection can be reduced |
| `ContextWindow.RenamedWithoutReceipt` | src/tsm_agt/core/context.py:401-421 | a projection with nothing to drop: for every manager, environment and budget no receipt is due, and it gets a new name and a compaction block |
| `ContextWindow.ReductionIsRewrite` | src/tsm_agt/core/context.py:401-421 | one compaction is, on distinct messages, a rewrite of session projections and at most one fold, so every run of it is a run of CompactionRounds |
| `ContextWindow.RetainedIsReduced` | src/tsm_agt/core/context.py:181-277 | what is retained for a known window is the conversation, its message-by-message reduction, or one fold of that |
| `ContextWindow.Prepare` | src/tsm_agt/core/context.py:181-277 | what is returned for a known window fits it with the reserved output: the reported estimate is that of the assembled view of the very messages delivered, and the JSON of that view has at most four bytes for each token beside the output; what is retained is the conversation, its shortened histories or what one compaction makes of it, audited by the receipt; without one nothing was dropped; it fails only on bad sizes or when what would be delivered does not fit |
| `ContextWindow.BelowTriggerFits` | src/tsm_agt/core/context.py:181-244 | below the trigger and without history pressure the conversation itself is retained, and it fits |
| `CommitNotification.CommitSignal.Notify` | src/tsm_agt/adapters/evented_runtime_store.py:18-20 | a new unset event is current and the previous one is set |
| `CommitNotification.EventedRuntimeStore.Enter` | src/tsm_agt/adapters/evented_runtime_store.py:32-35 | entering counts one more watcher of the key, on the existing signal if there is one, and changes no other key |
| `CommitNotification.EventedRuntimeStore.Leave` | src/tsm_agt/adapters/evented_runtime_store.py:38-41 | leaving counts one watcher less and drops the signal iff it was the last |
| `CommitNotification.EventedRuntimeStore.Notify` | src/tsm_agt/adapters/evented_runtime_store.py:43-46 | only the signal of the key changes its event; a key without watchers changes nothing |
| `CommitNotification.EnteredUsers` | src/tsm_agt/adapters/evented_runtime_store.py:32-35 | the count of exactly one key grows by one |
| `CommitNotification.LeftUsers` | src/tsm_agt/adapters/evented_runtime_store.py:38-41 | the count of exactly one key falls by one, and the key goes iff it reached zero |
| `CommitNotification.AppendedAreNotified` | src/tsm_agt/adapters/evented_runtime_store.py:48-65 | every kind of commit notifies each log it appends to |
| `CommitNotification.TableIsExact` | src/tsm_agt/adapters/evented_runtime_store.py:23-46 | in every reachable state a key is in the map iff it has live watchers, users is their number, and each holds the very signal in the map |
| `CommitNotification.NoLostWakeUp` | src/tsm_agt/adapters/evented_runtime_store.py:1-20 | a watcher blocked on an unset event with unread entries implies that the writer of every such entry has yet to notify |
| `CommitNotification.QuietMeansAwake` | src/tsm_agt/adapters/evented_runtime_store.py:1-20 | once every committer has notified, a blocked watcher with unread entries can wake |
| `McpSession.WrappedMCPClient.TearDown` | src/tsm_agt/adapters/mcp_python_sdk_client.py:111-113 | teardown withdraws the session before any context is exited |
| `McpSession.WrappedMCPClient.EndOwner` | src/tsm_agt/adapters/mcp_python_sdk_client.py:121-124 | readiness is released when the owner ends, even after a failed start |
| `McpSession.WrappedMCPClient.InitializeEnded` | src/tsm_agt/adapters/mcp_python_sdk_client.py:107-113 | an initialised session is visible and releases readiness; a failed one is torn down |
| `McpSession.WrappedMCPClient.ExitContext` | src/tsm_agt/adapters/mcp_python_sdk_client.py:101-113 | the context entered last is exited; with none left the owner ends |
| `McpSession.WrappedMCPClient.CallTool` | src/tsm_agt/adapters/mcp_python_sdk_client.py:126-131 | a call is dispatched iff the client is not closing, has a session and its owner lives |
| `McpSession.WrappedMCPClient.CancelStart` | src/tsm_agt/adapters/mcp_python_sdk_client.py:278-285 | a cancelled start cancels its owner, unless that is on its way out, and joins it |
| `McpSession.WrappedMCPClient.Aclose` | src/tsm_agt/adapters/mcp_python_sdk_client.py:169-173 | closing is marked and the owner asked to stop before the join: a serving owner can then leave its wait |
| `McpSession.ReachableInvariant` | src/tsm_agt/adapters/mcp_python_sdk_client.py:99-131 | the phase of the owner decides in every reachable state what is open, what callers see and what the log says |
| `McpSession.ContextsExitOnce` | src/tsm_agt/adapters/mcp_python_sdk_client.py:99-113 | every context is entered at most once and exited exactly once, in reverse order; none is open when the owner has ended |
| `McpSession.CloseJoinsOwner` | src/tsm_agt/adapters/mcp_python_sdk_client.py:169-189 | however often callers are cancelled, aclose ends only after the owner |
| `McpSession.CloseStopsServing` | src/tsm_agt/adapters/mcp_python_sdk_client.py:108-110 | in every reachable state in which a close was asked for, a serving owner can leave its wait |
| `McpSession.CloseCanEnd` | src/tsm_agt/adapters/mcp_python_sdk_client.py:169-189 | from every reachable state in which a close waits, at most three steps of the owner, none of which raises, let it return with no context open |
| `McpSession.CloseIsBounded` | src/tsm_agt/adapters/mcp_python_sdk_client.py:99-189 | after a close was asked for the owner takes at most three more steps whatever callers do; until it is over there is one it can take, and then every close can return |
| `McpSession.OwnerIsFinite` | src/tsm_agt/adapters/mcp_python_sdk_client.py:99-124 | in no run does an owner take more than seven steps |
| `McpSession.OwnerIsNeverStuck` | src/tsm_agt/adapters/mcp_python_sdk_client.py:99-124 | an owner that is not over can take a step; by success, unless it serves and nobody asked it to stop, or it was cancelled |
| `McpSession.NoDispatchAfterClose` | src/tsm_agt/adapters/mcp_python_sdk_client.py:126-131 | no call is dispatched after closing or teardown has begun |
| `McpSession.CancelledStartJoinsOwner` | src/tsm_agt/adapters/mcp_python_sdk_client.py:276-285 | a cancelled start fails only after the owner has ended, however often it is cancelled |
| `McpSession.CancelledStartStopsOwner` | src/tsm_agt/adapters/mcp_python_sdk_client.py:278-280 | while a cancelled start waits, no await of the owner succeeds but the exit of its contexts |
| `McpSession.CancelledStartCanEnd` | src/tsm_agt/adapters/mcp_python_sdk_client.py:278-285 | from every reachable state in which a cancelled start waits, at most three steps of the owner let it end |
| `McpSession.StartCanEnd` | src/tsm_agt/adapters/mcp_python_sdk_client.py:275-293 | from every reachable state in which a start waits, at most four steps of the owner, none of which raises, let it go on, unless the owner was cancelled before it began; it returns with a session iff the session is there or the owner not on its way out |
| `McpSession.ReadinessIsReleased` | src/tsm_agt/adapters/mcp_python_sdk_client.py:107-124 | readiness is released exactly when the session is initialised or an owner that began ends; a session is there exactly from its initialisation to the end of its wait |
| `McpSession.FailedStartJoinsOwner` | src/tsm_agt/adapters/mcp_python_sdk_client.py:286-291 | an uncancelled failed start leaves its owner at work iff a served session stopped before the starter resumed and fewer than two contexts were exited by then; otherwise the owner has ended |
| `McpSession.FailedStartLeavesOwner` | src/tsm_agt/adapters/mcp_python_sdk_client.py:286-291 | a run in which a start fails while the owner still exits its contexts |
| `McpSession.TakePage` | src/tsm_agt/adapters/mcp_python_sdk_client.py:145-160 | one page ends the listing, is refused for a reason that no complete catalog allows, or names a new page |
| `McpSession.ListTools` | src/tsm_agt/adapters/mcp_python_sdk_client.py:133-161 | listing returns the tools of all pages in order, each page named by the one before, iff the catalog ends within the limits without repeating a cursor; otherwise it fails, and no listing exists |
| `McpSession.ListingIsCatalog` | src/tsm_agt/adapters/mcp_python_sdk_client.py:133-161 | a complete catalog is exactly one whose pages can be listed one after the other |
| `McpDiscovery.ParsesExactlyFullNames` | src/tsm_agt/adapters/mcp_tool_provider.py:339-346 | over all strings, a name parses to a server and a tool iff it is their full name, both are non-empty and the server id has no dot |
| `McpDiscovery.FullNamesDiffer` | src/tsm_agt/ports/mcp.py:18-39 | full names of valid server ids are unambiguous |
| `McpDiscovery.DiscoverTools` | src/tsm_agt/adapters/mcp_tool_provider.py:292-336 | all tools of a server or none: it succeeds iff all are named, distinct and have schemas, and then returns a spec for each, in order, under its full name; otherwise it raises the first complaint |
| `McpCatalog.MCPToolProvider.Start` | src/tsm_agt/adapters/mcp_tool_provider.py:62-77 | every configured server is pending with its own start-up activity; starting twice changes nothing; a start while a stop drains replaces the activities the stop awaits |
| `McpCatalog.MCPToolProvider.AwaitRequired` | src/tsm_agt/adapters/mcp_tool_provider.py:78-88 | start returns iff it was not cancelled and every required activity ended without raising; otherwise it stops everything |
| `McpCatalog.MCPToolProvider.OnBegin` | src/tsm_agt/adapters/mcp_tool_provider.py:90-96 | an activity begins with a registered client at hand, waits for the lock of its server, opens a client holding it, or fails at a closed manager |
| `McpCatalog.MCPToolProvider.GetClient` | src/tsm_agt/ports/mcp.py:115-133 | a registered client needs no lock; a closed manager opens none; at most one activity of a server opens one |
| `McpCatalog.MCPToolProvider.OnLock` | src/tsm_agt/ports/mcp.py:122-133 | an activity that waited finds a client registered meanwhile, the manager closed, or opens or closes a client itself |
| `McpCatalog.MCPToolProvider.OnOpened` | src/tsm_agt/ports/mcp.py:128-133 | an opened client is registered, the lock released and the tool list asked for |
| `McpCatalog.MCPToolProvider.OnListed` | src/tsm_agt/adapters/mcp_tool_provider.py:97-107 | a complete discovery is published in configured order if the provider is still started; an incomplete one fails, and its activity is not over while the client is registered |
| `McpCatalog.MCPToolProvider.Fail` | src/tsm_agt/adapters/mcp_tool_provider.py:111-124 | a failure marks the server unusable, releases its lock and closes its client, waiting for the lock if another activity has it; with a registered client the activity is not over; a required one raises |
| `McpCatalog.MCPToolProvider.OnClientClosed` | src/tsm_agt/ports/mcp.py:139-145 | a client that closed is no longer registered, one that failed to close is |
| `McpCatalog.MCPToolProvider.OnCancelled` | src/tsm_agt/adapters/mcp_tool_provider.py:108-110 | a cancellation ends an activity and halts its row, unless it never ran or had already failed |
| `McpCatalog.MCPToolProvider.BeginStop` | src/tsm_agt/adapters/mcp_tool_provider.py:164-170 | the provider is no longer started; the stop drains the activities it found, or closes the manager in the same stretch if all have ended |
| `McpCatalog.MCPToolProvider.EndDrain` | src/tsm_agt/adapters/mcp_tool_provider.py:170-171 | once those activities have ended the manager is closed |
| `McpCatalog.MCPToolProvider.EndStop` | src/tsm_agt/adapters/mcp_tool_provider.py:172-177 | the catalog is withdrawn and every status but a failure becomes stopped |
| `McpCatalog.MCPToolProvider.ListTools` | src/tsm_agt/adapters/mcp_tool_provider.py:179-184 | the discovery tool and the published tools, or an error when not started |
| `McpCatalog.RunInvariant` | src/tsm_agt/adapters/mcp_tool_provider.py:62-177 | what holds in every reachable state: publication, rows, stop phases and locks agree, and no two activities hold the lock of a server; unless a start came while a stop drained, also readiness and required servers |
| `McpCatalog.CatalogIsExact` | src/tsm_agt/adapters/mcp_tool_provider.py:97-107 | in every reachable state the catalog is the published lists one after the other in configured order, each complete and as advertised; unless a start came while a stop drained, the servers published are the ready ones iff the catalog is not stale: started again while the manager closes |
| `McpCatalog.OrderDoesNotMatter` | src/tsm_agt/adapters/mcp_tool_provider.py:78-107 | two runs that published the same servers have the same catalog, whatever order start-up ended in; for orderly runs that are not stale it is enough that the same servers are ready |
| `McpCatalog.NothingPublishedAfterStop` | src/tsm_agt/adapters/mcp_tool_provider.py:164-177 | unless a start comes while the stop drains: after the stop has begun later steps only withdraw; after it has ended nothing is published, whenever it is started again |
| `McpRestart.RestartPublishes` | src/tsm_agt/adapters/mcp_tool_provider.py:62-105 | from every reachable moment at which a stop drains, all its activities have begun and one besides the opening of that server is unfinished, a start leads to a run in which any server with acceptable tools publishes them while the stop still drains |
| `McpRestart.RestartOutlivesStop` | src/tsm_agt/adapters/mcp_tool_provider.py:97-177 | a run of one server in which such a start publishes after the stop has ended |
| `McpRestart.RestartConfusesStatus` | src/tsm_agt/adapters/mcp_tool_provider.py:108-110 | a run of one server in which the activity the stop cancelled reports it stopped after the new one published it |
| `McpRestart.ClosingStartIsStale` | src/tsm_agt/adapters/mcp_tool_provider.py:62-184 | a run of one server in which a start while the manager closes finds the old tools still published and no server ready |
| `McpCatalog.StartedMeansRequiredReady` | src/tsm_agt/adapters/mcp_tool_provider.py:78-88 | a required server whose start-up ended without raising is ready, unless a start came while a stop drained |
| `McpOutcome.LastStepDecides` | src/tsm_agt/adapters/mcp_tool_provider.py:90-124 | until a stop begins, the last step of its own activity alone decides where a server stands: what it published, its row, and whether its client is registered or still to be closed |
| `McpOutcome.FailedServerIsClosed` | src/tsm_agt/ports/mcp.py:139-145 | unless a start came while a stop drained: a failed server whose activity is over keeps its client, until the stop ends, iff closing it raised or the activity was cancelled while it closed it |
| `McpOutcome.ClosingIsAwaited` | src/tsm_agt/adapters/mcp_tool_provider.py:119-124 | the activity of a failed server with a registered client is not over before the client was closed, or closing raised, or it was cancelled |
| `McpOutcome.CancelledCloseLeavesClient` | src/tsm_agt/adapters/mcp_tool_provider.py:119-124 | a run in which a cancelled activity leaves the client of a failed server registered although closing it did not raise |
| `McpOutcome.StartOverwritesNothing` | src/tsm_agt/adapters/mcp_tool_provider.py:62-77 | no start finds an activity at work, unless it comes while a stop drains |
| `McpOutcome.StopCanEnd` | src/tsm_agt/adapters/mcp_tool_provider.py:152-177 | wherever a stop stands its own steps and one cancellation for each activity at work let it end, with nothing published, ready or registered, unless a start came while it drained |
| `McpCatalog.CallsReachTheirServer` | src/tsm_agt/adapters/mcp_tool_provider.py:186-218 | a call is dispatched to a server and tool iff the provider is started, that server is published and advertises that tool under the called name |
| `McpCatalog.NamesAreDistinct` | src/tsm_agt/adapters/mcp_tool_provider.py:292-336 | no two callable tools share a name, the discovery tool included |
| `MixinExtractor.SpanOf` | scripts/extract_kernel_mixin.py:93-97 | a span begins at the definition or its first decorator, whichever comes first, and ends with the definition |
| `MixinExtractor.ChooseMoved` | scripts/extract_kernel_mixin.py:306-348 | the rounds end; no line that is not a comment and lies outside mentions a symbol that travels; nothing movable is left; stuck is exactly the needed rest; the result is the least closed set iff no definition becomes free in a later round than one it contains |
| `MixinExtractor.RoundsAreExact` | scripts/extract_kernel_mixin.py:306-326 | the rounds leave nothing free behind iff no definition becomes free in a later round than one it contains |
| `MixinExtractor.StuckHasReason` | scripts/extract_kernel_mixin.py:335-348 | a needed symbol that stays encloses something that travels or is used by a line outside that is no comment |
| `MixinExtractor.OutsideIsOutside` | scripts/extract_kernel_mixin.py:292-304 | a symbol is used outside iff a line mentions it that is no comment and belongs neither to its definition, decorators included, nor to a selected method nor to anything that travels |
| `MixinExtractor.FreeIsMonotone` | scripts/extract_kernel_mixin.py:292-322 | the more travels, the fewer reasons to stay |
| `SymbolOrder.OrderIsIrrelevant` | scripts/extract_kernel_mixin.py:306-326 | adding symbols one at a time, in any order, ends with the very set the rounds find, unless an inner definition may lead |
| `SymbolOrder.OrdersAreExact` | scripts/extract_kernel_mixin.py:306-326 | every order of single additions ends with the least set iff no definition can become free before one that contains it and travels |
| `SymbolOrder.NestingFreeNeverLeads` | scripts/extract_kernel_mixin.py:120-129 | without nested definitions that condition holds, so every order ends with the same set |
| `LineDeletion.DeleteDescending` | scripts/extract_kernel_mixin.py:445-448 | the loop deletes the spans from the last to the first |
| `LineDeletion.DescendingDeletionKeepsTheRest` | scripts/extract_kernel_mixin.py:444-448 | deleting disjoint spans in descending order leaves exactly the lines no span covers, in order |
| `LineDeletion.DeletionIsExact` | scripts/extract_kernel_mixin.py:444-448 | for spans that may overlap: deletion leaves exactly the lines no span covers iff no such line comes after two spans that share a line |
| `LineDeletion.DeletionConserves` | scripts/extract_kernel_mixin.py:376-386 | what is left and what was cut out are the file, as multisets of lines |
| `LineDeletion.BodiesPermute` | scripts/extract_kernel_mixin.py:376-386 | the lines cut out do not depend on the order of the spans |
| `MixinExtractor.TravellersAreApart` | scripts/extract_kernel_mixin.py:120-129 | when definitions have lines of their own, what travels never overlaps |
| `MixinExtractor.Extract` | scripts/extract_kernel_mixin.py:306-448 | the whole extraction, overlapping definitions included: the least set travels and the file keeps exactly the uncovered lines, each under its exact condition; with lines of their own no line is lost or copied |
| `SharedLines.SharedLinesBreakOrder` | scripts/extract_kernel_mixin.py:317-322 | two definitions on one line: a round moves both, one at a time only one could move |
| `SharedLines.SharedLinesEndDifferently` | scripts/extract_kernel_mixin.py:306-326 | on that source two orders of single additions end in different sets, and neither as the rounds do |
| `SharedLines.SharedLinesLoseALine` | scripts/extract_kernel_mixin.py:445-448 | and deleting their shared line twice removes a line that no span covers |
| `SharedLines.LateContainerStays` | scripts/extract_kernel_mixin.py:306-326 | a concrete source in which the rounds leave a free symbol behind, because it becomes free a round later than the one whose line it shares |
| `JpegScan.JpegDimensions` | src/tsm_agt/core/image_budget.py:50-75 | the nested loops compute the scan of the header, with every read in bounds; a size with a zero side is none |
| `JpegScan.SkipFill` | src/tsm_agt/core/image_budget.py:56-58 | exactly the 0xFF bytes that introduce a marker are passed |
| `JpegScan.TakeMarker` | src/tsm_agt/core/image_budget.py:61-75 | a marker ends the scan, is passed over with its segment, or gives the sides |
| `JpegScan.ScanInvertsPrint` | src/tsm_agt/core/image_budget.py:52-75 | whatever skippable segments, fill bytes and standalone markers come first, the printed size is found |
| `JpegScan.FoundIsPrinted` | src/tsm_agt/core/image_budget.py:52-75 | a size is found only in bytes that some segments and a frame header of that size print |
| `JpegScan.ScanIsExact` | src/tsm_agt/core/image_budget.py:52-75 | both directions: the sizes found are exactly the sizes printed |
| `JpegScan.EstimateImageTokens` | src/tsm_agt/core/image_budget.py:24-30 | the reservation, or 1024 and three for each tile of 32 by 32 pixels the image reaches into, whichever is more |
| `JpegScan.PriceCoversArea` | src/tsm_agt/core/image_budget.py:24-30 | the price grows with the area without a cap |
| `EventStream.ReadStream` | src/tsm_agt/adapters/http_json.py:136-194 | the reader queues the items of the specification, for every stream and every fault |
| `EventStream.ReadLines` | src/tsm_agt/adapters/http_json.py:144-161 | the loop queues the data of the stream up to its end or its first fault |
| `EventStream.DatumComesBack` | src/tsm_agt/adapters/http_json.py:150-159 | a datum comes back as printed, after any white space and before any line end, iff it does not begin with white space or end with a carriage return |
| `EventStream.SplitInverts` | src/tsm_agt/adapters/http_json.py:145-150 | splitting into lines inverts concatenating them |
| `EventStream.JoinSplits` | src/tsm_agt/adapters/http_json.py:148-154 | the data lines of one event can be told apart: splitting its datum at line feeds gives them back |
| `EventStream.ReadInvertsPrint` | src/tsm_agt/adapters/http_json.py:144-161 | events printed with LF or CRLF, comments, unknown fields, any number of blank lines and an unfinished last event come out exactly, in order |
| `EventStream.QueueEndsOnce` | src/tsm_agt/adapters/http_json.py:160-194 | whatever fails and wherever, exactly one terminal item is queued, and it is last |
| `EventStream.FaultOnlyCutsShort` | src/tsm_agt/adapters/http_json.py:162-187 | what is queued before a fault is a prefix of what an undisturbed reading queues |
| `EventStream.FaultEnds` | src/tsm_agt/adapters/http_json.py:162-194 | a fault is raised as the cause, or is silent if the body of an HTTP error cannot be read; it allows a retry unless it is text that is not UTF-8 or an HTTP error other than 429 and 5xx |
| `EventStream.ConsumerYieldsEverything` | src/tsm_agt/adapters/http_json.py:200-209 | in every interleaving of reader and consumer, an ended consumer has yielded all data in order and ended as the terminal item says |
| `EventStream.ConsumerIsNeverStarved` | src/tsm_agt/adapters/http_json.py:200-209 | a running consumer always has an item waiting or still to come |
| `EventStream.AppearsComplete` | src/tsm_agt/adapters/http_json.py:160-209 | a stream ends for its consumer as if complete iff no fault was met or the fault was an HTTP error with an unreadable body; every other fault is raised |
| `EventStream.FailureLooksComplete` | src/tsm_agt/adapters/http_json.py:162-194 | a 500 whose body is cut off yields nothing and ends as if complete |
| `CheckpointCodec.PendingDecidesStatus` | src/tsm_agt/core/agent_loop.py:242-255 | without an explicit status a batch is open iff calls are pending, keeps its calls and accepts only its own |
| `CheckpointCodec.ReadBatch` | src/tsm_agt/core/agent_loop.py:270-284 | a decoded batch meets the constructor checks; without its legacy field its focus revision is 0 |
| `CheckpointCodec.BatchReadsBack` | src/tsm_agt/core/agent_loop.py:257-284 | decoding an encoded batch gives it back but for a focus revision without its flag |
| `CheckpointCodec.DecodeInvertsEncode` | src/tsm_agt/core/agent_loop.py:345-550 | an encoded checkpoint is accepted iff its renewal counters are not negative, and yields its canonical form, whose encoding is the same |
| `CheckpointCodec.SurvivesUnchanged` | src/tsm_agt/core/agent_loop.py:345-550 | a checkpoint survives a save unchanged iff it is canonical (in particular without enabled skills) and its counters are not negative |
| `CheckpointCodec.SkillsAreLost` | src/tsm_agt/core/agent_loop.py:345-550 | a concrete checkpoint with one enabled skill comes back without it |
| `CheckpointCodec.NegativeCounterIsRefused` | src/tsm_agt/core/agent_loop.py:456-460 | a concrete checkpoint with a negative counter is encoded and not accepted |
| `CheckpointCodec.ReloadingSettles` | src/tsm_agt/core/agent_loop.py:345-604 | any accepted payload of any version comes back from a save without its enabled skills and is then stable; a migrated version 1 payload is a fixed point iff it names none |
| `CheckpointCodec.HashDecides` | src/tsm_agt/core/agent_loop.py:461-484 | with an injective hash a version 2 payload is accepted iff its decoded content is the hashed one, in full or without exactly the evolved fields it lacks |
| `CheckpointCodec.V1HashDecides` | src/tsm_agt/core/agent_loop.py:562-574 | a version 1 payload is accepted only if its hash is that of the whole payload before anything is dropped |
| `V1Migration.V1IsReadAsItStands` | src/tsm_agt/core/agent_loop.py:562-604 | a version 1 payload is accepted iff its hash holds, all its fields can be read and its counters are not negative; then every pending item is a call, in order, read without exactly its two retired names; everything else is read as it stands, and the finalization state says whether any retired part was there |
| `CheckpointCodec.OlderVersionsAreNotMeasured` | src/tsm_agt/core/agent_loop.py:354-357 | for a version below 1 the hash makes no difference |
| `CheckpointCodec.AnyHashPasses` | src/tsm_agt/core/agent_loop.py:354-484 | any sound checkpoint encoded under version 0 is accepted whatever hash it carries |
| `CheckpointCodec.WrongHashPasses` | src/tsm_agt/core/agent_loop.py:354-484 | a concrete version 0 payload accepted under a wrong hash |
| `CheckpointCodec.OlderWritersAreRead` | src/tsm_agt/core/agent_loop.py:465-484 | payloads of writers that did not know some evolved fields are accepted, and those fields get their defaults |
| `CheckpointCodec.MissingFieldsAreRead` | src/tsm_agt/core/agent_loop.py:360-455 | an accepted payload lacks no required field, and each optional one it lacks has its default |
| `CheckpointCodec.RemovalIsDetected` | src/tsm_agt/core/agent_loop.py:461-484 | a current payload that loses any of the ten evolved fields is accepted iff each lost field was at its default |
| `CanonicalText.TextDiffers` | src/tsm_agt/core/configuration.py:42-46 | a text written from the whole payload, which stands in for the canonical JSON, differs whenever the payloads do |
| `CanonicalText.AssumptionsCanBeMet` | src/tsm_agt/core/configuration.py:42-46 | some conversions, codecs and hash meet every assumption made of them, injectivity included |
| `CancellationScope.CancellationScope.Register` | src/tsm_agt/core/cancellation.py:185-194 | an open scope retains the resource, a closed one refuses it and schedules its cleanup |
| `CancellationScope.CancellationScope.CloseAll` | src/tsm_agt/core/cancellation.py:198-230 | the report holds, in order, each entry in the list of what its wait brought, with errors; one that comes up at the deadline or later has timed out and takes no time; registrations may arrive and the caller may be cancelled meanwhile |
| `CancellationScope.Budget` | src/tsm_agt/core/cancellation.py:207-211 | a started cleanup is granted some time, never past the deadline and never more than three seconds, and as much as those two allow |
| `CancellationScope.ReportAccounts` | src/tsm_agt/core/cancellation.py:206-218 | the report places every entry in exactly one of closed, timed out or failed |
| `CancellationScope.CloseEndsByDeadline` | src/tsm_agt/core/cancellation.py:204-213 | if each wait keeps to its budget the whole close ends by its deadline |
| `CancellationScope.ReportIsFinal` | src/tsm_agt/core/cancellation.py:200-201 | over every run, once there is a report it accounts for all ever accepted, and no later call changes it, starts a cleanup or accepts a resource |
| `CancellationScope.StartsAtMostOnce` | src/tsm_agt/core/cancellation.py:185-230 | over every run, each accepted cleanup is started at most once iff at most one close had entries and time to work with |
| `CancellationScope.UncancelledStartsOnce` | src/tsm_agt/core/cancellation.py:198-230 | which holds whenever no close is cancelled |
| `CancellationScope.CancelledCloseRepeats` | src/tsm_agt/core/cancellation.py:198-230 | and fails, from any run, for a close with entries and time that is cancelled during its first cleanup and then repeated |
| `CancellationScope.CancelledCloseStartsAgain` | src/tsm_agt/core/cancellation.py:198-230 | a concrete run of one resource whose cleanup is started twice |

## Left out

- Field-by-field summaries of calls and results (`_tool_call_summary`, `_tool_result_summary`): one opaque value each, because only their order and number matter here.
- Rendering of history bodies (previews, task index, normalisation): recorded as parameters of the body, not computed.
- The internals of the read-result projection and of prompt assembly, and the error prompt assembly raises on injected system messages.
- Rounding of the trigger ratio: real arithmetic instead of floating point.
- CompactionReceipt.Receipt: returns forgotten sequences as a set; the source sorts them.
- TurnHistory.FitHistory: `fits` is any predicate on transcripts, so the statistics the source collects while asking it are not modelled.
- A committer cancelled between its inner commit and its notification, which the stores shipped with the repository cannot be.
- Events and signals are identities in the interleaving part of CommitNotification; asyncio's scheduling order among woken watchers is not modelled.
- McpSession.WrappedMCPClient.CallTool: ends at the dispatch; the reply, its errors and timeouts are not modelled.
- McpSession.ListTools: availability is asked once per page and a reply never fails; a failing request ends the listing with its own error.
- McpCatalog.RunInvariant: start-up timeouts appear only as failed awaits; clients asked for by tool calls, and what becomes of the manager's clients while it closes them, are not modelled.
- Results of invoked MCP tools, discovery paging and health reports: field copying.
- LineDeletion.DeletionConserves: lines cut twice by overlapping spans are counted for spans that do not overlap only; DeletionIsExact covers the others.
- Import rendering, line wrapping, late-import rewriting, the generated header and the final self-check of the extractor: text layout.
- MixinExtractor.Extract: the texts of methods and symbols are those before late imports are added.
- PNG, GIF and WebP headers and base64 decoding: fixed offsets and trusted decoding.
- EventStream.ReadStream: no external stop; lines are decoded text, so a byte sequence that is not UTF-8 is a fault at its line.
- Request building, headers and the other HTTP calls of the transport.
- CheckpointCodec.HashDecides: duplicate or unknown keys of a payload are ignored, as the source ignores them.
- The mutable turn state of the agent loop.
- CancellationScope.CancellationScope.CloseAll: overlapping closes, and time that passes between waits; metrics and logging.
- The wrappers that register tasks, threads, processes, generators and streams differ only in the cleanup they pass on.
- Command-line, HTTP and terminal front ends, bootstrap wiring and evaluation scripts.
