# V3il protocols in Dafny

V3il runs security agents over a durable store. This project models the parts of it that carry
protocols or algorithms and proves what they keep: the write-ahead journal of the Zeek adapter, the
tool-transaction normalizer in front of the model provider, the persisted agent context with its
compaction and its token budget, the delegation protocol between parent and child runs, the durable
event log, the LightRAG lifecycle, and two small algorithms (the subagent mount check and the
recogniser of acknowledgement phrases).

`dafny verify dfyconfig.toml` checks everything.

## How the model is built

* A database transaction is one atomic step. A coroutine is cut into steps at its awaits.
* Each operation is stated once as a function of values (`Next`, `HandleAll`, `AddItems`, ...), and
  the code that updates state in place is a class or a method with loops whose `ensures` equates its
  effect with that function. The theorems are about the functions, so they hold of the methods.
* JSON text, hashing, token counting and event normalisation are uninterpreted: a record has a byte
  length, an item has a cost of 4 plus an arbitrary natural number, the chain hash is an arbitrary
  function (injective and never empty where that is needed). Unbounded integers are those of Python
  and of `BIGINT` columns that are only ever incremented.
* Settings that are ratios are rationals `num / den`.

| file | what it is about |
|---|---|
| `ZeekJournal`, `ZeekChains`, `ZeekRecovery`, `ZeekRuns`, `ZeekPositions`, `ZeekFailures`, `ZeekAdapter` | journal records and recovery; hash chains and recovery as a refinement of appending; which files recovery accepts; the state machine of scans, crashes and exceptions, and exactly-once journaling; what saving and complete scans guarantee; which steps endanger exactly-once; the adapter itself |
| `ToolTransactions`, `ToolConservation`, `ToolLayout`, `ModelInput` | what the normalizer computes and the shape of its output; what it keeps; where it puts things; the mutable objects |
| `ContextRows`, `ContextViews`, `ContextRuns`, `ContextRevival` | context rows and transactions; what views contain and what each transaction does to them; runs, boundaries, the session object; the runs in which chosen compactions break the order of boundaries |
| `CompactionBoundary`, `ContextCompaction`, `ContextChunks`, `ContextBudget` | where a compaction cuts; the decision on the rows of a context and its runs; chunks, recent suffixes and orphans; pruning to a token budget |
| `Delegation`, `DelegationProgress`, `DelegationService` | the parent/child protocol and its invariant; what it gets done; the service over the run table |
| `LightRagLifecycle`, `LightRagOutcomes` | the safety of the lifecycle; what each transition attempts and how it ends |
| `EventLog`, `SubagentRegistry`, `Utterances` | one component each |
| `Options`, `Sequences` | shared values |

## Where the code does not keep the property

Each of these is stated exactly, as an equivalence or with a concrete run.

* Recovery refuses a journal that appending wrote when a bundle names an environment that is not
  positive: appending does not look, recovery does (`ZeekChains.RecoveryRefinesAppending`).
* A torn write that loses only the newline is accepted; the next record is glued to it and the
  recovery after that drops both (`ZeekChains.TearIsHarmlessIff`).
* An exception in the middle of a log file, after which the adapter goes on scanning, journals lines
  twice unless the abandoned pass had journaled nothing. An exception raised by the journal write
  itself is worse: if any byte of the record stayed behind, some continuation ends in a restart that
  fails. `ZeekFailures.HarmlessIff` says of every step, in every state benign runs reach, exactly when
  it is harmless; it needs the whole future of the state, since the harm shows only later.
* The normalizer drops completed pairs together with an unanswered call of the same group; it is
  lossless exactly for the inputs a simple ledger of call ids accepts (`ToolConservation.LosslessIff`,
  `ToolConservation.PairIsDropped`).
* A batch that brings one new dedupe key twice is refused as a whole (`ContextViews.AddItemsCommitsIff`).
* Reviving rewound rows below an earlier compaction can make the next one end at the same sequence
  number, which the boundary constraint refuses, or at a lower one, which nothing refuses. No settings
  prevent either: for every minimum and preserved number of items and every context window there are runs, with exactly the
  compactions that the boundary selection chooses, in which they happen
  (`ContextRevival.RevivalRepeatsBoundary`, `ContextRevival.RevivalLowersBoundary`,
  `ContextRevival.NoSettingsSuffice`, `ContextRevival.NoSettingsKeepOrder`). The chosen compaction is
  recorded above all earlier ones exactly when the selection finds a prefix that ends above the last
  boundary and none at or below it that meets the target (`ContextCompaction.ChosenExceedsIff`); fewer
  than `context_compression_min_items` rows active at or below the last boundary are enough for that
  (`ContextCompaction.SelectedRunRises`). The summary is the first visible item exactly when nothing
  below the candidates is active (`ContextViews.CompactedViewIsSummaryFirstIff`).
* `context_compression_min_items` may be 1. Then a compaction can consist of the last summary alone and
  is refused for its boundary although nothing was revived; with 2 or more, runs without revival below
  the boundary always keep the order (`ContextRevival.MinItemsIff`).
* A cancellation that does not wake the parent strands it exactly when it waits on the canceled run
  (`Delegation.SilentCancelIsHarmlessIff`); `Delegation.SilentCancelStrands` is a run in which it does,
  and a stranded parent waits until it is canceled itself (`Delegation.StrandedForGood`). The supervisor cancels that way only session-wide, and
  when the session is covered the invariant holds again, whatever else happens in between
  (`Delegation.SessionCancelRestoresInv`).
* With a context window of one token the budget leaves no slack; with two or more it does
  (`ContextBudget.BudgetLeavesSlackIff`).

## Model

| member | source | states |
|---|---|---|
| `ZeekRuns.ExactlyOnce` | sandbox/zeek/adapter.py:55-323 | for bundles with positive environments, over every benign run of log growth, line-by-line scanning, saving, crashes (also in the middle of a record), exceptions and restarts: each mapped line has at most one journal record, exactly one once the scan passed it, in file order and with its own event and log type; the journal is one that appending alone could have written; a restart succeeds; the cursor stands at a line boundary |
| `ZeekFailures.HarmlessIff` | sandbox/zeek/adapter.py:255-328 | after any benign run, a step keeps every benign continuation exactly-once if and only if it is benign: a crash that does not lose only the newline, an exception that leaves no byte of a record behind in a pass that journaled nothing, or any other step |
| `ZeekFailures.StepIsHarmlessIff` | sandbox/zeek/adapter.py:255-328 | the same in every state that satisfies the invariant |
| `ZeekRuns.InvMeansExactlyOnce` | sandbox/zeek/adapter.py:255-323 | every state that satisfies the invariant has all of these properties |
| `ZeekRuns.RunKeepsInv` | sandbox/zeek/adapter.py:55-323 | every reachable state has a list of records that is the readable journal, and each path's saved, in-memory and consumed positions are ordered line boundaries whose journaled entries are exactly those of the consumed prefix |
| `ZeekRuns.NextKeepsInv` | sandbox/zeek/adapter.py:55-328 | each benign step keeps that invariant, harmless exceptions included |
| `ZeekRuns.BootKeepsInv` | sandbox/zeek/adapter.py:39-102 | loading the saved state and recovering the journal succeeds and resumes every path at a line boundary that skips no mapped unjournaled line |
| `ZeekRuns.Resume` | sandbox/zeek/adapter.py:89-92 | the maximum of the saved offset and the journaled offsets is a line boundary, and the lines between it and the last consumed line map to no target |
| `ZeekRuns.ReadKeepsInv` | sandbox/zeek/adapter.py:311-321 | reading one line and journaling it if it maps keeps the invariant, so the record is counted once |
| `ZeekRuns.TornKeepsInv` | sandbox/zeek/adapter.py:275-278 | a crash with any number of bytes of the record written, other than all but the newline, keeps the invariant |
| `ZeekRuns.CursorAtBoundary` | sandbox/zeek/adapter.py:310-315 | while a file is open the cursor is the start of the next line or the end of the file |
| `ZeekRuns.OnceEachHolds` | sandbox/zeek/adapter.py:255-323 | the invariant implies at most one record per mapped line, none for an unmapped one, and exactly one for a passed one |
| `ZeekRuns.ExpectedOnce` | sandbox/zeek/adapter.py:311-321 | among the entries of the first c lines, the end offset of line i occurs once if the line maps and i < c, and never otherwise |
| `ZeekRuns.ExpectedInOrder` | sandbox/zeek/adapter.py:311-322 | entries of a log appear by strictly increasing offset, none beyond the consumed lines |
| `ZeekPositions.SavedPositionsHold` | sandbox/zeek/adapter.py:105-108 | after any benign run, a save stores the whole memory, and over every benign continuation with its crashes and restarts no path falls behind the position it had at the save, neither in the saved state nor in memory, whatever its lines map to |
| `ZeekPositions.SaveSurvivesRestart` | sandbox/zeek/adapter.py:39-108 | after any benign run that ends idle, saving, crashing and starting again gives back the same sequence, chains, journal and position of every path |
| `ZeekPositions.ScanJournalsAll` | sandbox/zeek/adapter.py:303-322 | from every idle state that benign runs reach, opening a log, reading on and closing it ends at the end of the file with each mapped line journaled exactly once and no other line |
| `ZeekPositions.CloseIsAtEnd` | sandbox/zeek/adapter.py:311-322 | a file is closed only at its end; the stored position becomes its size, and then it is wholly journaled |
| `ZeekPositions.MemoryIsAhead` | sandbox/zeek/adapter.py:85-92 | in every state of the invariant no path in memory is behind its saved position |
| `ZeekFailures.AbortIsHarmlessIff` | sandbox/zeek/adapter.py:303-328 | after an exception in the middle of a file that wrote nothing, every benign continuation is exactly-once if and only if no line between the stored offset and the cursor maps to a target |
| `ZeekFailures.AbortRepeats` | sandbox/zeek/adapter.py:303-328 | otherwise the next pass reaches a state in which some line has two records |
| `ZeekFailures.AbortWritingIsHarmlessIff` | sandbox/zeek/adapter.py:275-281 | after an exception raised by the journal write itself, every benign continuation is exactly-once if and only if no byte of the record stayed behind and the pass had journaled nothing |
| `ZeekFailures.AbortWritingBreaks` | sandbox/zeek/adapter.py:68-76 | if any byte stayed behind, a benign continuation leads to a restart that fails: a part of the record becomes an unreadable line inside the journal, a whole record has its sequence number used again |
| `ZeekFailures.TearLosesLine` | sandbox/zeek/adapter.py:62-102 | after a crash that loses only the newline, a benign continuation reaches a state in which a mapped line that the scan passed has no record |
| `ZeekFailures.InvStaysExactlyOnce` | sandbox/zeek/adapter.py:55-328 | from every state that satisfies the invariant all benign continuations are exactly-once |
| `ZeekFailures.AbortDuplicates` | sandbox/zeek/adapter.py:320-328 | a run of seven steps with one exception journals the only line of a log twice |
| `ZeekChains.RecoveryRefinesAppending` | sandbox/zeek/adapter.py:55-102 | for every run of appends and every strict JSON prefix of the next record, recovery yields exactly the in-memory sequence and chains and keeps exactly the complete records; it fails if and only if some environment is not positive |
| `ZeekChains.ReplayAppended` | sandbox/zeek/adapter.py:74-93 | replaying the records line by line rebuilds what appending left in memory, with the saved offsets raised to the journaled ones |
| `ZeekChains.TearIsHarmlessIff` | sandbox/zeek/adapter.py:62-102 | after a torn write, recovery and one more append, a second recovery keeps all records if and only if the tear did not lose only the newline; otherwise it drops two records |
| `ZeekChains.ChainIntegrity` | sandbox/zeek/adapter.py:255-281 | journal sequences are 1..n, each event's raw reference is its own sequence, every environment's events form a linked chain, and memory holds the length and head of each chain |
| `ZeekChains.LinkedAt` | sandbox/zeek/adapter.py:263-266 | in a linked chain, event k is numbered k + 1, carries the hash of event k - 1 ("" for the first) and its own hash |
| `ZeekChains.HeadDeterminesHistory` | sandbox/zeek/adapter.py:124-150 | with an injective hash, two journals that agree on an environment's head hash agree on all its events |
| `ZeekChains.HeadDeterminesChain` | sandbox/zeek/adapter.py:124-150 | the same for two linked chains of any lengths |
| `ZeekJournal.TargetIsFirstMatch` | sandbox/zeek/adapter.py:161-171 | the target of a line is the first one in the bundle with its port and protocol, and there is none only if no target matches |
| `ZeekJournal.ParsedPrefix` | sandbox/zeek/adapter.py:63-73 | the result is the position of the first line that is not JSON, or the whole length |
| `ZeekRecovery.RecoverAcceptsIff` | sandbox/zeek/adapter.py:55-102 | recovery accepts any file if and only if it consists of records that carry the number of their line, an event, a positive environment and the next number in it, followed by at most one unreadable line; it then keeps exactly those records and rebuilds their number, the length and last hash of every chain, and the greatest offset of every path |
| `ZeekRecovery.ReplayDescribes` | sandbox/zeek/adapter.py:62-94 | the first n lines are accepted if and only if they are such records, and the state after them is described by counting them |
| `ZeekAdapter.Adapter.RecoverJournalState` | sandbox/zeek/adapter.py:55-102 | the line loop with its byte count, truncation and error exits computes exactly `Recover`, and on an error changes neither the file nor the state |
| `ZeekAdapter.Adapter.LoadState` | sandbox/zeek/adapter.py:39-45 | start-up is the Boot step of the state machine; a failed recovery leaves the process down |
| `ZeekAdapter.Adapter.SaveState` | sandbox/zeek/adapter.py:105-108 | the saved state becomes the sequence, chains and offsets in memory, which stay as they are; the journal does not change |
| `ZeekAdapter.Adapter.AppendNormalized` | sandbox/zeek/adapter.py:255-281 | the durable write and the memory update together are the state machine's reading of that line |
| `ZeekAdapter.Adapter.ScanFile` | sandbox/zeek/adapter.py:304-322 | scanning a file is Open, a number of ReadLine steps and Close of the state machine |
| `ZeekAdapter.TakeWholeLines` | sandbox/zeek/adapter.py:95-99 | truncating at the byte count of the first n lines keeps exactly those lines |
| `ZeekAdapter.PageIsSlice` | sandbox/zeek/adapter.py:423-433 | on an appended journal a page is the contiguous slice of at most `limit` records right after `after` |
| `ZeekAdapter.Adapter.Events` | sandbox/zeek/adapter.py:423-433 | the loop with its early exit returns the page of the records before the first line that is no record, and an error exactly when that line comes before the page is full |
| `ToolTransactions.OutputIsWellFormed` | core/agent/model_input.py:64-113 | for every input the output is a sequence of regular items and blocks of calls with distinct non-empty ids followed by their outputs in the same order |
| `ToolTransactions.NormalizingIsIdempotent` | core/agent/model_input.py:64-113 | normalizing twice is normalizing once, and the inputs left unchanged are exactly the well-formed ones |
| `ToolTransactions.WellFormedIsFixed` | core/agent/model_input.py:64-113 | every well-formed list passes through unchanged |
| `ToolTransactions.BlockPasses` | core/agent/model_input.py:80-104 | between transactions, a complete block is emitted as it is and leaves no open transaction |
| `ToolConservation.RegularsKeepTheirOrder` | core/agent/model_input.py:92-113 | the non-tool items of the output are exactly the non-empty regular items of the input in input order |
| `ToolConservation.NothingInvented` | core/agent/model_input.py:64-113 | output calls are a subsequence of input calls and output results a sub-multiset of input results |
| `ToolConservation.LosslessIff` | core/agent/model_input.py:80-113 | every call in order and every output survive if and only if a ledger of pending and answered ids accepts the input |
| `ToolConservation.WellPairedIsLossless` | core/agent/model_input.py:80-104 | distinct usable call ids with one later output each lose nothing, for any interleaving |
| `ToolConservation.PairIsDropped` | core/agent/model_input.py:80-113 | of two calls and the output of the first nothing is left |
| `ToolConservation.OutputIsInput` | core/agent/model_input.py:64-113 | every output item is an input item |
| `ToolConservation.AdaptingIsIdempotent` | core/agent/model_input.py:17-21 | stripping ids and normalizing is idempotent and keeps the stripped regular items in order |
| `ToolLayout.TransactionInPlace` | core/agent/model_input.py:27-113 | between transactions, the items from a first call to the output that answers the last open one are emitted as the calls in order, the outputs in call order, and then the regular items that came in between, in order; nothing stays open |
| `ToolLayout.TransactionInTheMiddle` | core/agent/model_input.py:64-113 | the same in the middle of any input: the output for what comes before stands first, that for what follows later |
| `ToolLayout.RepeatedIdRestarts` | core/agent/model_input.py:80-90 | a call that repeats an id of an unfinished transaction gives that transaction up: only its regular items are emitted, and the new transaction is kept whole |
| `ToolLayout.UselessCallEnds` | core/agent/model_input.py:80-90 | a call without a usable id ends the open transaction and begins none |
| `ToolTransactions.StripsExactly` | core/conversation/formats.py:55-61 | exactly the messages with id `context_summary`, `task_resumption_context` or one beginning with `foreign_` lose their id, and nothing else changes |
| `ModelInput.ToolTransaction.AddCall` | core/agent/model_input.py:31-36 | a call is added exactly when its id is usable and new, and otherwise nothing changes |
| `ModelInput.ToolTransaction.AddOutput` | core/agent/model_input.py:38-42 | an output is added exactly when its call is open and unanswered |
| `ModelInput.ToolTransaction.IsComplete` | core/agent/model_input.py:44-46 | true exactly when there is a call and every call has its output |
| `ModelInput.ToolTransaction.Ordered` | core/agent/model_input.py:48-53 | the calls, their outputs in call order, the deferred items |
| `ModelInput.ToolTransactionNormalizer.Normalize` | core/agent/model_input.py:64-78 | the loop over the mutable fields returns `Normalized(items)` |
| `ModelInput.ToolTransactionNormalizer.DoHandleCall` | core/agent/model_input.py:80-85 | the new state is `HandleCall` of the old one |
| `ModelInput.ToolTransactionNormalizer.DoHandleOutput` | core/agent/model_input.py:87-90 | the new state is `HandleOutput` of the old one |
| `ModelInput.ToolTransactionNormalizer.DoHandleRegularItem` | core/agent/model_input.py:92-98 | the new state is `HandleRegular` of the old one |
| `ModelInput.Adapt` | core/agent/model_input.py:17-21 | the adapted items are the normalization of the stripped ones |
| `ContextRows.KeysAgreeIff` | core/conversation/store.py:138-147 | two items have equal dedupe keys if and only if they are the same kind of tool item with the same call id, or items keyed by the same id; the key is empty exactly without identity; fields that are missing or no strings are covered |
| `ContextViews.ViewIsOrdered` | core/conversation/store.py:32-46 | the view holds exactly the active rows, by strictly increasing sequence number |
| `ContextViews.LimitedReadIsSuffix` | core/conversation/store.py:38-46 | `get_items(limit)` is the last `limit` items of `get_items()` |
| `ContextViews.AddItemsCommitsIff` | core/conversation/store.py:51-93 | a batch commits if and only if its unmatched keys are distinct, and then exactly the mentioned rewound rows are revived and the unmatched entries get the next numbers in order |
| `ContextViews.AddEachExtends` | core/conversation/store.py:74-90 | the insertion loop does exactly that, whatever the batch |
| `ContextViews.AddItemsKeepsInv` | core/conversation/store.py:51-93 | adding keeps numbers and keys unique, stays below the next number and follows the status table |
| `ContextViews.PopTakesTheNewest` | core/conversation/store.py:95-115 | popping removes exactly the last item of the view, by rewinding its row and changing no other; nothing happens when the view is empty |
| `ContextViews.PopKeepsInv` | core/conversation/store.py:95-115 | popping rewinds the last row of the view and no other, and keeps the row invariant and the status table |
| `ContextViews.AddUndoesPop` | core/conversation/store.py:78-80 | adding an item with the key of the popped one restores the context exactly |
| `ContextViews.ClearHidesEverything` | core/conversation/store.py:117-127 | clearing makes every active row cleared and changes no other, which empties the view and keeps the row invariant |
| `ContextViews.CommitSucceedsIff` | core/conversation/compaction.py:148-180 | a compaction commits if and only if its candidates are still the active rows of their range, its key is free and no earlier one ended there; the boundary constraint refuses it exactly in the last case |
| `ContextViews.CommitKeepsInv` | core/conversation/compaction.py:157-180 | a committed compaction keeps the row invariant and the status table |
| `ContextViews.CommitMarksCandidates` | core/conversation/compaction.py:157-180 | a commit marks exactly the candidates as compacted, appends the summary at the number of the last one, and records that number |
| `ContextViews.CompactedView` | core/conversation/compaction.py:157-180 | the new view is what precedes the candidates, the summary, and exactly the later rows as they are at the commit |
| `ContextViews.CompactedViewIsSummaryFirstIff` | core/conversation/compaction.py:113-180 | the new view is the summary followed by exactly the later rows if and only if nothing below the candidates is active |
| `ContextRuns.NextKeepsInv` | schema/agent/types.py:146-158 | every transaction, the supervisor's rewind included, keeps the invariant and only makes transitions of the status table |
| `ContextRuns.RunKeepsInv` | core/conversation/store.py:32-127 | over every run each number has at most one active or rewound row, row numbers and recorded boundaries stay below the next number, non-empty keys stay unique |
| `ContextRuns.AddingAgainUndoesPop` | core/conversation/store.py:74-115 | in a run, popping hides the last item and adding one with its key again leaves everything as it was |
| `ContextRuns.ClearedForGood` | core/conversation/store.py:117-127 | each row that a clear hides stays cleared over every continuation |
| `ContextRuns.RetiredForGood` | schema/agent/types.py:146-158 | a cleared or compacted row never changes again over any continuation |
| `ContextRuns.CompactionEnds` | core/conversation/compaction.py:120-156 | a compaction ends with its commit, and one whose summary failed commits nothing |
| `ContextRuns.AddKeepsFloorIff` | core/conversation/store.py:75-82 | a batch leaves nothing active below a boundary if and only if it revives no row there |
| `ContextRuns.CommitAdvances` | core/conversation/compaction.py:138-180 | without such revivals a compaction of two or more rows is never refused for its boundary, ends above all earlier ones, and makes the summary the first item before exactly the later rows, those added meanwhile included |
| `ContextRuns.NextKeepsAdvancing` | core/conversation/compaction.py:113-180 | every careful step keeps boundaries increasing and everything visible at or above the last one |
| `ContextRuns.BoundariesIncrease` | model/agent/sessions.py:370-377 | over every careful run the recorded boundaries strictly increase |
| `ContextCompaction.CompactsIff` | core/conversation/compaction.py:83-114 | a compaction happens if and only if the context and the incoming items reach the trigger and some prefix may be compacted |
| `ContextCompaction.ChosenExceedsIff` | core/conversation/compaction.py:98-180 | the compaction that the selection chooses, if no concurrent change meets it, is recorded above all earlier boundaries if and only if some eligible prefix ends above the last boundary and no eligible one at or below it meets the target |
| `ContextCompaction.SelectedRunRises` | core/conversation/compaction.py:98-180 | whatever is revived, boundaries strictly increase over every run of chosen compactions at each of which fewer than the configured minimum of rows are active at or below the last boundary |
| `ContextCompaction.QuietRunRises` | core/conversation/compaction.py:98-180 | with a minimum of two items and no revival below the last boundary the same holds of every run of chosen compactions, and nothing becomes active below the last boundary |
| `ContextRevival.MinItemsIff` | config.py:83-84 | runs of chosen compactions without revival below the boundary all keep boundaries increasing if and only if the configured minimum of items is at least two |
| `ContextRevival.RevivalRepeatsBoundary` | core/conversation/compaction.py:98-180 | for all settings and all trigger and target sizes, and any entries with keys of their own, a run of chosen compactions from the empty context whose last commit takes revived rows and the summary and is refused for its boundary |
| `ContextRevival.RevivalLowersBoundary` | core/conversation/compaction.py:98-180 | likewise a run that takes revived rows only and records the second boundary, without an error, below the first |
| `ContextRevival.NoSettingsSuffice` | config.py:83-85 | at every trigger and target, each choice of settings has a run of chosen compactions that reaches a compaction whose boundary does not exceed the last one |
| `ContextRevival.NoSettingsKeepOrder` | config.py:83-85 | at every trigger and target, each choice of settings has a run of chosen compactions that records a second boundary below the first |
| `ContextRevival.TakesMinItems` | core/conversation/compaction.py:225-257 | of as many plain completed items as the configured minimum and the preserved number together, each as large as the preserved tokens, exactly the minimum is chosen at every trigger and target |
| `ContextCompaction.SelectedIsAmple` | core/conversation/compaction.py:98-114 | a chosen compaction takes more rows than are active at or below the last boundary whenever these are fewer than the configured minimum |
| `ContextCompaction.ChosenIsEligible` | core/conversation/compaction.py:98-114 | what is chosen lies between the configured minimum and the number of active rows less the preserved ones |
| `ContextCompaction.CompactionSplitsNoPair` | core/conversation/compaction.py:98-114 | on a view whose outputs each follow their own call, no output that stays active loses its call to the chosen compaction |
| `ContextCompaction.CandidateTools` | core/conversation/items.py:23-25 | the candidates of the selection are the items of the view, with the same tool calls and outputs under the same ids |
| `ContextCompaction.ChooseCandidates` | core/conversation/compaction.py:83-114 | returns nothing exactly when the projected tokens stay below the trigger or the selection finds no boundary; otherwise the sequence numbers of the chosen prefix, as a compaction in flight holds them |
| `ContextRuns.BoundaryExceedsIff` | core/conversation/compaction.py:113-180 | a compaction that meets no concurrent change is recorded above all earlier boundaries if and only if it takes more rows than are active at or below the last boundary |
| `ContextRuns.ReadExceedsIff` | core/conversation/compaction.py:73-81 | the last of the first `count` active rows lies above the last boundary if and only if fewer than `count` rows are active at or below it |
| `ContextRuns.AmpleRunRises` | core/conversation/compaction.py:113-180 | whatever is revived, boundaries strictly increase over every run whose compactions each take more rows than that |
| `ContextRuns.NextKeepsRising` | core/conversation/compaction.py:113-180 | in such a run no commit is refused for its boundary, also when rows change while the summary is written |
| `ContextRuns.CarefulIsAmple` | core/conversation/compaction.py:113-180 | without revival below the last boundary two rows always suffice |
| `ContextRuns.Extend` | core/conversation/store.py:74-90 | the loop that revives and inserts computes `AddEach` of the rows found before it |
| `ContextRuns.V3ilSession.ReadItems` | core/conversation/store.py:32-46 | returns the items of exactly the active rows by strictly ascending sequence number, or the last `limit` of them |
| `ContextRuns.V3ilSession.AddAll` | core/conversation/store.py:51-93 | the stored rows become those of the committed batch, or stay as they were when it is refused; the invariant holds either way |
| `ContextRuns.V3ilSession.PopNewest` | core/conversation/store.py:95-115 | returns the last item of the old view and sets its row, and no other, to rewound |
| `ContextRuns.V3ilSession.ClearAll` | core/conversation/store.py:117-127 | every active row becomes cleared, no other row changes, the view is empty and the invariant holds |
| `ContextRuns.V3ilSession.CommitSummary` | core/conversation/compaction.py:141-180 | commits, reports a concurrent change, or fails, exactly as `CommitCompaction` says, and changes nothing unless it commits |
| `CompactionBoundary.SelectBoundary` | core/conversation/compaction.py:210-260 | returns the least eligible prefix length that meets the token target, else the greatest eligible one, else nothing |
| `CompactionBoundary.Search` | core/conversation/compaction.py:240-260 | the same for the search loop with its running set of open calls and removed tokens |
| `CompactionBoundary.BoundaryIs` | core/conversation/compaction.py:210-260 | said of the rows: the boundary is the least prefix that may be compacted and with which the kept rows, the incoming items and the longest summary are within the target; if none reaches it, the greatest that may be compacted; none exactly if none may |
| `CompactionBoundary.EligibleIff` | core/conversation/compaction.py:219-253 | a prefix may be compacted if and only if it has the minimum of items, the rest has the preserved items and tokens, nothing in it is in progress, and each of its calls is answered in it |
| `CompactionBoundary.ShareIff` | core/conversation/compaction.py:225-225 | the preserved tokens are the target times the ratio, rounded down |
| `CompactionBoundary.CountPreserved` | core/conversation/compaction.py:225-235 | the least suffix length that reaches both preserve thresholds, or everything |
| `CompactionBoundary.CompletedPrefixEnd` | core/conversation/compaction.py:263-268 | the number of rows before the first one in progress |
| `CompactionBoundary.OpenCallsIff` | core/conversation/compaction.py:240-250 | an id is open after a prefix if and only if some call of the prefix has it and no later output of the prefix does |
| `CompactionBoundary.BoundaryPreservesRecent` | core/conversation/compaction.py:219-238 | the kept suffix has at least the configured items and tokens, and nothing in progress is compacted |
| `CompactionBoundary.NoKeptOutputLosesItsCall` | core/conversation/compaction.py:240-254 | on well-paired rows the call of every kept output is kept |
| `ContextChunks.BuildChunks` | core/conversation/context_budget.py:194-238 | the loop over pending items and open calls builds `ChunksOf` |
| `ContextChunks.ChunksAreMinimal` | core/conversation/context_budget.py:194-238 | each chunk is a single item that is no call, or begins with a call and ends with the first item that is no call and leaves none unanswered; only the last chunk may be incomplete |
| `ContextChunks.ChunksAreLossless` | core/conversation/context_budget.py:194-238 | the chunks are non-empty and, joined, are the input |
| `ContextChunks.SuffixesAreClosed` | core/conversation/context_budget.py:210-230 | when each output follows its call, every suffix of chunks contains the call of each of its outputs, and also the output of each of its calls when all are answered |
| `ContextChunks.SelectRecentChunks` | core/conversation/context_budget.py:241-252 | returns the longest suffix of chunks within the budget: it fits, and every longer one does not |
| `ContextChunks.SuffixIsLongest` | core/conversation/context_budget.py:245-250 | the suffix of chunks that selection keeps fits the budget, and every longer one does not |
| `ContextChunks.DropOrphanToolItems` | core/conversation/context_budget.py:263-288 | the loops over ids and items compute `DropOrphans` |
| `ContextChunks.OrphansAreDropped` | core/conversation/context_budget.py:263-288 | what remains is paired, other items are untouched and in order, nothing is dropped if and only if all tool items were paired, and dropping twice is dropping once |
| `ContextChunks.OrphansAreExactly` | core/conversation/context_budget.py:263-288 | exactly the items of no tool and those whose id is carried by both a call and an output remain, each as often as before and in order |
| `ContextChunks.CostAppends` | core/conversation/compaction.py:194-203 | the token estimate of a concatenation is the sum of the estimates |
| `ContextBudget.BudgetLeavesSlackIff` | core/conversation/context_budget.py:67-80 | budget plus completion slack fit the window if and only if the window has at least two tokens; the slack is between 1 and 2048 |
| `ContextBudget.BudgetIsGreatest` | core/conversation/context_budget.py:67-75 | the budget is the greatest of 1 and the numbers within the share of the window that a call may use and within what the slack leaves |
| `ContextBudget.SlackIsGreatest` | core/conversation/context_budget.py:73-73 | the slack is the greatest of 1 and the numbers up to 2048 and a tenth of the window |
| `ContextBudget.PruningIs` | core/conversation/context_budget.py:141-182 | on the items: the result is the context summary if it leads them and fits together with the notice, the notice exactly if something is omitted, and the longest run of last chunks of the rest that then fits, without orphans; pruning fails exactly if the rest is not empty and not even its last chunk fits |
| `ContextBudget.PruneItems` | core/conversation/context_budget.py:141-182 | the code with its fallback and both errors: a leading context summary that fits together with the notice is kept, the notice follows exactly if something is omitted, then comes the longest affordable run of last chunks of the rest, without orphans and within the budget; it fails exactly if not even the last chunk fits; fallback and last error never happen |
| `ContextBudget.CandidateFits` | core/conversation/context_budget.py:150-172 | anchor, notice and selected suffix together never exceed the item budget |
| `ContextBudget.PruningSeparatesNoPair` | core/conversation/context_budget.py:157-172 | on a well-paired tail, dropping orphans after pruning removes nothing |
| `ContextBudget.ConstrainModelInput` | core/conversation/context_budget.py:83-120 | the input is returned unchanged exactly when it fits; instructions are refused exactly when they fill the budget; otherwise the outcome is the pruning to what they leave, with the summary, the notice and the last chunks as stated for it; it fits together with the instructions, and the check after pruning never fails |
| `ContextBudget.ModelCall` | core/conversation/context_budget.py:51-80 | in a window of at least two tokens whatever is returned leaves the completion slack free; without a window the input is not touched |
| `Delegation.ProtocolIsSafe` | service/agent/delegation.py:199-323 | over every run of the protocol without silent cancellations no parent waits on a child that has ended, whichever of "child ends" and "parent starts waiting" came first, and all constraints below hold |
| `Delegation.RunKeepsBase` | service/agent/delegation.py:45-323 | over every run, silent cancellations included: at most one undelivered child per parent, wait fields exactly while waiting, a delivered child has ended, no terminal parent has an undelivered child, and the trigger revision is 1 plus the delivered children plus the other resumptions |
| `Delegation.NextKeepsBase` | service/agent/supervisor.py:816-1427 | every single step (delegation, claim, context building, waits, resumption, ends, requeueing) keeps those constraints |
| `Delegation.OnlySilentCancelStrands` | service/agent/supervisor.py:1305-1347 | whatever the step, a parent waits on an ended child after it only if it did before, or if the step cancels that very child without waking the parent |
| `Delegation.NextKeepsInv` | service/agent/supervisor.py:816-1427 | every step other than a silent cancellation keeps the constraints and all wake-ups |
| `Delegation.NeverMultipleUndelivered` | service/agent/delegation.py:157-165 | the multiple-undelivered-children error is unreachable in every run |
| `Delegation.DispositionIsFinal` | service/agent/delegation.py:254-280 | once a child is delivered or discarded it stays so through the rest of every run, so it is delivered at most once |
| `Delegation.DelegateKeepsBase` | service/agent/delegation.py:45-137 | delegating from an active parent without undelivered children keeps the constraints |
| `Delegation.WaitIsDelivered` | service/agent/delegation.py:299-323 | starting to wait is the plain suspension when the child still runs, and the suspension followed by the delivery when the child has ended |
| `Delegation.WaitStrandsNobody` | service/agent/supervisor.py:1146-1168 | starting to wait strands nobody, even when the child ended first |
| `Delegation.QueueParentWakes` | service/agent/delegation.py:240-296 | a delivery strands nobody, and a parent that waits on the ended child becomes queued with its wait cleared, its revision one higher and nothing else changed |
| `Delegation.EndedStrandsOnly` | service/agent/supervisor.py:1139-1176 | ending a run strands at most a parent that waits on it and is not woken |
| `Delegation.QueueParentKeepsBase` | service/agent/delegation.py:269-281 | delivery raises the revision by one and marks one child, which keeps the revision equation and all row constraints |
| `Delegation.SilentCancelIsHarmlessIff` | service/agent/supervisor.py:1305-1347 | canceling without waking the parent keeps the invariant if and only if the parent does not wait on the canceled run |
| `Delegation.SilentCancelStrands` | service/agent/supervisor.py:1305-1347 | a run of five steps in which a run delegates and waits and its child is canceled silently ends with the parent waiting on an ended child |
| `Delegation.StrandedForGood` | service/agent/delegation.py:240-322 | after any run, a parent that waits on an ended child does so after every continuation that does not cancel it |
| `Delegation.SessionCancelRestoresInv` | service/agent/supervisor.py:339-372 | over any run in which each open run of a session is silently canceled at some point, other steps, new runs and other sessions in between, the invariant holds at the end |
| `Delegation.CancellingGoesOn` | service/agent/supervisor.py:352-371 | on the way all constraints but the wake-ups hold, nobody outside the session is stranded, and each canceled run stays ended |
| `DelegationProgress.DeliveryWakes` | service/agent/delegation.py:240-323 | after any run, when a child ends on which its parent waits, and when a parent starts to wait on an ended child, the parent is queued, its wait fields are clear, its revision is one higher, nothing else of its row changes, it can be claimed, and the child is delivered |
| `DelegationProgress.EveryRunCanSucceed` | service/agent/supervisor.py:816-1173 | after every run without silent cancellations, each open run can still succeed by claims, resumptions and finishing attempts alone |
| `DelegationProgress.CanRun` | service/agent/supervisor.py:816-1173 | from every state of the invariant an open run gets to run that way without any change to the runs created before it |
| `DelegationProgress.StatusesFollow` | service/agent/supervisor.py:816-1347 | after any run, what each step makes of each status: only a claim makes a queued run run, only its waits suspend it, only resumptions, interruptions and deliveries queue it, and only its own end makes it terminal |
| `DelegationProgress.DelegatesIff` | service/agent/delegation.py:36-137 | a child is created exactly if the parent runs, is free, owes no result and is admitted, the first unmet condition being the error; the child can be claimed, the parent notes it, nothing else changes |
| `DelegationProgress.EndWakesParent` | service/agent/delegation.py:240-281 | the end of a child wakes the parent that waits on it, as stated for deliveries |
| `DelegationProgress.WaitOrWake` | service/agent/supervisor.py:1131-1168 | a wait on an ended child is over at once; on an open child it is recorded and nothing else changes |
| `DelegationProgress.WaitsAreRecorded` | service/agent/supervisor.py:1131-1168 | a sandbox wait records its command and changes nothing else; a recovery wait leaves no child undelivered |
| `DelegationProgress.ContextHasChild` | service/agent/delegation.py:157-165 | building the context of an attempt finds the undelivered child |
| `DelegationProgress.RunIsRanked` | service/agent/delegation.py:36-137 | over every run, runs can be numbered so that each parent comes before its children |
| `DelegationService.RunTable.CreateChildRun` | service/agent/delegation.py:45-137 | creates exactly one queued child noted by its parent, or refuses and changes nothing |
| `DelegationService.RunTable.QueueParentContinuation` | service/agent/delegation.py:254-281 | the table becomes `QueueParent` of the old one: a parent that waits on the child is queued, its wait cleared and its revision one higher, and the child is delivered |
| `DelegationService.RunTable.QueueParentFromFinishedWaitReference` | service/agent/delegation.py:299-323 | the table becomes `QueueFromFinished` of the old one: a parent that waits on an ended undelivered child is queued, its wait cleared and its revision one higher |
| `DelegationService.RunTable.DiscardPendingChildContinuations` | service/agent/delegation.py:199-208 | exactly the undelivered children are discarded, and their number is returned |
| `DelegationService.RunTable.EndRun` | service/agent/supervisor.py:1139-1176 | ends a run as `Ended` says, and keeps the whole invariant when the parent is woken or is not waiting on the run |
| `DelegationService.RunTable.SuspendOnChild` | service/agent/supervisor.py:1146-1168 | the wait and the possible immediate wake-up are one step that keeps the invariant |
| `EventLog.AppendedIsNumbered` | service/agent/event_store.py:9-29 | whatever the runs interleave, events are numbered 1..next-1 in commit order and nothing written is lost or changed |
| `EventLog.PageIsBlock` | service/agent/repository.py:264-272 | whatever cursor is sent, a page is the block of events just below it, oldest first; there is more exactly when events precede the block, and then the next cursor is its first number |
| `EventLog.ReadBackIsComplete` | service/agent/repository.py:248-272 | following the cursor terminates and, joined oldest first, yields exactly the events present at the first page, each once and in order, whatever is appended between pages |
| `EventLog.AppendingGrows` | service/agent/event_store.py:14-29 | a log that only grows by appending keeps every event it had |
| `EventLog.AgentSession.AppendEvent` | service/agent/event_store.py:9-29 | the stored event carries the next number whatever it carried before, and the log stays numbered |
| `EventLog.AgentSession.ReplayEvents` | service/agent/repository.py:264-272 | on a numbered log the page read is the block of events just below the cursor, with the right cursor for the next one |
| `LightRagLifecycle.LifecycleIsSafe` | core/lightrag/runtime.py:51-153 | in every interleaving at most one task is in transition, at most one instance is live, a client's instance is current and not being finalized, and it stays the same until the client leaves |
| `LightRagLifecycle.RunKeepsInv` | core/lightrag/runtime.py:51-153 | the transition flag is set exactly while a task is in transition, the counter is the number of clients, the current instance is the only live one, and whoever sleeps waits for something that has not happened yet |
| `LightRagLifecycle.NextKeepsInv` | core/lightrag/runtime.py:51-153 | every step keeps that invariant, failing initialization, failing finalization, rollback and canceled waits included |
| `LightRagOutcomes.TransitionOutcome` | core/lightrag/runtime.py:51-130 | in every interleaving, a transition that ends has made exactly the attempts it should (a start initializes, having found no instance; a stop finalizes what it found; a restart finalizes, then initializes unless that failed, and attempts the rollback it was given if either failed); an instance is current if and only if the initialization or the rollback succeeded, it was initialized during this transition, and the flag is clear |
| `LightRagOutcomes.TransitionEnds` | core/lightrag/runtime.py:51-130 | each step of the task in transition brings it closer to its end, after at most six, and no other task moves it |
| `LightRagOutcomes.StepOnTheWay` | core/lightrag/runtime.py:51-130 | every step keeps what the phase of a task says about its attempts so far |
| `LightRagOutcomes.EntryClaims` | core/lightrag/runtime.py:53-73 | a start that finds no instance claims the transition and initializes; a stop or a restart claims it and drains |
| `LightRagOutcomes.NothingHappens` | core/lightrag/runtime.py:55-56 | a start that finds an instance, and a canceled drain, leave the instance in place |
| `LightRagOutcomes.SleepersSleep` | core/lightrag/runtime.py:54-54 | a task that finds its condition false cannot go on before it is notified; a task that gives up its wait is gone |
| `LightRagOutcomes.ClientsCount` | core/lightrag/runtime.py:143-146 | a client enters with the current instance and is counted, or gets the error and is not |
| `LightRagLifecycle.TransitionCanMove` | core/lightrag/runtime.py:69-130 | a transition is never stuck: its owner can move and does not sleep, or it is draining and some client can leave |
| `LightRagLifecycle.NoLostNotification` | core/lightrag/runtime.py:51-153 | no notification is lost: in every interleaving of tasks that sleep in the condition variable until it notifies all, a task whose wait condition holds is awake and can go on |
| `LightRagLifecycle.LightRagRuntime.WaitForFlag` | core/lightrag/runtime.py:54-54 | one round of the wait for the transition flag: go on when it is clear, otherwise sleep among the waiters |
| `LightRagLifecycle.LightRagRuntime.WaitForDrain` | core/lightrag/runtime.py:75-75 | one round of the wait for the active operations to end |
| `LightRagLifecycle.LightRagRuntime.EnterStart` | core/lightrag/runtime.py:53-57 | claims the transition exactly when no instance runs |
| `LightRagLifecycle.LightRagRuntime.EnterTransition` | core/lightrag/runtime.py:71-73 | stop and restart claim the transition and begin to drain |
| `LightRagLifecycle.LightRagRuntime.TakeInstance` | core/lightrag/runtime.py:75-80 | once drained the instance is no longer current and no longer live |
| `LightRagLifecycle.LightRagRuntime.AbandonDrain` | core/lightrag/runtime.py:76-79 | a canceled drain clears the flag, wakes all waiters and leaves the instance in place |
| `LightRagLifecycle.LightRagRuntime.PublishInstance` | core/lightrag/runtime.py:111-112 | a new instance becomes current only when there was none |
| `LightRagLifecycle.LightRagRuntime.EndTransition` | core/lightrag/runtime.py:127-130 | the task that owns the transition clears the flag and wakes all waiters |
| `LightRagLifecycle.LightRagRuntime.EnterClient` | core/lightrag/runtime.py:143-146 | a client gets the current instance, or the not-initialized error |
| `LightRagLifecycle.LightRagRuntime.LeaveClient` | core/lightrag/runtime.py:149-153 | leaving keeps the counter equal to the number of clients, and the last client wakes all waiters |
| `SubagentRegistry.RaisesIffCyclic` | core/agent/registry.py:85-99 | the check, which terminates on every finite graph, raises if and only if the mounts over declared codes have a directed cycle, and the chain it reports is in the graph |
| `SubagentRegistry.ValidationErrorIsWitnessed` | core/agent/registry.py:93-98 | a reported self mount or repeating chain consists of real mounts, and a mount of itself is reported as such |
| `SubagentRegistry.PassedWalk` | core/agent/registry.py:89-99 | when a code passes, every walk from it passes and none returns to it |
| `Utterances.IsNonTopicUtterance` | core/conversation/utterances.py:255-268 | true if and only if the key has 1 to 96 characters and is a concatenation of listed components, empty components allowed |
| `Utterances.ExpandStart` | core/conversation/utterances.py:265-267 | the inner loop adds only reachable positions and every end of a component that matches at the start |
| `Utterances.Complete` | core/conversation/utterances.py:261-268 | after the loop every segmentable prefix length is reachable |

## Left out

* Zeek logs: rotation, shrinking files and partially written lines. The scan consumes a partial line as if it were whole, and after a shrink the maximum taken at recovery can bring the old offset back; the model lets logs grow by whole lines only. Reading is per line, so decoding errors and the opaque position of `tell` do not appear.
* Zeek bundles: staging, activation, rollback, validation and the invalid-bundle error; a log path fixes its targets, as the bundle hash is its directory name. The steps outside `ZeekRuns.ExactlyOnce` are exactly those that `ZeekFailures.HarmlessIff` shows to do harm.
* Zeek saved state: loading a state file that is not a JSON object, and JSON values of unexpected types inside a record beyond the errors modelled (`int()` of a string that is not a number).
* Timestamps, provenance attempts, user-visible events and outbox rows: written beside the modelled fields and never read by the modelled code. Attempt rows, leases and write fences are assumed to do what they are named for.
* `adapt` on a plain string, which is returned as it is, and non-dictionary items other than as opaque regular items.
* `compact_context_if_needed` around the modelled parts: the hard-stop errors, the model call that writes the summary, and empty summaries; a failed summary is the `Drop` step. `_summary_safe_value` only feeds the cost.
* `create_child_run`: the checks on other tables (matching context, pending sandbox commands, admission, scope) are two flags.
* Delegation: what may delay a claim (a requested cancellation, session admission, one foreground run at a time), so that `DelegationProgress.EveryRunCanSucceed` speaks of the runs and their waits only; sandbox job rows and the loop that requests cancellation of children (it only sets request fields). A sandbox or recovery wait may end at any time.
* Token estimates and in-progress marks of stored items are arbitrary functions of the item, chosen anew at each compaction; a run has at most one compaction in flight.
* Database unique indexes are modelled as transactions that are refused as a whole; the active-seq index never refuses, because the invariant implies it. Row locks are the atomicity of a step.
* LightRAG: cancellation outside the waits, and storage calls. A finalize or initialize may succeed or fail at any time.
* `canonical_utterance_key` (Unicode normalisation and case folding): the recogniser is stated on the canonical key, for an arbitrary component list.
* `replay_events`: session lookup and access control; a limit is at least 1, as the route demands.
* `resolve_session_limit` and negative limits: a limit is absent or a natural number.
* `get_undelivered_child_run_id` orders by queue time; with at most one child the order is immaterial, and the model picks any.
* HTTP routers, sandboxes, prompts, the web front end, report rendering (`core/conversation/formats.py` beyond id stripping) and the finite status tables of other entities: input and output, or tables without behaviour.
