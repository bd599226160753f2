# Verified model of the BSC account-state checkpoint pipeline

The pipeline turns BSC execution traces into immutable, verifiable account-state
checkpoints. This project models its hard core in Dafny and proves what it is for: the
published rows are the state that replaying the chain would give, and no compaction,
cleanup, prune, race or crash changes or loses that answer. `dafny verify dfyconfig.toml`
checks everything.

**From trace to patch.** `Trace`, `Persist`, `Lifecycle`, `Replay`, `Projection`,
`FailedTransactions`, `Survival`, `Patches`: the mapper selects surviving records, sorts them by
ordinal, collapses them to one row per key and merges in account deletions. The specification is
plain event-by-event replay; the projection refines it. `Survival` and `Patches` say what is
collected and what a patch holds over the block's own calls, lists and fields, without the
functions the mapper is made of: which list positions survive and in which order they come out,
which rows, marks and columns a patch has, and which blocks are refused.

**From patches to checkpoints.** `Aggregation`, `Compaction`, `EndToEnd`, `Chain`, `Interval`: the
checkpoint queries (union, "after every reset", argMax over (block, ordinal), zero removal,
field overlay) are set and map comprehensions over the block tables, and equal applying the
patches block by block. Compacted prefixes are invisible in the result. `EndToEnd` ties
everything to replayed traces, and `Chain` does so for chains of checkpoints built one over
the other.

**Protocols with crashes.** `Retention` and `Publication` (build, import, prune, pin, unpin,
read over file locks), `Native` (sink, durable progress, recovery, compaction, cleanup of one
source), `History`, `Bootstrap` (chunked replay) and `Control` (database ownership) treat each
durable write or drop as one step; a crash loses locks and the program counter at any point.
Invariants hold in every reachable state.

**Codecs.** `Paging` (keyset pagination, export page files) and `Header` (RLP header codec).

Hypotheses the theorems carry, all about the producer or the outside world: surviving no-op
records repeat the current value (`Replay.NoOpsCurrent`), no balance, nonce or code record of an
account has exactly a deletion ordinal of that account (`Projection.WellFormed`), a failed transaction
with accepted authorities has an ordinal boundary, its records below that boundary are the
sender's increment and the accepted authorities' records, an increment that is recorded lies below the boundary, and no
record of the sender's account listed before it has its ordinal (`FailedTransactions.FailedTrace`),
identifiers from the UUID generator are fresh, and the native sink writes a block's row and
marker before a cursor that points at it.

Results where the code does not do what one might hope, each with its exact condition:

- At a record with exactly the deletion ordinal the projection drops storage but keeps balance,
  nonce and code, so a deleted account can keep a balance (`Projection.TieKeepsBalance`);
  projection equals replay for a key exactly when its last write does not tie with the deletion
  (`Projection.ProjectionExactness`).
- Merging a compacted prefix over a base checkpoint of the same accounts can resurrect slots
  (`Compaction.PrefixOverBaseResurrects`). At any target block it is exact for a slot exactly
  unless the base holds the slot, the prefix does not although its interval wrote the slot or
  reset the account, and no later block does either (`Compaction.PrefixOverBaseExactness`);
  fields are always exact (`Compaction.PrefixOverBaseFields`). Compaction refuses accounts that
  already have a checkpoint, but a checkpoint imported after a compaction can still meet its
  prefix. A build that does so fails at the storage-root check of `verify_complete`
  (crates/evm-state/src/checkpoint.rs:455-461), so nothing wrong is published; the accounts
  cannot be advanced from that base to that target.
- Planning a prune again right after a completed one can remove more when generations tie in
  block number and publication time (`Retention.TiedRanksCanReplan`); it removes nothing
  under every listing exactly when every kept generation is safe (`Publication.StableExactly`),
  and distinct ranks suffice (`Publication.CompletedPruneIsStable`).
- A crash between creating the ownership table and inserting the owner row is final: no later
  open succeeds (`Control.CrashBeforeOwnerIsFinal`). From any state, an open from a home can
  still return exactly when the table is absent, its row names that home, or its creator is a
  running open of that home that has yet to insert the row (`Control.RecoverableExactly`).
- A checkpoint at a block from the source's first up to, but not at, the prefix's last is not
  continued although every later block is still stored (`Native.ContinuationsStand` gives the
  exact condition); such a checkpoint is reachable (`Native.RefusedContinuationHappens`).
- A first ingestion interrupted after its first row, or with a torn cursor file, before any
  cursor points at a block leaves a source that neither ingestion nor recovery ever accepts again
  (`Native.StuckHappens`, `Native.StuckForGood`); an idle source can ingest again exactly when it
  is not in that state (`Native.ResumableExactly`).

## Model

| member | source | states |
|---|---|---|
| `Words.SkipZeros` | src/persist.rs:65-71 | the loop strips exactly the leading zero bytes |
| `Words.SameWord` | src/persist.rs:59-75 | comparing stripped digits is exactly comparing the 256-bit numbers |
| `Trace.NoOpWritesOldValue` | src/persist.rs:59-75 | a record the mapper calls a no-op writes the value it read |
| `Persist.SenderIndex` | src/persist.rs:143-149 | picks the sender's own increment of smallest positive ordinal, the first on ties, and none only when there is none |
| `Persist.Collector.EmitCallAll` | src/persist.rs:90-111 | pushes exactly the call's effective, selected records, in order |
| `Persist.Collector.CollectTransaction` | src/persist.rs:113-180 | emits the selected surviving records of a committed or failed transaction in visiting order (which ones they are: `Survival.SurvivingPlaces`); fails exactly on a failed SetCode transaction without an ordinal boundary |
| `Persist.Collector.CollectBlock` | src/persist.rs:182-204 | emits the selected surviving records of system calls, block lists and all transactions, in that order (which ones: `Survival.SurvivingPlaces`) |
| `Persist.Collect` | src/lib.rs:110-162 | the four output lists are the selected surviving records, stably sorted by ordinal (over the block's own lists: `Survival.CollectedPlaces`) |
| `Survival.SurvivingPlaces` | src/persist.rs:113-204 | the surviving records of a block are those at these positions, each once and in visiting order: every list of every system or committed call that was not reverted, the block's own balances and codes, and of a failed transaction's root call the gas-reason balances, the sender's first increment and the accepted authorities' nonces and codes before the call begins |
| `Survival.CollectedPlaces` | src/lib.rs:110-162 | each output list holds exactly the surviving records of its kind that change something and whose account is selected, each position once, by ordinal and in visiting order among equals |
| `Survival.CollectedTimes` | src/persist.rs:90-204 | a record comes out once for every position at which it survives, or never when it changes nothing or its account is not selected |
| `Survival.RefusedBlock` | src/persist.rs:154-159 | collecting fails exactly for a failed transaction with an authority that was not discarded and no begin ordinal on its root call |
| `FailedTransactions.FailedKinds` | src/persist.rs:133-180 | a failed transaction emits no storage and only gas-reason balances |
| `FailedTransactions.FailedOnce` | src/persist.rs:146-178 | no record of the root call is emitted twice |
| `FailedTransactions.FailedTransactionRollsBack` | src/persist.rs:113-180 | replaying the emitted records leaves every nonce, code and slot as the pre-execution phase alone would (EIP-7702, Specification) |
| `Lifecycle.ExecutionAddress` | src/lifecycle.rs:11-22 | ends within the number of calls plus one steps at the nearest non-delegated ancestor; with unique indices fails exactly when no complete chain exists |
| `Lifecycle.NoChainThroughCycle` | src/lifecycle.rs:15-17 | a repeated index means that no ancestry chain ever completes |
| `Lifecycle.NoChainPastDeadEnd` | src/lifecycle.rs:18-19 | a missing parent means that no ancestry chain completes |
| `Lifecycle.ContextIs` | src/lifecycle.rs:11-22 | the walk ends at an account exactly when an ancestry of delegate and callcode calls, by first parents and without a repeated index, ends in a call at that account |
| `Lifecycle.Deletions` | src/lifecycle.rs:24-50 | maps exactly the accounts that a transaction wipes, each to the greatest deletion ordinal, and fails exactly where scheduling fails (`Lifecycle.DeletionsRefused`) |
| `Lifecycle.DeletionMapMeans` | src/lifecycle.rs:24-50 | an account is mapped exactly when a successful transaction deletes it under the fork rule, to the greatest such end ordinal (EIP-6780, Specification) |
| `Lifecycle.MapHoldsWiped` | src/lifecycle.rs:24-50 | an account is mapped exactly when a committed SELFDESTRUCT of a successful transaction runs in its context and, from time 1718863500 on, a committed creation of the account is in the same transaction; to the greatest end ordinal of those transactions (EIP-6780, Specification) |
| `Lifecycle.DeletionsRefused` | src/lifecycle.rs:30-48 | scheduling fails exactly for a committed SELFDESTRUCT of a system call, one without a context, or a deleting one at or after the transaction's end ordinal |
| `Projection.Project` | src/block_state.rs:29-132 | fails exactly on blocks that are not acceptable (`Patches.AcceptedExactly`) and otherwise returns the block's patch (`Patches.PatchRows`, `Patches.PatchMarks`) |
| `Projection.CollapsedRow` | src/block_state.rs:52-92 | collapsing keeps the last listed value of each key |
| `Projection.ApplyDeletions` | src/block_state.rs:106-122 | the deletion loop drops older slots and zeroes older fields of each deleted account, independently of order |
| `Projection.ProjectionUniqueRows` | src/block_state.rs:52-60 | a patch holds one row per key, which makes the checkpoint argMax well defined |
| `Projection.ProjectionWithinFilter` | src/block_state.rs:106-131 | rows and resets of a patch belong to the selected accounts |
| `Projection.ProjectionRefinesReplay` | src/block_state.rs:45-122 | applying the patch equals replaying the sorted surviving records interleaved with all deletions, destroy and recreate cycles included |
| `Projection.ProjectionExactness` | src/block_state.rs:106-122 | for every key, projection equals replay if and only if the key's last write does not tie with the account's deletion |
| `Projection.TieKeepsBalance` | src/block_state.rs:113-115 | a concrete block where a balance written at the deletion ordinal outlives the account |
| `Projection.FieldMarkMeans` | src/block_state.rs:67-86 | nonce_reset and code_cleared marks are exactly the selected surviving records that lower a nonce or leave no code |
| `Patches.PatchRows` | src/block_state.rs:55-122 | the rows of a patch are exactly the last written ones (new word, amount, nonce or code, the empty code hash for none) that no deletion undoes, and the zero balances, nonces and codes that a later deletion leaves |
| `Patches.LastWriteIsPublished` | src/block_state.rs:55-92 | the last wanted write to a key, when no deletion undoes it, is the key's one row |
| `Patches.PatchMarks` | src/block_state.rs:67-111 | each kind of lifecycle mark exactly: lowered nonces, emptied codes, committed SELFDESTRUCTs of selected accounts at the call's end ordinal, and the last deletion of each selected account |
| `Patches.AcceptedExactly` | src/block_state.rs:29-51 | projected are exactly complete blocks (extended, version 3 to 5, 32-byte hashes, one number, a valid timestamp, known statuses, no transaction without calls) of a nonempty selection, without a refused transaction or deletion and without a wanted record whose key, word or code hash does not fit |
| `Patches.RunIsInterval` | src/block_state.rs:124-131 | the patches of a run of accepted blocks pass interval validation up to the last header exactly when every block names its predecessor's hash, and the first one the hash of the prefix or the base |
| `Trace.EmptyCodeHash` | src/block_state.rs:12 | the code hash of an account without code |
| `Replay.LastEventDecides` | src/block_state.rs:52-53 | after a replay a key holds what its last deciding event wrote |
| `Aggregation.WinnerIsFold` | crates/evm-state/src/checkpoint.rs:155-193 | for one key, the winner among versions after the latest reset is what block-by-block application leaves |
| `Aggregation.AggregationIsSequential` | crates/evm-state/src/checkpoint.rs:378-419 | union, reset mask, argMax and zero removal give exactly the nonzero slots of applying the patches one by one |
| `Aggregation.UniqueWinner` | crates/evm-state/src/checkpoint.rs:419 | the argMax of every slot has one winner |
| `Aggregation.UniqueFieldWinner` | crates/evm-state/src/checkpoint.rs:225-238 | so has the argMax of every field: a code's hash and bytes, selected separately, come from one row |
| `Aggregation.AggregateWithin` | crates/evm-state/src/checkpoint.rs:403-419 | no row outside the cohorts and the base, and no zero |
| `Aggregation.ObservedIsSequential` | crates/evm-state/src/checkpoint.rs:195-256 | observed balances, nonces and codes are those of sequential application; an unobserved field was never written |
| `Compaction.CompactionTransparent` | crates/evm-state/src/bootstrap.rs:244-259 | compacting a prefix plus later blocks stores exactly what compacting the whole raw interval stores |
| `Compaction.CompactionsStandFor` | crates/evm-state/src/bootstrap.rs:196-275 | any sequence of compactions still stands for the raw history |
| `Compaction.SelectedPrefixStands` | crates/evm-state/src/bootstrap.rs:102-121 | a range from the prefix's start gets it and stands for the raw history, a range inside it is refused, a later one is read raw |
| `Compaction.PublishedSlotsTransparent` | crates/evm-state/src/checkpoint.rs:171-179 | publication over several sources and a base gives the same slots from compacted as from raw sources |
| `Compaction.PublishedFieldsTransparent` | crates/evm-state/src/checkpoint.rs:209-224 | and the same observed fields, also where a prefix meets a base of its accounts |
| `Compaction.PrefixOverBaseExactness` | crates/evm-state/src/checkpoint.rs:171-186 | at every target block, prefix over base is exact for a slot if and only if not: the base holds it, the prefix dropped it though its interval touched it, and no later block touches it |
| `Compaction.PrefixOverBaseFields` | crates/evm-state/src/checkpoint.rs:201-251 | prefix over base is always exact for balances, nonces and codes |
| `Compaction.ReachingStands` | crates/evm-state/src/bootstrap.rs:216-259 | blocks stored from the prefix's last block to the tip, with the prefix, stand for the raw history and compact to the same rows |
| `Compaction.PrefixOverBaseResurrects` | crates/evm-state/src/bootstrap.rs:152-169 | a concrete base, block and slot where the merge brings a cleared value back |
| `Compaction.RawBlockClears` | crates/evm-state/src/checkpoint.rs:179-186 | the same block uncompacted clears it |
| `EndToEnd.FoldIsReplay` | src/block_state.rs:45-122 | applying the projected patches of a run one by one is replaying its traces |
| `EndToEnd.CheckpointSlotsAreReplayed` | crates/evm-state/src/checkpoint.rs:416-419 | published slots are exactly the nonzero slots of the replayed chain, compacted or not |
| `EndToEnd.CheckpointFieldsAreReplayed` | crates/evm-state/src/checkpoint.rs:420-437 | published fields are the replayed ones; an unobserved field kept its starting value |
| `EndToEnd.CompactedCohort` | crates/evm-state/src/bootstrap.rs:216-259 | every sequence of compactions of a traced source qualifies for the two theorems above |
| `EndToEnd.FirstCheckpointIsReplayed` | crates/evm-state/src/checkpoint.rs:416-437 | in every reachable state of a source that no checkpoint covers, compaction interrupted or not, what is stored publishes the replayed chain at every saved block from the prefix on |
| `EndToEnd.ContinuationIsReplayed` | crates/evm-state/src/checkpoint.rs:378-437 | in every reachable state, after any compactions and cleanups, a protected checkpoint that no prefix reaches beyond is continued to the replayed chain |
| `Chain.ChainIsReplayed` | crates/evm-state/src/checkpoint.rs:352-437 | any chain of checkpoints, each over the one before, adding accounts on the way and reading new sources compacted or not, holds what replaying every account's whole history leaves; no base is assumed correct |
| `Chain.BuildReplays` | crates/evm-state/src/checkpoint.rs:416-437 | one build over a base that holds the replayed state publishes the replayed state |
| `Chain.PublishedIsValid` | crates/evm-state/src/checkpoint.rs:363-368 | a build that preserves its base's accounts publishes rows of its own accounts only, no zero among the slots |
| `Chain.SplitRun` | src/block_state.rs:45-122 | replaying two runs in turn is replaying their concatenation, and well-formedness splits with it |
| `Interval.ValidateInterval` | crates/evm-state/src/checkpoint.rs:108-153 | succeeds if and only if every height has one valid row, parents chain from prefix or base and the tip matches the header; counts end - start + 1 without overflow |
| `Interval.TargetDeterminesRows` | crates/evm-state/src/checkpoint.rs:136-151 | where equal hashes mean equal rows, two tables valid for one range and target hold the same row at every height |
| `Interval.CheckRow` | crates/evm-state/src/checkpoint.rs:137-145 | accepts a row exactly when it extends the chain |
| `Interval.CheckRange` | crates/evm-state/src/checkpoint.rs:109-135 | accepts exactly the valid ranges and prefixes |
| `Interval.LoopMeans` | crates/evm-state/src/checkpoint.rs:136-151 | scanning the sorted query result is equivalent to the statement about the unsorted table |
| `Retention.LatestForAccount` | crates/evm-state/src/retention.rs:39-52 | maps every account to the first listed generation that holds it |
| `Retention.PlanRetention` | crates/evm-state/src/retention.rs:20-72 | keeps exactly the latest few, the first of every account and the pins, removes every other partition; fails exactly for a zero count or a missing pinned generation |
| `Retention.KeepsNewest` | crates/evm-state/src/retention.rs:39-52 | each account of a ready generation keeps one at least as new |
| `Retention.GreatestIsKept` | crates/evm-state/src/retention.rs:24-52 | of the generations that hold an account, the one of greatest block number, and of latest publication at that number, is kept |
| `Retention.RemovedIsSuperseded` | crates/evm-state/src/retention.rs:24-70 | for each account of a generation that goes, a kept one holds it at a block number at least as great, published no earlier at the same number |
| `Retention.KeptIsRecent` | crates/evm-state/src/retention.rs:33-52 | what is kept without a pin has fewer than keep_latest generations after it, or an account that none after it holds |
| `Retention.ReplanRemovesNothing` | crates/evm-state/src/retention.rs:20-72 | with distinct ranks, planning again over what was kept keeps everything |
| `Retention.KeptUnderEveryListing` | crates/evm-state/src/retention.rs:24-52 | a generation is kept under every order of ties if and only if it is safe |
| `Retention.TiedRanksCanReplan` | crates/evm-state/src/retention.rs:24 | two tied generations where a second plan drops what the first kept |
| `Publication.StepKeepsInv` | crates/evm-state/src/control.rs:105-121 | every step of every process, crashes included, keeps lock exclusion, readiness, candidates, prune plans, pins and newest generations |
| `Publication.ReadyInEveryRun` | crates/evm-state/src/checkpoint.rs:419-496 | in every interleaving a manifest row that is present has all its account and storage rows, and every pin names a ready generation |
| `Publication.NewestGenerationSurvives` | crates/evm-state/src/retention.rs:80-93 | every account ever published keeps a ready generation at least as new, across any number of prunes |
| `Publication.NewestNumberSurvives` | crates/evm-state/src/retention.rs:24-93 | the same in numbers: some ready generation holds the account at a block number at least as great, published no earlier at the same number |
| `Publication.PinnedPagesNeverChange` | crates/evm-state/src/reader.rs:25-60 | while a pin exists its generation and rows never change |
| `Publication.PinLastsUntilUnpinned` | crates/evm-state/src/reader.rs:25-60 | over every run a pin lasts, on the same ready generation, exactly until a step removes that very pin, and never returns |
| `Publication.InterruptionLeavesNothing` | crates/evm-state/src/retention.rs:80-93 | stop any publication before its manifest row, or any prune after it dropped one, in any reachable state: the generation is never published afterwards, and every prune that then finishes removes all of it for good |
| `Publication.OrphansAreRemoved` | crates/evm-state/src/retention.rs:62-93 | the same for every orphan: no later state publishes it, a finished prune leaves none of its rows and none return |
| `Publication.OrphanStep` | crates/evm-state/src/retention.rs:62-66 | no step of any process publishes an orphan or brings back its rows |
| `Publication.LeftoversAreOrphans` | crates/evm-state/src/retention.rs:62-70 | in every reachable state in which nobody writes, everything stored is ready or an orphan |
| `Publication.PruneCanFinish` | crates/evm-state/src/retention.rs:75-93 | from any reachable quiet state, a prune over any listing can be planned and run to its end |
| `Publication.CompletedPrune` | crates/evm-state/src/retention.rs:80-93 | a prune that runs to its end leaves exactly the kept generations, as published |
| `Publication.CompletedPruneIsStable` | crates/evm-state/src/retention.rs:20-93 | planning again right away removes nothing when ranks are distinct |
| `Publication.StableExactly` | crates/evm-state/src/retention.rs:20-93 | without distinct ranks, nothing is removed under every listing if and only if every kept generation is safe |
| `Publication.ManifestStep` | crates/evm-state/src/importer.rs:126-174 | writing the manifest of a checked candidate, built or imported, keeps the invariant |
| `Publication.PublishCanFinish` | crates/evm-state/src/checkpoint.rs:419-496 | whenever nobody writes, a fresh generation can be published with its rows going in in any batches, by a build or an import, leaving pins and other processes alone |
| `Native.StepKeepsInv` | crates/evm-state/src/bootstrap.rs:196-275 | every sink, save, recover, compaction and cleanup step, and a crash anywhere, keeps the source's invariant |
| `Native.CompactionLosesNothing` | crates/evm-state/src/bootstrap.rs:123-150 | at every point of every run the prefix file names a complete generation equal to the raw compaction, and every block from it to the durable tip is stored |
| `Native.RetryReachesSameState` | crates/evm-state/src/bootstrap.rs:196-275 | after any number of interruptions compaction can be retried, and an attempt that finishes leaves the state of an uninterrupted run up to the generation's name |
| `Native.RetryCanFinish` | crates/evm-state/src/bootstrap.rs:196-275 | from any point of any attempt some continuation finishes |
| `Native.ProgressNeverDecreases` | crates/evm-state/src/cursor.rs:194-217 | over every run from a state that keeps the invariant, the saved block and the prefix only move forward |
| `Native.ProgressIsBacked` | crates/evm-state/src/cursor.rs:129-166 | the saved block always has its row and its marker |
| `Native.RecoveryRestoresCursor` | crates/evm-state/src/ingest.rs:348-364 | recovery is always possible from saved progress, makes the native cursor the saved one, and ingestion can resume |
| `Native.ResumableExactly` | crates/evm-state/src/ingest.rs:464-506 | an idle source can ever ingest again if and only if it is not stuck: nothing saved, no cursor pointing at a block, but rows or a cursor file present |
| `Native.StuckForGood` | crates/evm-state/src/ingest.rs:471-479 | no run from a stuck state ever enables ingestion or recovery |
| `Native.StuckHappens` | crates/evm-state/src/cursor.rs:168-192 | a stuck state is reachable |
| `Native.RefusedContinuationHappens` | crates/evm-state/src/bootstrap.rs:110-114 | a reachable state with a protected checkpoint below the prefix, every later block stored, and its continuation refused |
| `Native.ContinuationsStand` | crates/evm-state/src/bootstrap.rs:102-121 | in every reachable state the range after a protected checkpoint stands for the raw history, and is refused exactly when it begins inside the prefix |
| `Native.StoredThrough` | crates/evm-state/src/bootstrap.rs:123-150 | in every reachable state without a covering checkpoint, the stored source stands for the raw history at every saved block from the prefix on |
| `Native.ContinuationsSurvive` | crates/evm-state/src/history.rs:141-210 | for every retained checkpoint that could be continued when it was published, every later block stays stored over every run |
| `History.PlanBefore` | crates/evm-state/src/history.rs:141-210 | the bound separates exactly the needed heights from the others; fails exactly on the listed refusals |
| `History.CleanupKeepsContinuations` | crates/evm-state/src/history.rs:24-57 | after any subset of the planned drops, continuations, the last keep_blocks blocks and the cursor's block survive |
| `History.DropKeepsRest` | crates/evm-state/src/history.rs:44-57 | an interrupted cleanup that is planned again ends where an uninterrupted one does |
| `History.BoundProtects` | crates/evm-state/src/history.rs:186-206 | the bound never passes the first block a retained checkpoint needs |
| `Bootstrap.ReplayRun.Replay` | crates/evm-state/src/bootstrap.rs:279-345 | ends at stop - 1 with the raw compaction whatever the chunk size and earlier interruptions, and fails only for the listed reasons |
| `Bootstrap.ReplayRun.Turn` | crates/evm-state/src/bootstrap.rs:308-344 | one turn compacts and then finishes or makes progress towards the stop block |
| `Bootstrap.ReplayRun.Ingest` | crates/evm-state/src/ingest.rs:482-500 | success means that the cursor is exactly at the bound minus one |
| `Bootstrap.ReplayRun.CompactTip` | crates/evm-state/src/bootstrap.rs:196-275 | the prefix becomes the raw compaction through the tip, unless a checkpoint covers the accounts |
| `Control.StepKeepsInv` | crates/evm-state/src/control.rs:38-103 | every step of racing, crashing opens keeps one owner at most and agreement |
| `Control.ControllersAgree` | crates/evm-state/src/control.rs:38-103 | at most one owner row ever exists and all opens that return, return that owner |
| `Control.NoBindingAfterTable` | crates/evm-state/src/control.rs:58-66 | once the table has been seen no run binds another home: an open from a home without a binding leaves nothing behind |
| `Control.ReturnIsRecorded` | crates/evm-state/src/control.rs:81-97 | an open that returned has left its controller in the owner row and in the binding and marker of one and the same home |
| `Control.CrashBeforeOwnerIsFinal` | crates/evm-state/src/control.rs:77-81 | a table without its owner row is never recovered |
| `Control.CrashBeforeOwnerHappens` | crates/evm-state/src/control.rs:79-80 | that crash is reachable |
| `Control.RecoverableExactly` | crates/evm-state/src/control.rs:58-97 | from any state, an open from a home can still return if and only if the table is absent, its row names the home, or its creator is a running open of that home |
| `Paging.CursorsAreBound` | crates/evm-state/src/reader.rs:87-145 | a cursor that a page hands out is accepted, with any valid limit, for the checkpoint and account it was issued for and for no other |
| `Paging.PageAdvances` | crates/evm-state/src/reader.rs:129-141 | a page is the next rows in order, as many as the limit allows, and its cursor points just behind them; it has one exactly when rows follow |
| `Paging.PaginationReadsEverything` | crates/evm-state/src/reader.rs:106-145 | following next_cursor with any limits ends and yields every slot once, ascending |
| `Paging.WriteAccount` | crates/evm-state/src/export.rs:447-453 | an account's rows become full pages and a shorter last one; fails exactly when the page index is used up |
| `Paging.ExportPages` | crates/evm-state/src/export.rs:441-454 | what is written passes every check of the verifier and holds each account's rows; exact failure condition |
| `Paging.PageReader.ReadNext` | crates/evm-state/src/export.rs:149-195 | returns the rows of a page in order and ends only on a page that matches its entry |
| `Paging.ReadPageFile` | crates/evm-state/src/export.rs:122-233 | succeeds exactly on a good page that continues the account's rows |
| `Paging.GroupPages` | crates/evm-state/src/export.rs:302-320 | accepts exactly consecutive numbering, known accounts and account order |
| `Paging.VerifyPages` | crates/evm-state/src/export.rs:302-360 | accepts exactly the valid layouts and reads each account back in order |
| `Paging.RoundTrip` | crates/evm-state/src/export.rs:441-457 | every export that is written is accepted and reads back the same slots |
| `Paging.PagesRoundUp` | crates/evm-state/src/export.rs:449-453 | the page count is rows divided by page size, rounded up |
| `Header.DecodeEncoded` | crates/evm-state/src/header.rs:74-83 | decoding undoes RLP encoding and leaves what follows (Appendix B of the Yellow Paper) |
| `Header.DecodedIsEncoded` | crates/evm-state/src/header.rs:74-83 | decoding accepts nothing but canonical encodings |
| `Header.EncodeRpcHeader` | crates/evm-state/src/header.rs:35-65 | encodes the fields through the last present one, gaps empty; succeeds exactly when every field has its length or width and the hash matches |
| `Header.HeaderFields` | crates/evm-state/src/header.rs:9-58 | a header has encodable fields exactly when every field has its byte length (32, 32, 20, 32, 32, 32, 256 at 0 to 6, 32 and 8 at 13 and 14, 32 for the fork hashes), its quantity below 2^256 or 2^64, or is an absent fork field; the fields are then those bytes and digits, through the last present one |
| `Header.WellSizedEncodes` | crates/evm-state/src/header.rs:35-58 | every such header has fields, so that encoding can only fail on its hash |
| `Header.EncodesExactly` | crates/evm-state/src/header.rs:72-103 | a verified encoding is exactly a canonical list of 15 to 23 byte strings of those lengths and widths within 104448 bytes |
| `Header.Framing` | crates/evm-state/src/header.rs:40-58 | the bytes that precede a payload (Appendix B of the Yellow Paper) |
| `Header.ParseFields` | crates/evm-state/src/header.rs:78-88 | splits a payload into its one reading, and fails exactly when there is none of at most 23 fields |
| `Header.DecodeHeader` | crates/evm-state/src/header.rs:72-103 | succeeds exactly for a canonical list of good fields within the size cap (in lengths: `Header.EncodesExactly`) |
| `Header.VerifyHeader` | crates/evm-state/src/header.rs:67-133 | accepts if and only if the encoding is canonical, its fields are good, the hashes match and the summary agrees |
| `Header.EncodedHeaderIsAccepted` | crates/evm-state/src/header.rs:35-133 | every header that encodes within the cap is accepted with its summary, and parsing recovers exactly its fields, a null optional field as empty bytes |
| `Header.RoundTrip` | crates/evm-state/src/header.rs:35-133 | encoding followed by verification returns the block hash |
| `Header.PayloadAppend` | crates/evm-state/src/proof.rs:47-58 | list payloads are the concatenated item encodings |

## Left out

- Hashes, trie roots, storage proofs, SQLite sorting, gzip and the cursor cipher are foreign libraries; a digest stands for the content it covers, and keccak is a function parameter.
- ClickHouse, JSON-RPC, psql, gRPC, subprocess and file-system plumbing; only table, file and lock effects are modelled, and tables are values the steps replace, so part merging and inactive parts are not captured.
- Capacity, disk-budget and deadline guards: a guard that fails is the `Exit` step.
- JSON and hex text, canonical ordering of JSON, parameter parsing and the database view for PostgreSQL: the text layer turns values into fixed-width hex and sorted-key JSON and back, and carries no state.
- The five ordered maps of the projection are one map from key to row, and the row lists of a patch are sets; the order of rows inside a patch is not modelled.
- The reset mask "position greater than the account's greatest reset" is stated as "after every reset of the account".
- Publication: locks follow from the phase of a process; blocked lock requests and lock-file creation are not steps. Storage proofs are the `ProveStorage` and `CheckCandidate` steps.
- Native: the preparation phases of a run, the native child process and the sink's spool are not modelled; the sink appears through its durable writes. That retirement never removes the last checkpoint of an account is `Publication.NewestGenerationSurvives`.
- Native: the order in which rows, markers and superseded generations are dropped is free, which covers the order the program uses.
- Control: host matching and restored or moved control directories; a home is identified with its directory.
- Header: fields arrive as what their text parses to; hex parsing is not modelled.
- Bootstrap.ReplayRun.Ingest: models the native sink by where it stops, because the child process is outside the program.
- Importer: reuse of an old manifest's content is a publication with a fresh identifier; its provenance record is not modelled.
- Cursor payload parsing, storage-sort poisoning, host recovery, source admission checks and qualification commands.
