# Civilization: verified models of the chain indexer, the planners and the wallet protocol

This project models the state-changing core of the Civilization dapp in Dafny and proves what its
documentation and tests rely on.

- **The chain indexer** (`server/chain-indexer-core.js`, `-store.js`, `-reader.js`) keeps a database copy of a
  finalized chain that can still reorganise. `IndexerCore` orders logs and plans a reorganisation, `IndexerStore`
  says what one store transaction makes of the three tables, and `FinalizedIndex` performs that transaction
  statement by statement on a connection that may fail anywhere. `IndexerInvariant` holds for arbitrary, even
  dishonest, callers. `IndexerSuccess` says when storing succeeds, `IndexerRefusals` and `StoreRefusals` which
  refusal belongs to which fault. `IndexerRefinement` shows that the incremental index equals one built from
  scratch: the parent-hash ancestry of its checkpoint and the logs of those blocks. `IndexerReader` says what is
  read from whatever an endpoint answers; with `ReplayProgress` it covers the loop over overlapping ranges and when
  a resumed replay leaves what a fresh one leaves.
- **Private history paging** (`server/chain-indexer-raid-history.js`, `-build-history.js`): `EventDecoding`,
  `History` and `HistoryRuns` go from the ABI words to a client that follows cursors while batches are stored.
- **The construction planner** (`src/world-game/build-planner.js` with the rules of
  `src/world-game/projections.js`): `DependencySearch`, `SearchOrder`, `PlanExistence`, `BuildPlanner`,
  `PlanSoundness`, `PlanResult`, `PlanRefusals`, `PlanLimits`, `ContractPlan`, `ContractNext`; prices and capacities
  are in `ContractCurves`.
- **The pending-transaction protocol** of `src/world-game/adapter.js`: `WalletAdapter`.
- **The demo economy** of `src/game.js`: `DemoEconomy`, `EconomyInvariant`, `EconomyLaws`, `EconomyRules`,
  `DemoGame`.
- **The duration policy** of `src/simulation/policy-130-simulator.js`: `PolicySimulator`.

Code that updates things in place is a class or a loop here too, and each such method is proved equal to a
function of its inputs or of the old state; the theorems are about those functions. Run
`dafny verify dfyconfig.toml` to check everything.

Assumptions, stated where they are used and nowhere else:

- `IndexerRefinement.Coherent` and `Honest`: a block hash determines the block's parent, time and logs, and a
  batch holds its blocks as they are with all their logs. Without honesty a checkpoint does not fix the events:
  `SameTipMayGainLogs` stores one more log under an unchanged tip, and `SameTipKeepsTablesIff` says exactly when such
  a batch changes nothing. The structural invariant does not need this.
- `ReplayProgress.TrueChain` and `Serves`: for liveness, the served chain repeats no block hash and no event key,
  and the endpoint answers with it.

Where the code does not do what its text or a reader might suggest, the model follows the code and the exact
condition is proved:

- `adapter.js:75` says that losing session storage must not alter transaction safety. A second send while the first
  operation is outstanding is possible in four ways: a page load after the record was lost (`LostRecordSendsTwice`),
  a page load during a send, even with working storage (`OpenRequestSendsTwice`), an answer that turns down an
  accepted operation, as for another account (`DisownedSendsTwice`), and a send call that throws while the wallet's
  request stays open and is accepted later (`AbandonedSendsTwice`). `RunsNeverSendTwiceIff` says over all runs of the
  modelled events that these are the only ones.
- New steps wait for their declared requirements exactly when the clock is not before time zero
  (`PrecedenceHoldsIff`): the planner reads a completion time of 0 as missing.
- They do not wait for the building's own level below; consecutive levels may be planned for the same time
  (`TwoCampsAtOnce`), and `LevelsRunInOrderIff` says exactly when they never are.
- The step offered as next may sit above a level still under construction (`NextAboveRunningJob`);
  `NextCanBeginIff` says exactly when it can always be begun at once, whatever rules and prices are handed in. The app
  hands in the contract's (`src/app.js:385-403`), whose prices and requirements rise with the level: then it can, on
  any slots, without running jobs, from time zero on and with steps that take time, and `ContractNextCanBeginIff` is
  the exact condition.
- Running jobs that share a slot are not rejected; new steps stay clear of them exactly when the job listed last ends
  last (`PlansStayClearIff`), and the plan ends in the expected time exactly when no job outlasts the latest slot
  (`PlansEndInTimeIff`).
- The order in which logs are read can show in the result exactly when two contracts share a sort key
  (`NormalizationIsOrderFreeIff`).
- A resumed replay may fail: `ResumeSucceedsIff` gives the exact condition, for indexes younger than the rollback depth
  and configured starts above or below the stored one as well.
- A settle in between changes the field stock exactly when time beyond eight hours would have been cut off and the
  field is not full by then (`DetourIsHarmlessIff`, `DetourMayGain`). A direct raid can strand a pending march
  (`DirectRaidStrandsMarch`).
- `docs/ISSUE-130-SIMULATION-POLICY.md:24-28` lists 11, 20 and 30 civic levels for a day, a week and 30 days on the
  steady curve and 14, 27 and 30 on the accelerated one, as generated by the simulator. The simulator's own curves
  give 17, 29 and 30, and 20, 30 and 30 (`CivicHorizons`).

## Model

| member | source | states |
|---|---|---|
| IndexerCore.UniqueLogs | server/chain-indexer-core.js:121-131 | Walking the sorted logs keeps each distinct log once, in first-occurrence order, and stops exactly when two different logs share an event id. |
| IndexerCore.NormalizeAndSortLogs | server/chain-indexer-core.js:111-132 | The loop computes the canonical list of the logs, or the same error for a value out of range or a conflicting duplicate. |
| IndexerCore.CanonicalLogsShape | server/chain-indexer-core.js:110-132 | A normalized list holds exactly the logs given, in canonical execution order, with no event id twice. |
| IndexerCore.CanonicalLogsStrict | server/chain-indexer-core.js:114-120 | For logs of one contract the order is strict: no two entries compare equal. |
| IndexerCore.NormalizationDependsOnTheSet | server/chain-indexer-core.js:111-132 | For logs of one contract every permutation and repetition gives the same list or the same error. |
| IndexerCore.NormalizationIsIdempotent | server/chain-indexer-core.js:111-132 | Normalizing a normalized list changes nothing. |
| IndexerCore.SortIsStable | server/chain-indexer-core.js:114-120 | Logs that compare equal leave the sort in the order they were read. |
| IndexerCore.ReadingOrderShows | server/chain-indexer-core.js:114-131 | If two different logs share a sort key, reading one or the other first gives two different results. |
| IndexerCore.NormalizationIsOrderFreeIff | server/chain-indexer-core.js:111-132 | Reading order never shows if and only if no two logs of different contracts share a sort key. |
| IndexerCore.SortedBlocks | server/chain-indexer-core.js:154-174 | The loop over sorted headers returns them, or the first fault walking up: a height twice, or adjacent headers that are not linked. |
| IndexerCore.SortedHeadersShape | server/chain-indexer-core.js:154-174 | Accepted headers come out as the same set, strictly rising, and linked wherever heights are adjacent; gaps are allowed. |
| IndexerCore.FindAncestor | server/chain-indexer-core.js:190-206 | The collected ancestors, sorted from high to low, give the common ancestor. |
| IndexerCore.CheckReplay | server/chain-indexer-core.js:218-225 | The moving predecessor finds the first gap or broken link above the ancestor. |
| IndexerCore.ReplayFaultIff | server/chain-indexer-core.js:218-225 | No fault is found if and only if the replay continues the ancestor without a gap or a broken link. |
| IndexerCore.HighestAncestor | server/chain-indexer-core.js:190-207 | The ancestor taken is a stored block that an observed block equals or names as parent, and no higher stored block is; none is found only if there is none. |
| IndexerCore.PlanReplay | server/chain-indexer-core.js:208-232 | From the ancestor: refuse a chain ahead or a depth over the limit, otherwise replay the observed blocks above it. |
| IndexerCore.PlanReorgRollback | server/chain-indexer-core.js:180-233 | The whole planner, with every error in the order the code raises it. |
| IndexerCore.PlanIsMinimalAndSplices | server/chain-indexer-core.js:176-233 | A plan has the highest possible ancestor, a depth within the limit, replays exactly the observed blocks above it, and the replay continues the ancestor as one hash-linked run. |
| IndexerCore.PlanSucceedsIff | server/chain-indexer-core.js:180-233 | For ordered inputs a plan is found if and only if the checkpoint is stored and some plan is minimal and splices; it is then that plan. |
| IndexerCore.NoAncestorIff | server/chain-indexer-core.js:196-207 | reorg_common_ancestor_not_found is raised if and only if no observed block equals or names a stored one. |
| IndexerStore.NormalizeBlocks | server/chain-indexer-store.js:47-69 | A batch is accepted as its blocks in height order, or refused for the first duplicate height, gap or broken link. |
| IndexerStore.CheckLogs | server/chain-indexer-store.js:161-167 | The first log of another contract, or of no supplied block, decides the error. |
| IndexerStore.PrepareBatch | server/chain-indexer-store.js:141-172 | Everything checked before the transaction, with the errors in the code's order. |
| IndexerStore.AssertSameBlocks | server/chain-indexer-store.js:86-101 | The comparison accepts exactly equal lists of blocks. |
| IndexerStore.AssertSameLogs | server/chain-indexer-store.js:119-134 | The comparison by sorted event ids accepts exactly equal sets of logs, whatever order the rows come in. |
| IndexerRefusals.LogRefusals | server/chain-indexer-core.js:111-131 | Logs are refused for a number out of range, or else for two different ones under one id, and for nothing else. |
| IndexerRefusals.HeaderRefusals | server/chain-indexer-core.js:145-174 | Sorted headers are refused for a number out of range, or else for the first that repeats a height or is not linked to its neighbour. |
| IndexerRefusals.PlanInputRefusals | server/chain-indexer-core.js:180-195 | Faults of the checkpoint, of the stored and of the observed headers come in this order; then a checkpoint that is not stored. |
| IndexerRefusals.PlanRefusals | server/chain-indexer-core.js:208-231 | For ordered inputs the highest common ancestor decides: observed chain ahead, reorganisation too deep, or the first gap or broken link of the replay, in this order; otherwise there is a plan. |
| IndexerRefusals.OrderRefusals | server/chain-indexer-store.js:58-67 | A height twice, a gap or a broken link is raised if and only if the first block, by height, that does not follow has that fault. |
| IndexerRefusals.ChainRefusals | server/chain-indexer-store.js:145-157 | Ranges of the blocks come before their order and the checkpoint after it; checkpoint_not_batch_tip belongs exactly to a sound chain that does not end at the checkpoint. |
| IndexerRefusals.BatchLogRefusals | server/chain-indexer-store.js:157-167 | For a chain that ends at its checkpoint: log ranges and contradictions first, then the first log, in execution order, that is foreign or of no supplied block; otherwise the batch goes on as sorted. |
| StoreRefusals.StorePlanRefusals | server/chain-indexer-store.js:194-225 | On a valid index planning refuses a lower tip as stale, a batch that reaches no stored block within the depth for want of an ancestor, and no other. |
| StoreRefusals.NoTailIsRefused | server/chain-indexer-store.js:198-225 | On any tables: a checkpoint with no stored block in reach below it is refused as invalid input. |
| StoreRefusals.ResupplyRefusal | server/chain-indexer-store.js:226-236 | replay_block_not_supplied is raised if and only if some planned header is borne by no block of the batch. |
| StoreRefusals.CommitRefusals | server/chain-indexer-store.js:241-306 | A splicing batch is refused for a hash that is taken, for blocks that do not read back, or for events that do not, each exactly when, in this order; otherwise it is stored. |
| StoreRefusals.FirstCommitRefusals | server/chain-indexer-store.js:191-306 | An empty index refuses a prepared batch for a hash that is in it twice, and for nothing else. |
| FinalizedIndex.PreparedKeysAreDistinct | server/chain-indexer-store.js:157-167 | A batch that passed the checks holds at most one log per (transaction hash, log index). |
| FinalizedIndex.FinalizedIndex.constructor | server/chain-indexer-store.js:173-189 | An index starts empty. |
| FinalizedIndex.FinalizedIndex.Query | server/chain-indexer-store.js:174-182 | Each statement uses up one of those the connection still carries out; when none is left it fails, and one that never fails always answers. |
| FinalizedIndex.EventRows | server/chain-indexer-store.js:299-305 | The events between two heights, each under its own key. |
| FinalizedIndex.ResupplyBlocks | server/chain-indexer-store.js:226-236 | Every planned header is replaced by the supplied block of the same height and hash, or the call fails. |
| FinalizedIndex.FinalizedIndex.ReadPlan | server/chain-indexer-store.js:183-239 | Reads checkpoint and tail and decides what to delete and replay; a lower tip is stale_checkpoint. |
| FinalizedIndex.FinalizedIndex.DeleteFrom | server/chain-indexer-store.js:241-252 | Deletes events and blocks from a height on, or nothing when no height is given. |
| FinalizedIndex.FinalizedIndex.InsertBlockRows | server/chain-indexer-store.js:254-269 | Inserts the blocks whose height is free, one statement each; a hash already stored fails. |
| FinalizedIndex.FinalizedIndex.InsertEventRows | server/chain-indexer-store.js:270-288 | Inserts the events whose key is free, one statement each. |
| FinalizedIndex.FinalizedIndex.WritePlan | server/chain-indexer-store.js:241-314 | Delete, insert, read back, compare, move the checkpoint: on success the tables are what the specification says. |
| FinalizedIndex.FinalizedIndex.StoreFinalizedEvents | server/chain-indexer-store.js:136-329 | One transaction: on success the tables are those of the specification and the receipt names tip and depth; on any failure, of the data or of the connection, all three tables are as before. |
| IndexerInvariant.NoBatchFault | server/chain-indexer-store.js:58-67 | A batch has no fault if and only if it is one contiguous hash-linked run. |
| IndexerInvariant.PrepareChecks | server/chain-indexer-store.js:145-167 | What a prepared batch is: one chain ending at its tip, logs of this contract and of its blocks, no key twice, nothing added or lost. |
| IndexerInvariant.ResupplyMembers | server/chain-indexer-store.js:226-236 | The blocks to insert are supplied blocks, one for each planned header, of its height and hash. |
| IndexerInvariant.AncestorMeans | server/chain-indexer-store.js:203-225 | Planning against the stored tail finds the highest stored block the batch vouches for, within reach of the checkpoint, and replays only what lies above it. |
| IndexerInvariant.PlanMeans | server/chain-indexer-store.js:194-239 | On a valid index the plan keeps the stored blocks up to the highest one the batch vouches for, which lies within reach of the checkpoint. |
| IndexerInvariant.CommitMeans | server/chain-indexer-store.js:191-313 | After a commit the tables hold the kept blocks and the batch, agreeing where they meet, the kept events, and in the batch's heights exactly its logs. |
| IndexerInvariant.FirstCommitIsValid | server/chain-indexer-store.js:191-313 | The first batch fixes the start height and gives a valid index with exactly its blocks and logs. |
| IndexerInvariant.CommitKeepsValid | server/chain-indexer-store.js:194-313 | A later batch, honest or not, keeps blocks contiguous, linked and ending at the checkpoint, events in stored blocks, the start height, and never lowers the checkpoint. |
| IndexerInvariant.StoreKeepsValid | server/chain-indexer-store.js:140-329 | The same for a whole call, successful or failed. |
| IndexerInvariant.RunKeepsValid | server/chain-indexer-store.js:140-329 | The same for any sequence of calls with any batches. |
| IndexerInvariant.ReachableIsValid | server/chain-indexer-store.js:140-329 | Every state reachable from an empty index is valid. |
| IndexerSuccess.WellFormedIsPrepared | server/chain-indexer-store.js:145-172 | One chain of blocks with well-formed logs of its own passes every check before the transaction. |
| IndexerSuccess.PlanSucceeds | server/chain-indexer-store.js:194-239 | What the plan is when the batch ends no lower than the checkpoint and the highest stored block it equals or names as parent, a plain append included, lies within reach. |
| IndexerSuccess.PlanSucceedsIff | server/chain-indexer-store.js:194-239 | On a valid index planning succeeds if and only if that is so. |
| IndexerSuccess.FreshRowsInsert | server/chain-indexer-store.js:254-269 | Rows with new heights and new hashes are all inserted and nothing else changes. |
| IndexerSuccess.CommitSucceeds | server/chain-indexer-store.js:191-314 | Such a batch that fits what is stored up to there is committed, with the right depth. |
| IndexerSuccess.CommitSucceedsIff | server/chain-indexer-store.js:191-314 | On a valid index a prepared batch is committed if and only if it ends no lower than the checkpoint, its ancestor lies within reach, it does not begin below the index, repeats blocks and events where they meet, and brings no hash or event key that lies elsewhere. |
| IndexerSuccess.FirstCommitSucceeds | server/chain-indexer-store.js:191-314 | A batch with no hash twice is committed to an empty index. |
| IndexerSuccess.FirstCommitSucceedsIff | server/chain-indexer-store.js:191-314 | An empty index takes a prepared batch if and only if no block hash is in it twice. |
| IndexerRefinement.RebuildFromScratch | server/chain-indexer-store.js:140-329 | For every valid index, storing its contents as one batch into an empty index succeeds and gives the same index. |
| IndexerRefinement.StoreKeepsExact | server/chain-indexer-store.js:191-313 | An honest call keeps the index exact: stored blocks are what their hashes stand for, stored events are exactly their logs. |
| IndexerRefinement.BlocksAreAncestry | server/chain-indexer-store.js:203-269 | A linked stored range is the parent-hash ancestry of its top. |
| IndexerRefinement.HistoryLeavesNoTrace | server/chain-indexer-store.js:191-313 | Two exact indexes with one start and one checkpoint are equal, whatever reorganisations led there. |
| IndexerRefinement.RunKeepsExact | server/chain-indexer-store.js:140-329 | Any sequence of honest calls, failures and reorganisations included, keeps the index exact. |
| IndexerRefinement.IndexIsItsAncestry | server/chain-indexer-store.js:191-313 | After any run from an empty index the stored blocks are the ancestry of the checkpoint down to the first batch's first height, and the events exactly those blocks' logs. |
| IndexerRefinement.IncrementalEqualsScratch | server/chain-indexer-store.js:191-313 | The incremental index equals the one a single batch over the same heights builds. |
| IndexerRefinement.SameTipMayGainLogs | server/chain-indexer-store.js:270-306 | For any block and log: a batch with the stored tip and one log more is accepted, so a checkpoint alone does not fix the events. |
| IndexerRefinement.SameTipKeepsTablesIff | server/chain-indexer-store.js:191-313 | With or without honesty: a stored batch that ends in the stored tip changes no block, adds exactly its logs, and leaves the tables as they were if and only if every log it brings is already recorded. |
| IndexerReader.ReadCompleteBatch | server/chain-indexer-reader.js:105-155 | The loop reads one header per height, checks the links, then the logs: it answers as RangeIsReadAsServed says, for any endpoint. |
| IndexerReader.RangeIsReadAsServed | server/chain-indexer-reader.js:105-155 | For any endpoint: a range is read if and only if every height is answered with its own block in range, neighbours are linked, and the logs are answered, none withdrawn, out of range, foreign, of another height or block, or contradicted; the batch is then exactly that, and each refusal names what is missing. |
| IndexerReader.ReplayRanges | server/chain-indexer-reader.js:203-251 | The loop over ranges, on a live index, does what the recursive replay says; with a failing connection the index has seen whole batches only. |
| IndexerReader.ReplayFinalizedBlocks | server/chain-indexer-reader.js:161-259 | A whole call, with the checks before the loop in the code's order; nothing is stored by a call that stops there. |
| ReplayProgress.RangesAdvance | server/chain-indexer-reader.js:49-52 | Under the configuration check each later range begins above the one before, rollbackDepth below its end, and ends above it. |
| ReplayProgress.RangeCountFormula | server/chain-indexer-reader.js:193-251 | The number of ranges for N blocks is 1 + ceil(max(0, N - range) / (range - rollbackDepth - 1)). |
| ReplayProgress.ReplayTiles | server/chain-indexer-reader.js:193-258 | Whatever the endpoint answers, replay_range_not_advancing and store_checkpoint_mismatch never occur; a finished replay covered [from, tip] without gaps, consecutive batches sharing exactly rollbackDepth + 1 blocks, in the predicted number of batches. |
| ReplayProgress.OnlyServedRangesAreStored | server/chain-indexer-reader.js:203-233 | Whatever the endpoint answers, every batch a replay stores was answered whole in its round: no withdrawn or foreign log is ever stored. |
| ReplayProgress.ReplayRefusals | server/chain-indexer-reader.js:171-200 | Each refusal before the loop belongs to its fault, exactly, and such a call stores nothing. |
| ReplayProgress.ServedBatch | server/chain-indexer-reader.js:105-155 | An endpoint that serves one chain yields exactly the batch of that stretch of it. |
| ReplayProgress.SpliceHeight | server/chain-indexer-core.js:196-207 | Where index and chain meet there is a highest stored block the range vouches for, possibly the one just below it, within reach, and the chain is stored up to there. |
| ReplayProgress.ChainBatchIsStored | server/chain-indexer-store.js:194-314 | The next batch of a chain is stored when index and chain meet where the batch begins. |
| ReplayProgress.ReplayReachesTip | server/chain-indexer-reader.js:203-251 | From such an index, or an empty one, the replay of a served chain succeeds and ends at its tip. |
| ReplayProgress.ResumedEqualsFresh | server/chain-indexer-reader.js:186-251 | A resumed replay that meets the stored chain where it begins succeeds and leaves the same tables as a fresh replay from the stored start. |
| ReplayProgress.DeepReorgIsRefused | server/chain-indexer-reader.js:203-233 | If index and chain do not meet where the first range begins, the replay fails for want of an ancestor and leaves the tables as they were. |
| ReplayProgress.RangeBelowIsRefused | server/chain-indexer-reader.js:203-233 | A range that begins below the index is refused and leaves the tables as they were: the index never grows downwards. |
| ReplayProgress.ResumeSucceedsIff | server/chain-indexer-reader.js:186-251 | For every index and configuration: a resumed replay succeeds if and only if the checkpoint lies between the configured start and the tip, the first range does not begin below the index, and index and chain meet where it begins; otherwise the tables are unchanged. |
| EventDecoding.ValueOfDigits | server/chain-indexer-raid-history.js:52-57 | Reading the hex digits of a word gives the number they spell. |
| EventDecoding.DigitsOfValue | server/chain-indexer-raid-history.js:52-57 | And no two digit strings of one length spell the same number. |
| EventDecoding.RaidDecodingInvertsEncoding | server/chain-indexer-raid-history.js:36-76 | A raid event is decoded if and only if the log is its ABI encoding for this wallet, in every field and role. |
| EventDecoding.BuildDecodingInvertsEncoding | server/chain-indexer-build-history.js:44-88 | A construction event is decoded if and only if the log is its ABI encoding, with building 0-7, a 64-bit time or a level 1-30. |
| History.KeysetIsOffset | server/chain-indexer-raid-history.js:178-197 | The keyset condition below row k - 1 selects exactly the rows from k on, in order. |
| History.JoinDropsNothing | server/chain-indexer-raid-history.js:180-183 | On a valid index the join with the canonical blocks drops no event of the wallet. |
| History.EncodedEventsAreRows | server/chain-indexer-raid-history.js:180-185 | Every stored event encoded for the wallet, as attacker or as defender, is one of its rows. |
| History.RowsNameTheWallet | server/chain-indexer-raid-history.js:183-183 | A row with three topics is of that event and names the wallet in one of its address topics. |
| History.RowsDecodeToTheirEvents | server/chain-indexer-raid-history.js:198-202 | Rows decode to exactly the events they encode, or one of them encodes none. |
| History.DecodeAllIff | server/chain-indexer-raid-history.js:198-202 | Decoding a page succeeds if and only if every row decodes. |
| History.IssuedCursorIsAccepted | server/chain-indexer-raid-history.js:78-117 | Every cursor a page hands out is accepted for the same scope and wallet. |
| History.PageRefusals | server/chain-indexer-raid-history.js:137-205 | Each refusal of a page belongs to its fault, exactly: wallet, limit, cursor, a moved checkpoint, a row of the page or the next one that is no event. |
| History.PageSplits | server/chain-indexer-raid-history.js:198-225 | A page is the first rows, its cursor the last of them, and nothing is lost, repeated or let through between page and rest; a corrupt row stops it. |
| History.PageResumes | server/chain-indexer-build-history.js:150-224 | At a resumption point a request returns the page over the remaining rows. |
| History.ChaseIsComplete | server/chain-indexer-build-history.js:185-224 | For fixed tables and any limits, changing from page to page, following the cursor concatenates to the full descending list of events, or stops at a corrupt row. |
| HistoryRuns.RunStaysExact | server/chain-indexer-store.js:140-329 | Interleaved page requests and honest store calls keep the index exact. |
| HistoryRuns.StartStays | server/chain-indexer-store.js:140-329 | Once a batch is stored, the index stays valid from the height at which that one began. |
| HistoryRuns.FetchAdvances | server/chain-indexer-raid-history.js:150-224 | A request against the tables the client's rows came from extends them without gap or repeat. |
| HistoryRuns.OtherCheckpointStops | server/chain-indexer-raid-history.js:175-177 | A request against another checkpoint stops the client and gives it nothing. |
| HistoryRuns.ClientSeesOneMoment | server/chain-indexer-raid-history.js:137-225 | In any interleaving with store calls, from an index that may still be empty, what a client holds is a prefix of the wallet's events at one moment of the run, even if the checkpoint left and came back between pages. |
| HistoryRuns.RowsAreTheChain | server/chain-indexer-raid-history.js:178-185 | The rows of a wallet are exactly the matching logs of the checkpoint's ancestry. |
| HistoryRuns.DecodedRowsAreTheChain | server/chain-indexer-raid-history.js:178-205 | All rows decoded are the events that logs of the checkpoint's ancestry encode for the wallet; none is missing. |
| HistoryRuns.FinishedClientHasTheChain | server/chain-indexer-raid-history.js:137-225 | A client that finished holds exactly the events that logs of one canonical chain encode for the wallet, each once, strictly descending; nothing if nothing was stored. |
| HistoryRuns.FreshClientHasTheChain | server/chain-indexer-raid-history.js:137-225 | The same from a fresh installation, with nothing assumed about the index. |
| DependencySearch.Searcher.constructor | src/world-game/build-planner.js:72-73 | The search starts with no nodes and nothing being visited. |
| DependencySearch.Searcher.VisitStep | src/world-game/build-planner.js:74-107 | The recursive visit that mutates nodes and visiting computes the search function; visiting is restored when it succeeds. |
| DependencySearch.Searcher.VisitSteps | src/world-game/build-planner.js:88-97 | The loop over sorted requirements, with invalid_requirement at the first malformed one. |
| DependencySearch.VisitIsExecutable | src/world-game/build-planner.js:74-107 | What a visit adds can be built in list order from the current levels and reaches the visited step, without using a step still being visited. |
| DependencySearch.NeedsComeEarlier | src/world-game/build-planner.js:79-97 | In any executable list each step finds its previous level and every requirement earlier in the list or in the village. |
| DependencySearch.PlanIsExecutableAndLeast | src/world-game/build-planner.js:72-118 | The steps raise one building by one level each with all requirements met, end with the target, and are contained in every other executable list that reaches it. |
| SearchOrder.StepsAreInOrder | src/world-game/build-planner.js:4-107 | What a step needs is listed lower level first, then demands by name and level: of two missing ones the one looked for first is listed first, unless another step of the list needs the other, too. |
| SearchOrder.ReadyDemandsAreSorted | src/world-game/build-planner.js:4-107 | When only demands that can be built at once are missing, the list is those demands by name and level, and then the target. |
| PlanRefusals.SearchFaultIsReal | src/world-game/build-planner.js:80-95 | requirements_unavailable and invalid_requirement are raised only for a missing level whose rule is missing or malformed. |
| PlanExistence.PlanExistsIff | src/world-game/build-planner.js:72-117 | The search succeeds if and only if some executable list reaches the target. |
| PlanExistence.CyclesAreReal | src/world-game/build-planner.js:77-77 | dependency_cycle is reported only for a real cycle of unmet needs the target leads to; and no target that leads to one gets a plan. |
| PlanExistence.GetContractRequirementsForLevel | src/world-game/projections.js:53-81 | Every requirement the code pushes is a level of a known building, of lower rank than the level that demands it: no rule leads back to itself. |
| PlanExistence.ContractIsRanked | src/world-game/projections.js:53-81 | Under the contract rules every need of a step has a lower rank on (building, level), for a cap of at least 4. |
| PlanExistence.ContractAlwaysPlansIff | src/world-game/build-planner.js:72-117 | With the contract rules every village and target gets its steps if and only if the level cap is at least 4. |
| BuildPlanner.CollectJobs | src/world-game/build-planner.js:57-71 | Running jobs by the step they complete; an invalid job or two for one step is refused. |
| BuildPlanner.PriceSteps | src/world-game/build-planner.js:122-143 | Each step not under construction is priced for its own level, and a missing or negative price or duration blocks the plan. |
| BuildPlanner.ReserveSlots | src/world-game/build-planner.js:159-160 | The slot array after the running jobs are written into it, in order. |
| BuildPlanner.FirstFree | src/world-game/build-planner.js:178-181 | The slot taken is free no later than any other. |
| BuildPlanner.LowestSlotIsTaken | src/world-game/build-planner.js:178-181 | Of the slots free earliest the one with the lowest number is taken. |
| BuildPlanner.ScheduleStep | src/world-game/build-planner.js:163-197 | One step put on a slot: slot array, remaining stock and step fields change together as specified. |
| BuildPlanner.ScheduleSteps | src/world-game/build-planner.js:161-197 | The scheduling loop over all steps. |
| BuildPlanner.FindNext | src/world-game/build-planner.js:198-205 | The first step that can start now, if any. |
| BuildPlanner.PlanFoundSteps | src/world-game/build-planner.js:118-206 | Prices, slots, schedule and next step for the found steps. |
| BuildPlanner.PlanBuildingDependencies | src/world-game/build-planner.js:15-207 | The whole planner, with every refusal in the code's order. |
| PlanSoundness.JobsAreReservedIff | src/world-game/build-planner.js:159-160 | In the initial slot array every running job is over before its slot counts as free, if and only if on each slot the job listed last completes last. |
| PlanSoundness.SlotsNeverOverlap | src/world-game/build-planner.js:163-197 | No two steps on one slot overlap, and no new step overlaps a running job whose slot is reserved. |
| PlanSoundness.AffordableStepsArePaid | src/world-game/build-planner.js:186-195 | The steps marked affordable cost together no more than the starting stock; each mark and deficit is right for what is left at that point. |
| PlanSoundness.MakespanIsBounded | src/world-game/build-planner.js:163-197 | Everything is complete by the latest initial slot time plus the sum of the durations. |
| PlanSoundness.StepsStartAtOnce | src/world-game/build-planner.js:171-185 | The schedule is greedy: each new step starts now, or the moment one of its requirements completes, or when until then every slot was taken. |
| PlanSoundness.StepsKeepTheirTimes | src/world-game/build-planner.js:164-184 | A step under construction runs from now to its job's completion on its slot and takes no stock; a new one ends its duration after its start. |
| PlanSoundness.RequirementsCompleteFirst | src/world-game/build-planner.js:171-184 | A new step starts no earlier than every declared requirement in the plan completes, for a clock not before zero. |
| PlanResult.PlanIsSound | src/world-game/build-planner.js:15-207 | A returned plan is the least executable list, no two new steps overlap on a slot, and the affordable steps are covered by the stock; it is clear of running jobs and waits for requirements under the conditions that PlanLimits shows to be exact. |
| PlanResult.PlanEndsInTime | src/world-game/build-planner.js:159-206 | A returned plan ends by the time its slots are free and its jobs are over, plus its new steps' time, whatever the slots of the jobs. |
| PlanResult.PlanIsGreedy | src/world-game/build-planner.js:159-197 | In every returned plan no new step waits without a reason, steps under construction run from now on with their job's slot and end and take no stock, and new ones end their duration after their start. |
| PlanResult.NextIsAffordable | src/world-game/build-planner.js:198-205 | The step offered as next is still to do, starts now, and its price is in stock. |
| PlanResult.NextMeetsRequirements | src/world-game/build-planner.js:198-205 | From time zero on, and if all new steps take time, the village already meets its declared requirements. |
| PlanResult.ActiveJobsIff | src/world-game/build-planner.js:57-71 | Running jobs are accepted if and only if each is valid and no building has two. |
| PlanRefusals.JobRefusals | src/world-game/build-planner.js:57-71 | Running jobs are refused for the first that does not stand, or that doubles another, each exactly when. |
| PlanRefusals.PriceRefusals | src/world-game/build-planner.js:122-143 | Steps are refused for the first that lacks a price, or else a duration, each exactly when. |
| PlanRefusals.InputRefusals | src/world-game/build-planner.js:24-71 | Target, levels, stock and running jobs are refused in this order, each exactly for its fault. |
| PlanRefusals.StepRefusals | src/world-game/build-planner.js:108-158 | From the search on: its own errors, missing prices and durations, and the slots, each exactly for its fault. |
| PlanRefusals.DurationsAreOfTodo | src/world-game/build-planner.js:118-121 | The durations asked for are those of the steps not under construction. |
| PlanLimits.LevelsRunInOrderIff | src/world-game/build-planner.js:98-104 | Each level of a building waits for the level below it, in every plan on given jobs and slots, if and only if there is one slot and no job still running outside of it. |
| PlanLimits.TwoCampsAtOnce | src/world-game/build-planner.js:171-185 | With two free slots two consecutive levels of one building are planned for the same second. |
| PlanLimits.NextCanBeginIff | src/world-game/build-planner.js:198-205 | The step offered as next can be begun at once, being its building's next level with requirements met and price in stock, in every plan on given jobs and slots, whatever the rules and prices, if and only if no slot is free now, or there is one slot, no job, and every new step takes time. |
| PlanLimits.NextAboveRunningJob | src/world-game/build-planner.js:198-205 | With a timber camp under construction, its second level is offered as next although the village has none. |
| PlanLimits.NextMeetsRequirementsIff | src/world-game/build-planner.js:198-205 | The declared requirements of the next step are met by the village in every plan if and only if the clock is not before time zero and every new step takes time. |
| PlanLimits.PlansStayClearIff | src/world-game/build-planner.js:159-160 | New steps stay clear of the running jobs on their slots, in every plan on given jobs and slots, if and only if of the jobs that share a slot the one listed last ends last. |
| PlanLimits.PlansEndInTimeIff | src/world-game/build-planner.js:159-197 | Every plan on given jobs and slots ends by the latest initial slot time plus its new steps' time, if and only if no job ends later than that slot time. |
| PlanLimits.PrecedenceHoldsIff | src/world-game/build-planner.js:171-184 | In every plan at a given time new steps wait for their declared requirements, if and only if that time is not before zero. |
| PlanLimits.ZeroIsNotWaitedFor | src/world-game/build-planner.js:174-177 | Before time zero a townhall is planned to start before its timber camp, which completes at zero. |
| ContractPlan.ContractPlanSucceedsIff | src/world-game/build-planner.js:15-207 | With the contract's rules, prices and slots a plan is given if and only if target, levels, stock and jobs make sense, the jobs fit the slots, and the durations of the steps to build are known; the rules themselves never block it. |
| ContractNext.WorksMoveOn | src/world-game/build-planner.js:161-195 | Along the schedule every slot time only grows and the remaining stock only falls. |
| ContractNext.CheaperStartsFirst | src/world-game/build-planner.js:171-205 | If a step can start now, so can every earlier one that waits for nothing and costs no more. |
| ContractNext.RulesRise | src/world-game/projections.js:53-81 | What a level requires, the level above it requires at least as high. |
| ContractNext.NextIsNextLevel | src/world-game/build-planner.js:198-205 | Under the contract's prices and rules, without running jobs, from time zero on and if new steps take time, the next step is its building's next level, on any number of slots. |
| ContractNext.ContractNextCanBeginIff | src/world-game/build-planner.js:157-205 | With the contract's projections the next step can be begun at once, in every plan on given jobs and slots, if and only if no slot is free now, or there are no jobs, new steps take time, and the clock is not before time zero unless there is one slot. |
| ContractNext.ContractNextAboveJob | src/world-game/build-planner.js:164-205 | For any jobs and any slots of which one is free: a contract village where the level above the one under construction is offered. |
| ContractNext.ContractNextTooEarly | src/world-game/build-planner.js:174-205 | With steps that take no time, or before time zero on two slots: a contract village where a warehouse is offered although its townhall is neither built nor payable. |
| ContractCurves.GetContractBuildingCost | src/world-game/projections.js:30-51 | The nested loop gives each component grown with a ceiling per level, gold waived for Workshop I and II. |
| ContractCurves.GrownDrift | src/world-game/projections.js:36-40 | Ceiling at each level never falls below the exact curve and gains less than one per level, compounded. |
| ContractCurves.BuildingCostDrift | src/world-game/projections.js:30-51 | base r^n <= c <= base r^n + (r^n - 1)/(r - 1) for every component not waived, strictly rising when its base is positive. |
| ContractCurves.WorkshopGold | src/world-game/projections.js:41-44 | Gold is waived for the workshop's first two levels and for no later one, where it grows from 15 and rises each level. |
| ContractCurves.GetContractCapacity | src/world-game/projections.js:103-109 | The loop of nearest rounding by 17/10. |
| ContractCurves.CapacityDrift | src/world-game/projections.js:103-109 | Capacity after n steps stays within 0.5 (1.7^n - 1)/0.7 of 500 * 1.7^n, and always grows. |
| WalletAdapter.WorldGameAdapter.constructor | src/world-game/adapter.js:94-99 | A page load restores the pending pair from session storage, if it can be read. |
| WalletAdapter.WorldGameAdapter.Persist | src/world-game/adapter.js:64-77 | The record is written or removed with the pending pair, or left alone if storage fails. |
| WalletAdapter.WorldGameAdapter.ClearPending | src/world-game/adapter.js:111-115 | Both halves of the pair are dropped and the record is removed. |
| WalletAdapter.WorldGameAdapter.Call | src/world-game/adapter.js:342-353 | One action at a time: a call joins the same action, is refused for another, or starts. |
| WalletAdapter.WorldGameAdapter.Resume | src/world-game/adapter.js:280-284 | Resuming is the same call with the pending action, if there is a pair. |
| WalletAdapter.WorldGameAdapter.AfterChecks | src/world-game/adapter.js:135-176 | After the checks the transaction goes to the wallet, where its request stays open, or the action ends. |
| WalletAdapter.WorldGameAdapter.AfterWallet | src/world-game/adapter.js:173-193 | A confirmed hash becomes pending and recorded with its action; a rejection, an accepted operation that is turned down, and a send call that throws while its request stays open end before anything is recorded. |
| WalletAdapter.WorldGameAdapter.AfterPoll | src/world-game/adapter.js:194-247 | A receipt of either outcome drops the pair; a timeout or another error keeps it. |
| WalletAdapter.WorldGameAdapter.AfterRead | src/world-game/adapter.js:198-199 | The state read after a receipt or a timeout ends the action, whatever it answers. |
| WalletAdapter.WorldGameAdapter.Finally | src/world-game/adapter.js:348-350 | A settled action makes room for the next. |
| WalletAdapter.SafeSend | src/world-game/adapter.js:162-176 | While safe, a transaction is sent only when no accepted operation is outstanding. |
| WalletAdapter.StepKeepsSafeIff | src/world-game/adapter.js:132-249 | A step keeps safety if and only if it does not lose track: no answer to an accepted request is turned down, no send call throws on an open request, and no page load falls on an open request or on an outstanding operation that session storage does not have on record. |
| WalletAdapter.LossDecides | src/world-game/adapter.js:132-249 | From a safe state, losing track is exactly what makes a second send possible without any further loss. |
| WalletAdapter.OtherActionIsRefused | src/world-game/adapter.js:133-134 | While one action is pending another neither sends nor polls nor changes what is pending. |
| WalletAdapter.SameActionIsPolled | src/world-game/adapter.js:162-163 | The pending action is resumed by polling its hash, never by sending again. |
| WalletAdapter.HashDroppedIffFinal | src/world-game/adapter.js:194-247 | Short of a page load a hash is dropped if and only if its own poll ends finally; the operation is then settled. |
| WalletAdapter.FinalPollSettles | src/world-game/adapter.js:200-247 | A final poll drops the pair, and the record if storage takes the write; the caller hears of completion exactly for a successful receipt. |
| WalletAdapter.OpenPollKeeps | src/world-game/adapter.js:194-206 | A timeout or another error keeps pair, record and operation; a timeout is told as pending. |
| WalletAdapter.NextActionStarts | src/world-game/adapter.js:247-350 | After a final poll, once the state is read and the flight has ended, any action called next starts at its checks. |
| WalletAdapter.WholeActionEnds | src/world-game/adapter.js:132-350 | An idle page takes any action from call to receipt, answers as it should at every step, and is idle again with nothing on record. |
| WalletAdapter.ErrorsReachTheCaller | src/world-game/adapter.js:132-350 | The caller sees an error exactly when checks, wallet, poll or read fail; the page then takes calls again. |
| WalletAdapter.ResumePollsThePair | src/world-game/adapter.js:280-284 | Resuming polls the pending hash under its action, or does nothing. |
| WalletAdapter.RefusedCallPasses | src/world-game/adapter.js:342-353 | A call refused for another pending action holds the page until it ends and leaves nothing behind. |
| WalletAdapter.WorkingStorageKeepsSync | src/world-game/adapter.js:64-115 | With working storage the stored record equals the pair in memory after every step. |
| WalletAdapter.TrackedRunNeverSendsTwice | src/world-game/adapter.js:132-249 | A run that never loses track sends nothing while an accepted operation is outstanding. |
| WalletAdapter.RunsNeverSendTwiceIff | src/world-game/adapter.js:132-249 | Over all runs an environment allows, nothing is sent while an accepted operation is outstanding, if and only if no send call throws on an open request, every answer to an accepted one is recorded, and either no page is loaded again or session storage works and no page load falls into a send. |
| WalletAdapter.LostRecordSendsTwice | src/world-game/adapter.js:74-76 | For any action and hash: a page load after the record was lost sends the action again while the first is outstanding. |
| WalletAdapter.OpenRequestSendsTwice | src/world-game/adapter.js:173-192 | For any action and hash, with working storage: a page load while the wallet's request is open, which the wallet accepts afterwards, and the action is sent again. |
| WalletAdapter.DisownedSendsTwice | src/world-game/adapter.js:179-189 | For any action and hash: an accepted operation is turned down, as for another account, nothing is recorded, and the action is sent again. |
| WalletAdapter.AbandonedSendsTwice | src/world-game/adapter.js:173-176 | For any action and hash: the send call throws while the wallet's request stays open, the wallet accepts it afterwards, and the action is sent again. |
| EconomyInvariant.CapacityGrows | src/game.js:218-220 | Capacity is at least 500 and never falls as the warehouse grows. |
| EconomyInvariant.BuildingCostIsNotNegative | src/game.js:248-260 | No price component is negative at any level. |
| EconomyInvariant.SettleKeepsSound | src/game.js:233-246 | Settling keeps field and storage within capacity and the rest untouched. |
| EconomyInvariant.UpgradeKeepsSound | src/game.js:281-292 | An upgrade keeps stocks within capacity and every built level's prerequisites met. |
| EconomyInvariant.GatherKeepsSound | src/game.js:294-315 | A collection keeps both stocks within capacity. |
| EconomyInvariant.SwapKeepsSound | src/game.js:317-340 | A swap keeps storage within 0 and capacity. |
| EconomyInvariant.TrainKeepsSound | src/game.js:342-362 | Training keeps stock and troops sound. |
| EconomyInvariant.SendKeepsSound | src/game.js:380-428 | A raid keeps target stock within its first value, troops non-negative, and the targets' names and defences. |
| EconomyInvariant.StartMarchKeepsSound | src/game.js:430-446 | Starting a march keeps everything sound and marches only with available troops. |
| EconomyInvariant.ResolveKeepsSound | src/game.js:448-454 | Resolving a march keeps everything sound. |
| EconomyInvariant.DueMarchSucceedsIff | src/game.js:448-454 | A due march resolves if and only if its army is still among the troops; either way it is over. |
| EconomyInvariant.StepKeepsSound | src/game.js:233-454 | Every command keeps stocks within capacity, target stock within its first value, troops non-negative and prerequisites met. |
| EconomyInvariant.StepKeepsArmy | src/game.js:233-454 | Every command but a direct raid keeps the army of a pending march among the troops. |
| EconomyInvariant.InitialGameIsSound | src/game.js:180-210 | A new game is sound. |
| EconomyInvariant.RunKeepsSound | src/game.js:233-454 | Any run of commands, with any clock, keeps all of this; without direct raids the pending army stays available. |
| EconomyInvariant.EveryReachableGameIsSound | src/game.js:180-454 | So every state reachable from a new game is sound. |
| EconomyInvariant.EveryDueMarchResolves | src/game.js:430-454 | Without direct raids every march that is due resolves. |
| EconomyLaws.DetourIsHarmlessIff | src/game.js:233-246 | A settle in between changes nothing if and only if the span is no longer than eight hours, or the settle comes at one of its ends, or every produced resource has filled the field by then. |
| EconomyLaws.DetourMayGain | src/game.js:233-246 | With a ninth warehouse level and sixteen hours, a settle half way wins wood that one settle at the end does not give. |
| EconomyLaws.SettlingIsPathIndependent | src/game.js:233-246 | Any number of settles within eight hours equals one settle at the end. |
| EconomyLaws.SettlingOftenNeverLoses | src/game.js:233-246 | Over any span, settling more often never leaves less. |
| EconomyLaws.GatherConserves | src/game.js:294-307 | A collection moves stock from field to storage, creates none, and leaves behind only what does not fit. |
| EconomyLaws.CooldownHolds | src/game.js:309-315 | Until the cooldown is over no collection takes place, whatever else is done. |
| EconomyLaws.SwapNeverGains | src/game.js:317-340 | A swap never raises the weighted value of wood, clay and stone nor touches gold; a refused one keeps everything. |
| EconomyLaws.SwapsNeverGain | src/game.js:317-340 | Nor does any series of swaps. |
| EconomyLaws.LootFitsTheArmy | src/game.js:364-378 | All loot together never exceeds what the army can carry. |
| EconomyInvariant.LootIsThere | src/game.js:364-378 | Loot takes nothing negative and nothing that is not there. |
| EconomyLaws.StolenIsThere | src/game.js:397-410 | What a raid takes is there, fits the army, and is nothing after a defeat. |
| EconomyLaws.RaidConserves | src/game.js:393-417 | The storage gains what the target loses unless it is full, a lost raid moves nothing, other targets are untouched, and only the army can fall. |
| EconomyLaws.DirectRaidStrandsMarch | src/game.js:380-454 | A direct raid can spend a marching army; the march is then refused for availability and gone. |
| EconomyRules.UpgradeTerms | src/game.js:281-292 | An upgrade goes through exactly when every demand is built and the price in stock; it takes the price and adds the level, and the refusal names what is missing, demands first. |
| EconomyRules.PriceIsTheCurve | src/game.js:248-260 | Every price is base * factor^level rounded up once, except that a first workshop needs no gold. |
| EconomyRules.DemoIsNoDearer | src/game.js:248-260 | But for the townhall the demo asks what the contract asks for a first level, and never more at any level, a second workshop's gold aside. |
| EconomyRules.DemandsAreTheContracts | src/game.js:262-273 | The demo demands what the contract demands, except that a first townhall needs nothing. |
| EconomyRules.CapacityIsNearest | src/game.js:218-220 | Capacity is 500 * 1.7^n rounded to the nearest whole number. |
| EconomyRules.ProductionIsPerLevel | src/game.js:222-231 | Each resource is produced by its own building alone, every level adding the same. |
| EconomyRules.SettleCountsSeconds | src/game.js:233-246 | A settle adds rate times seconds, none backwards and at most eight hours, and cuts at capacity. |
| EconomyRules.CollectionTerms | src/game.js:294-316 | A collection takes place exactly when the cooldown is over, and moves from the field what the stock has room for. |
| EconomyRules.CollectionsAreApart | src/game.js:309-316 | For a minute from a collection, whatever else is done, there is no other; from then on there can be one. |
| EconomyRules.SwapTerms | src/game.js:317-340 | A swap takes the amount rounded down and gives its worth rounded down as far as there is room; each refusal belongs to its fault. |
| EconomyRules.SwapParities | src/game.js:317-340 | 110 wood, 100 clay and 88 stone are worth the same, gold nothing. |
| EconomyRules.TrainTerms | src/game.js:342-362 | Training counts whole troops, at least one, and goes through exactly when its demands are built and the price of all is in stock. |
| EconomyRules.RaidCosts | src/game.js:397-407 | Of each kind sent, the least whole number that is at least 8 in a hundred falls if the attack reaches the defence, and 38 in a hundred if not; nobody else. |
| EconomyRules.VictoryCostsNoMore | src/game.js:397-407 | A won raid never costs more of any kind than a lost one with the same army. |
| EconomyRules.RaidYields | src/game.js:364-417 | A won raid takes of each resource its share of what the army can carry rounded down, or all there is. |
| EconomyRules.AttackAddsUp | src/game.js:393-397 | One more of a kind adds that kind's attack; an empty army has none. |
| EconomyRules.SmallestArmies | src/game.js:180-210 | Six spears reach the river's defence, eight archers the ash's and eight riders the iron's; one less of each does not. |
| EconomyRules.RaidRefusals | src/game.js:380-392 | A raid is fought exactly when its target is listed, somebody is sent and all sent are at home; each refusal belongs to its fault. |
| EconomyRules.MarchIsTheRaid | src/game.js:430-454 | A march starts exactly when none is under way and the raid could be fought now, arrives after a minute, and is then the raid with the army sent. |
| DemoGame.DemoGame.constructor | src/game.js:180-210 | A new game has the initial stocks, buildings and targets. |
| DemoGame.DemoGame.SettleFields | src/game.js:233-246 | The loop over resources leaves the settled state. |
| DemoGame.DemoGame.PayFor | src/game.js:275-279 | The loop over resources subtracts the price. |
| DemoGame.DemoGame.UpgradeBuilding | src/game.js:281-292 | In-place upgrade: new state and answer as specified. |
| DemoGame.DemoGame.GatherFields | src/game.js:294-307 | In-place collection, resource by resource. |
| DemoGame.DemoGame.StartGathering | src/game.js:309-315 | Collection behind the cooldown. |
| DemoGame.DemoGame.SwapInternal | src/game.js:317-340 | In-place swap with its three refusals. |
| DemoGame.DemoGame.TrainTroops | src/game.js:342-362 | In-place training with its two refusals. |
| DemoGame.DemoGame.Bury | src/game.js:405-407 | The loop over troops takes the casualties off. |
| DemoGame.DemoGame.CarryHome | src/game.js:411-417 | The loop over resources moves the loot from the target to the storage, cut at capacity. |
| DemoGame.DemoGame.SendRaid | src/game.js:380-428 | In-place raid: casualties, loot and stocks as specified. |
| DemoGame.DemoGame.StartRaidMarch | src/game.js:430-446 | A march is recorded, or refused. |
| DemoGame.DemoGame.ResolveRaidMarch | src/game.js:448-454 | A due march is taken off and fought. |
| PolicySimulator.RawDurationSeconds | src/simulation/policy-130-simulator.js:88-106 | The loop gives the base grown with a ceiling per level, or the error for version or level. |
| PolicySimulator.RawDrift | src/simulation/policy-130-simulator.js:44-104 | Rounded up at every level, a raw duration is never below base * r^n and gains less than a second per level, compounded, with r = 1.18 or 1.135. |
| PolicySimulator.ReductionBps | src/simulation/policy-130-simulator.js:76-86 | The reduction depends on the set of boosts only, and is capped. |
| PolicySimulator.Duration | src/simulation/policy-130-simulator.js:109-127 | Every final duration lies between the minimum job time and the offline cap. |
| PolicySimulator.BoostsShorten | src/simulation/policy-130-simulator.js:109-127 | A job takes what its boosts leave, 10, 15 and 20 in a hundred off, 35 at most, rounded up, at least a minute and at most three days. |
| PolicySimulator.PublishedDurations | docs/ISSUE-130-SIMULATION-POLICY.md:9-16 | Bare first levels take 8, 10, 12 and 15 minutes; the second, and jobs with boosts, are rounded up step by step. |
| PolicySimulator.AcceleratedIsNoSlower | src/simulation/policy-130-simulator.js:102-104 | At every level the accelerated curve takes no longer than the steady one. |
| PolicySimulator.DurationMonotone | src/simulation/policy-130-simulator.js:109-127 | More boosts or a shorter raw duration never lengthen a job, through both roundings and both caps. |
| PolicySimulator.LevelsCompletedBy | src/simulation/policy-130-simulator.js:133-154 | The loop returns the largest number of levels, at most 30, whose durations fit the horizon together, and their sum. |
| PolicySimulator.CompletedLevelsCompare | src/simulation/policy-130-simulator.js:133-154 | That number is determined by the horizon, never falls as it grows, and is never smaller on the accelerated curve. |
| PolicySimulator.CivicHorizons | src/simulation/policy-130-simulator.js:133-180 | Civic levels in a day, a week and 30 days: 17, 29 and 30 steady, 20, 30 and 30 accelerated. |

## Left out

- React components, routes, locale text, number formatting and release checks: user interface and plumbing.
- PostgreSQL, the JSON-RPC client, MiniKit and keccak are answers from outside: tables are maps with the keys of `migrations/008_chain_indexer_foundation.sql`, an endpoint is a function of what is asked and of how many batches are stored, hashes are numbers.
- Text parsing: hex, checksum addresses, JSON and base64url cursors (section 5 of RFC 4648) are typed records, so refusals of malformed, negative or non-numeric text are excluded by the types; the ranges that numbers are checked against are kept.
- Several indexed contracts in one database: one index is one chain and contract, as every statement is keyed by both. Advisory and row locks are not modelled; calls are serial.
- A failing COMMIT is taken as rolled back; the case that the server committed and the answer was lost is not distinguished.
- `updated_at` and the CHECK constraints of the tables.
- IndexerStore.AssertSameLogs: compares event ids of one contract as (transaction hash, log index) instead of as text; only that the order is total matters there.
- `finalizedLogs` (server/chain-indexer-core.js:135-143): a filter nothing in the indexer calls.
- BuildPlanner.PlanBuildingDependencies: a missing state, missing projections, a missing clock and levels that are not integers are excluded by type; a refusal carries its reason but not the list of duration keys; a null among the requirements, on which sorting may throw first, is not modelled.
- Floating-point rounding: the planner's times and prices and the demo's stocks are reals, the contract's prices and the simulator are integers.
- WalletAdapter.WorldGameAdapter.AfterChecks: the eligibility checks, the runtime gate and the preflight call before a send are one event that succeeds or fails; what they decide, and the decoded raid report kept for display, is not modelled.
- Market quotes, opponent picking and registration in `src/world-game/`: reads or smaller copies of the same protocol.
- Display projections of `src/world-game/projections.js` beyond prices, requirements, capacity and construction slots.
- `src/game.js`: the raid counter and report, number formatting and saves from before field stock existed.
- `workshopSlots`, `canStartWorkshopJob` and `cappedOfflineSeconds` of `src/simulation/policy-130-simulator.js`: single expressions; an unknown class, curve or boost name is excluded by type.
- Wallet authentication, sessions, rate limits, release verification, raid eligibility and product catalogue policies: short guards around foreign calls.
