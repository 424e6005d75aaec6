# Wave-parallel block execution in parallel-geth: a verified model

parallel-geth is a fork of go-ethereum that runs the transactions of a block in *waves*. A greedy
scheduler packs transactions with disjoint declared address sets into one wave; a wave runs on a pool of
workers, each with its own fork of the state; the forks are merged and the next wave starts. This project
models that machinery and the state machines around it, and proves that they compute what the plain,
sequential definitions compute.

`dafny verify dfyconfig.toml` checks everything.

## The results

**Serializability** (`BlockProcess.Process`). For every block whose transactions stay within their declared
footprints, every worker count, direct-execution threshold and setting of the two flags, and every
interleaving of the workers' atomic steps: a successful run leaves the accounts, the receipts (renumbered
cumulative gas included), the logs and the gas pool exactly as applying transactions 0..n-1 in order does.
If the gas limits of the block's transactions fit the block together, the run succeeds exactly when the
in-order run does, and a failing run names the transaction at which the in-order run stops, with the same
error, or a later one. Every error names a transaction that is rejected with that very error on the state
the accepted transactions before it leave, or is a gas-limit error in a block whose limits do not fit. With
grouping switched off success and error are exactly those of the in-order run, whatever the limits. The
proof goes through one invariant, `Execution.Synced`: each account holds its in-order value at the account's
own frontier, that is after exactly those transactions declaring it that have been done; the coinbase holds
the fees of the finished transactions modulo 2^256.

**The scheduler** (`WaveScheduler`). A transaction's wave is the length of the longest chain of conflicting
predecessors; no order-respecting schedule uses fewer waves.

**The gas pool** (`WavePool`, `WaveRuns`, `GasExactness`, `ScheduleIndependence`). A wave is a state machine
whose steps are single queue receives, atomic loads and compare-and-swaps; a run is any sequence of worker
numbers. Remaining gas plus the limits in flight plus the gas used is the block limit in every reachable
state, so `AddGas` never panics. `GasLimitExact` says for every number of workers W exactly when a wave of
acceptable transactions can run dry: no schedule reports a gas-limit error if and only if every *peak* fits
the gas left by the earlier waves. A peak is a non-empty set of at most W queued transactions in flight at
their full limits while the rest of the queue has used what it uses; the whole queue when a worker is to
spare, the queue up to the last transaction in flight otherwise.

`BlockGasExact` lifts this to blocks: acceptable transactions pass in every run exactly when every wave has
room, position by position where it is applied directly, peak by peak on the pool.

**Acceptance** (`OrderUse`, `BuyOrders`, `BlockOrders`, `AcceptanceLimits`, `AcceptanceCases`). That the wave
processor and the in-order run accept the same blocks is *false*, already without a worker pool, because
waves reorder transactions: `WavesAloneReject`, `ParallelRejectsMore` and `ParallelAcceptsMore` give blocks
that the processor can receive. `AcceptanceExact` gives the exact condition in terms of what is known before
the call. Fix the schedule, the gas limits, a least use for each transaction, the block gas limit and the
configuration, and leave open what the transactions do. Then all such blocks are accepted alike, in every
run, if and only if two conditions on these numbers hold. *No false alarm*: whatever a wave can hold at one
moment is covered by the in-order run. *No false pass*: whatever the in-order run needs at one turn is
covered by every order in which the transactions can buy their gas; `BuyOrders` shows that these orders are
exactly the ones in which a buyer overtakes fewer waiting transactions than there are workers. An amount
next to a set of transactions is *covered* by an order that gets through if the limits of the set leave it,
or if some transaction k of the order asked for as much: amount plus the limits of the set's members not
before k is at most k's limit plus the least uses of the others before k. `OneByOneExact` spells the
condition out for waves applied one by one; `OneWaveExact` for a block of one wave on the pool whose
transactions may use anything: one worker, or the limits fit the block together, or one of them alone does not.

**Log numbers** (`LogIndices`). core/state_processor.go:261 expects canonical log indices from merging each
wave's logs in ascending order. That is *false* across waves; `CanonicalExact` says exactly when it holds.

**Chains** (`BlockChain`, `HeaderChain`). After every run of head changes, the head is the block of the last
request that could be granted, the number index is exactly the ancestry of the head and the transaction index
maps exactly that ancestry's transactions to their blocks, although both are kept by incremental, batched
writes.

**Fees** (`StateTransition`, `GasSchedule`). A successful message burns exactly base fee and blob fee, the
sender pays the effective price, the coinbase gains the tip; every 256-bit conversion whose overflow flag
the code drops is exact for messages made from transactions. A rejected message gets the error of the first
rule it breaks. The rules are those of EIP-1559, EIP-3529,
EIP-4844 and EIP-7623. `MessageFootprint` ties the settled message back to the footprint that parallel
execution assumes.

**Feed, caches and parsers** (`Feed`, `FeedRuns`, `HashCache`, `TxIndexer`, `TrieGC`, `DerivationPath`,
`PathText`). In every interleaving a Send serves exactly the subscriptions in force when it takes over the
inbox, but for cancellations made meanwhile; a cache refines a fresh walk, an index window survives interrupts
and crashes, references are conserved, and the path notation of BIP-32 has a parse/print round trip.

## How the source is represented

- A transaction is an abstract function from states to outcomes with a declared address set.
  `Execution.RespectsFootprint` is what core/parallel_processor.go:16-19 and core/state_processor.go:280-281
  assume: it reads and writes only declared accounts and otherwise only credits the coinbase, which nobody
  declares. `CoinbaseLimits` shows that the last clause is exactly what two forks of one wave need.
- Each worker owns its fork as a value; the shared state is an object of class `StateDB`.
- `Wave` bundles a block, the state it started from, the wave's queue, the transactions of earlier waves and
  the state the wave starts from. The `charge` sequence of a pool is a ledger kept for the proofs; no step
  reads it to decide anything.
- Which worker moves next is a nondeterministic choice, so contracts of `RunWave`, `ParallelWave` and
  `Process` hold for all schedules. `BlockProcess.BlockRun` is the set of all ways a block can end; `Process`
  ends in one of them.
- The block tree is a finite map from hashes to blocks that every store is part of; hash collisions do not
  occur. A chain is the sequence of hashes from number 0 up.
- The `params` constants, the flags and the fork rules are parameters.

Where names and code differ, the model follows the code: `ParallelTxGroupingByStorageOverlap` and
`BuildTransactionStorageParallelGroups` speak of storage, but grouping compares declared *addresses*.
core/parallel_flags.go:26-30 calls the mode without wave execution compatible with sequential execution; the
waves still reorder transactions, and `WavesAloneReject` is a block that this mode rejects and the in-order
run accepts.
`IntrinsicGas` guards its sums against overflow only for the data part; the access-list and
authorization parts wrap, and the contract says so.

## Model

| member | source | states |
|---|---|---|
| BlockProcess.Process | core/state_processor.go:113-305 | Main theorem. On success: all transactions acceptable in order, accounts, logs, receipts, used gas and pool equal to the in-order run; every error justified; with fitting gas limits success if and only if the in-order run succeeds, which otherwise stops at the same or an earlier transaction; with grouping off exactly the in-order result; the waves are the scheduler's levels, or single transactions; the end is one of the block's runs, so that BlockGasExact, LongWaveIsPooled and SmallWavesRunDirectly apply; logs numbered in wave order; a missing sender reported exactly when there is one and grouping is on, the first one; for all schedules and configurations |
| BlockProcess.SmallWavesRunDirectly | core/state_processor.go:144-144 | When no wave is longer than the direct limit, the block ends in exactly the ways it ends with wave execution switched off |
| BlockProcess.LongWaveIsPooled | core/state_processor.go:176-250 | A longer wave with wave execution on ends in exactly the ways the pool ends with the configured number of workers, or one per processor, at most one per transaction |
| BlockProcess.SwitchedOffIsDeterministic | core/state_processor.go:144-174 | With wave execution off a block passes exactly when every wave does, and otherwise ends only with the error of the first wave that fails |
| LogIndices.CanonicalExact | core/state_processor.go:261-279 | The shared state numbers the logs as an in-order run would if and only if no wave holds a transaction with logs while an earlier transaction with logs is in a later wave |
| LogIndices.ThirdOvertakesSecond | core/state_processor.go:261-279 | Three transactions for which the scheduler's waves number the logs of the last two the wrong way round |
| BlockProcess.ParallelWave | core/state_processor.go:176-285 | A parallel wave takes the in-order progress invariant (accounts, logs, receipts, pool, ledger) from the earlier transactions to those and the wave's, or returns a justified error |
| BlockProcess.DirectWave | core/state_processor.go:144-174 | A wave run directly on the shared state keeps the same progress invariant, or returns a justified error |
| BlockProcess.ApplyDirect | core/state_processor.go:145-165 | One transaction applied out of block order but ready keeps the progress invariant, and fails exactly with its own in-order error for that pool |
| BlockProcess.NormalizeReceiptCumulativeGas | core/parallel_processor.go:159-165 | Every receipt's cumulative gas becomes the 64-bit sum of gas used by receipts 0..i; nothing else changes |
| BlockProcess.CloseBlock | core/state_processor.go:298-305 | From receipts filed in any order: final receipts, total gas used and all logs are those of the in-order run |
| BlockProcess.CollectLogs | core/state_processor.go:303-305 | The collected logs are the in-order logs of the block |
| BlockProcess.FileReceipts | core/state_processor.go:245-247 | After a clean wave the receipt slots hold the in-order receipt of each finished transaction |
| BlockProcess.ScheduleIsReady | core/parallel_processor.go:73-88 | In an order-respecting schedule every transaction of a wave has all its conflicting predecessors done and no conflicting transaction beside it |
| BlockProcess.ScheduleCoversAll | core/parallel_processor.go:49-97 | The waves together are all transactions |
| BlockProcess.PoolLedger | core/state_processor.go:250-256 | At the end of a clean wave the pool has lost exactly the gas the finished transactions use in order |
| BlockProcess.InOrderMeaning | core/state_processor.go:145-165 | The reference: an in-order run that succeeds accepted every transaction, and its gas and receipts are the prefix sums |
| BlockProcess.FirstRejection | core/state_processor.go:145-165 | With fitting limits the in-order run stops at the first unacceptable transaction with its own error |
| BlockProcess.AloneInWave | core/state_processor.go:203-256 | A parallel wave of one transaction ends with exactly its in-order error or none, in every schedule |
| BlockProcess.InOrderAccepts | core/gaspool.go:51-62 | With fitting gas limits the in-order run succeeds exactly when every transaction is acceptable |
| WaveScheduler.BuildGroups | core/parallel_processor.go:28-98 | Error exactly when grouping meets a missing sender, naming the first; otherwise an order-respecting partition into non-empty ascending waves, by level or one by one |
| WaveScheduler.BuildWaves | core/parallel_processor.go:44-97 | Wave w is exactly the ascending list of transactions of conflict depth w, none empty, none missing |
| WaveScheduler.PackWave | core/parallel_processor.go:60-95 | One greedy scan collects exactly the next level and marks exactly it as assigned |
| WaveScheduler.FirstUnassigned | core/parallel_processor.go:50-59 | The least unassigned index, or -1 when there is none |
| WaveScheduler.Blocked | core/parallel_processor.go:76-85 | True exactly when an earlier unassigned transaction conflicts |
| WaveScheduler.CollectDeclaredAddressSets | core/parallel_processor.go:127-146 | One set per transaction, holding an address exactly when the transaction names it as sender, as recipient or in either access list; or the first transaction without a sender |
| WaveScheduler.DeclaredAddressSetsOverlap | core/parallel_processor.go:148-155 | True exactly when the sets intersect |
| WaveScheduler.WaveAccessList | core/types/transaction.go:307-352 | The merged list gives exactly the addresses of both lists and for each exactly its keys in both; no address or key twice when both are present |
| WaveScheduler.JoinIffDepth | core/parallel_processor.go:66-95 | The two tests of the scan together hold exactly for the transactions of the current depth |
| WaveScheduler.LevelsOrderRespecting | core/parallel_processor.go:16-27 | Levels partition the block, are ascending and pairwise disjoint, and put conflicting i before j in an earlier wave |
| WaveScheduler.CommonAddressOrdersWaves | core/parallel_processor.go:16-27 | In every order-respecting schedule of the headers, of two transactions that name a common address the earlier one is in an earlier wave |
| WaveScheduler.WaveNamesAreDisjoint | core/parallel_processor.go:16-27 | No address is named by two transactions of one wave |
| WaveScheduler.WaveIsLongestChain | core/parallel_processor.go:44-97 | A transaction is in wave d exactly when the longest conflict chain ending at it has d+1 members |
| WaveScheduler.GreedyIsOptimal | core/parallel_processor.go:44-97 | No order-respecting conflict-free schedule has fewer waves |
| Execution.ReadyVerdict | core/parallel_processor.go:16-19 | A ready transaction run on a synced state has its in-order outcome |
| Execution.ReadyStep | core/state_processor.go:233-246 | Applying it extends the synced state by that transaction |
| Execution.SyncedUnique | core/state_processor.go:135-296 | Two states synced with the whole block agree on every account |
| GasPool.SubGas | core/gaspool.go:51-62 | A successful swap subtracts the amount from the current value, however old the load; the limit is reached exactly when the load is short; it retries only after interference |
| GasPool.AddGas | core/gaspool.go:36-47 | A successful swap adds to the current value without passing 64 bits; panics exactly on overflow of the loaded value |
| WavePool.StepKeepsJobInv | core/state_processor.go:190-194 | Every step of every worker keeps: each queued index is taken at most once, held by one worker or finished in one fork |
| WavePool.StepKeepsForkInv | core/state_processor.go:207-246 | Every step keeps: each fork is in sync with the earlier waves plus its own finished transactions |
| WavePool.StepKeepsReceiptInv | core/state_processor.go:245-246 | Every step keeps: each filed receipt is the in-order receipt |
| WavePool.StepKeepsGasInv | core/state_transition.go:291-291 | Every gas step keeps pool plus charges equal to the block limit and does not panic |
| WavePool.HeldVerdict | core/state_processor.go:233-244 | What a worker computes for its current transaction is that transaction's in-order outcome |
| WaveRuns.StepKeepsBoughtInv | core/gaspool.go:51-62 | Every step keeps: whoever bought gas could afford the limit when the wave started, and errors respect the order of the checks |
| WaveRuns.StepKeepsInv | core/state_processor.go:203-249 | One step by any worker keeps the whole invariant |
| WaveRuns.RunKeepsInv | core/state_processor.go:203-250 | Every schedule keeps it |
| WaveRuns.RunWave | core/state_processor.go:203-250 | The pool terminates with all workers stopped, whatever the scheduler chooses, and the invariant holds |
| WaveRuns.StepMakesProgress | core/gaspool.go:36-62 | Lock freedom: each step lowers a well-founded measure, so a failed swap is paid for by another worker's success |
| WaveRuns.CleanEnd | core/state_processor.go:250-256 | A wave ending without error finished every queued index exactly once, with a receipt and a fork, all acceptable in order |
| WaveRuns.RejectionIsReported | core/state_processor.go:237-256 | A wave holding an unacceptable transaction ends with an error in every schedule |
| WaveRuns.AcceptanceIsReported | core/gaspool.go:51-62 | With fitting limits and only acceptable transactions no schedule ever reports an error |
| WaveRuns.EnoughGasInWave | core/gaspool.go:51-62 | With fitting limits the pool covers a waiting transaction in every reachable state |
| GasExactness.GasLimitExact | core/state_processor.go:180-256 | For every worker count: no schedule of an acceptable wave reports an error if and only if every peak fits the remaining gas |
| GasExactness.LoadIsEnough | core/gaspool.go:51-62 | When the peaks fit, every load of the pool by a waiting transaction sees at least its limit |
| GasExactness.Overcommitted | core/gaspool.go:51-62 | A peak that does not fit is reached: a schedule to the gas-limit error is constructed by parking its transactions and running the others |
| GasExactness.LimitsMakePeaksFit | core/state_processor.go:180-186 | Limits that fit together make every peak fit, whatever the worker count |
| GasExactness.WorkerPerTransaction | core/state_processor.go:184-186 | With a worker for every queued transaction the peaks fit exactly when the limits fit together |
| GasExactness.Completes | core/state_processor.go:203-250 | Every reachable state can be run to the end, and the first error stays the first |
| BlockGas.DirectExact | core/state_processor.go:144-165 | A directly applied wave of acceptable transactions ends clean exactly when each finds its limit in what the ones before it left |
| BlockGas.BlockGasExact | core/state_processor.go:135-296 | For every configuration: acceptable transactions pass in every run of the block if and only if every wave has room |
| BlockGas.StateAtWave | core/state_processor.go:135-143 | Every wave of the schedule is reached by some state in sync with the earlier waves |
| BuyOrders.StepKeepsBuyInv | core/gaspool.go:51-62 | Every error-free step keeps: the purchases so far had room at their turn, and overtook fewer waiting transactions than there are workers |
| BuyOrders.CleanRunOrder | core/state_processor.go:203-256 | Every error-free run of the pool has bought in a feasible order with room at every turn |
| BuyOrders.OrderRuns | core/state_processor.go:203-256 | Conversely every feasible order with room is the purchase order of some error-free run |
| BlockOrders.CleanBlockOrder | core/state_processor.go:135-296 | A block run that passes has bought in some order of the block with room at every turn |
| BlockOrders.OrderRunsBlock | core/state_processor.go:135-296 | Every order of the block with room at every turn is a run that passes |
| OrderUse.Spend | core/gaspool.go:51-62 | Along an order uses can be pushed up until either all are at their most or some later limit leaves nothing |
| OrderUse.CoveredBounds | core/gaspool.go:51-62 | A covered amount fits next to whatever the set uses, for all uses with which the order gets through |
| OrderUse.Uncovered | core/gaspool.go:51-62 | An amount that is not covered fails to fit for some uses with which the order gets through |
| AcceptanceLimits.InOrderIsRoom | core/state_processor.go:145-165 | The in-order run of acceptable transactions passes exactly when each finds its limit in block order |
| AcceptanceLimits.AcceptanceExact | core/state_processor.go:135-296 | For all schedules, limits, least uses and configurations: every block of the shape is accepted by every run exactly as in order if and only if there is no false alarm and no false pass |
| AcceptanceLimits.BothMakeAlike | core/state_processor.go:135-296 | Under both conditions every run of every block of the shape ends like the in-order run, rejected transactions included |
| AcceptanceLimits.AlarmRefutes | core/gaspool.go:51-62 | An uncovered moment of a wave gives a block accepted in order that some run rejects |
| AcceptanceLimits.PassRefutes | core/gaspool.go:51-62 | An uncovered in-order turn gives a block rejected in order that some run accepts |
| AcceptanceCases.OneByOneExact | core/state_processor.go:144-174 | Waves applied one by one: alike if and only if the schedule's order and the block's order cover each other at every turn |
| AcceptanceCases.OneWaveExact | core/state_processor.go:176-256 | A block of one wave on the pool, whatever it uses: alike if and only if there is one worker, or the limits fit together, or some limit alone does not |
| AcceptanceCases.OneWorkerKeepsOrder | core/state_processor.go:190-209 | With one worker the only feasible order is the queue's |
| AcceptanceCases.ScheduledTogether | core/parallel_processor.go:44-97 | Transactions with disjoint declared sets all land in wave 0 |
| AcceptanceCases.WavesAloneReject | core/parallel_flags.go:26-30 | With wave execution off, in every configuration: a block accepted in order that the waves [0, 2] and [1] reject |
| AcceptanceCases.ParallelRejectsMore | core/state_transition.go:291-291 | Two workers: a block with two senders accepted in order that some run rejects |
| AcceptanceCases.ParallelAcceptsMore | core/state_transition.go:291-291 | Two workers: a block with two senders rejected in order that some run accepts |
| ScheduleIndependence.PoolConservation | core/gaspool.go:36-62 | After any schedule: pool plus charges is the block limit, in-flight transactions are charged their limit, finished ones their use, nobody panicked |
| ScheduleIndependence.CleanRunsAgree | core/state_processor.go:203-256 | Any two error-free schedules end with the same receipts, charges and pool |
| ScheduleIndependence.ErrorsAgree | core/state_processor.go:237-256 | With fitting limits, one schedule errs if and only if every schedule errs if and only if some transaction is unacceptable in order |
| WaveMerge.StateDB.MergeParallelChildAccounts | core/state/statedb.go:809-841 | The parent becomes the overlay of the fork's touched accounts; all others are unchanged |
| WaveMerge.StateDB.MergeParallelChildLogs | core/state/statedb.go:793-804 | One transaction's logs are added under its key, numbered from the running count on, and counted; no other key changes |
| WaveMerge.StateDB.SetBalance | core/state_processor.go:282-282 | Only the balance of one account changes |
| WaveMerge.MergeFork | core/state_processor.go:262-276 | Overlaying one more fork keeps every account except the coinbase at its in-order value, in any merge order |
| WaveMerge.CoinbaseDelta | core/state_processor.go:269-274 | Adding a fork's coinbase difference (either branch, modulo 2^256) adds exactly the fees of that fork's transactions |
| Processor.MergeForks | core/state_processor.go:262-276 | Each fork is merged once; the coinbase total is the wave-start balance plus all fees of the wave, however transactions were split over forks |
| Processor.MergeLogs | core/state_processor.go:277-279 | All finished transactions' logs are recorded, with their in-order contents, and numbered consecutively in wave order |
| Processor.MergeWave | core/state_processor.go:262-285 | After the merge the shared state is in sync with all transactions of this and the earlier waves |
| CoinbaseLimits.CoinbaseExact | core/state_processor.go:262-282 | Two transactions of one wave on two forks, whatever they do within disjoint declared sets: the merge gives the in-order result if and only if neither set contains the coinbase |
| CoinbaseLimits.DeclaredFirstLosesWrites | core/state_processor.go:262-282 | The earlier one declares it: the merge has the right balance and loses the nonce |
| CoinbaseLimits.DeclaredSecondReadsStale | core/state_processor.go:207-233 | The later one declares it: applied in order, rejected on a fork that has not seen the fee |
| BlockChain.FindFork | core/blockchain.go:2348-2393 | Terminates; returns both branches down to a common block, or fails only for unrelated blocks |
| BlockChain.ForkIsHighest | core/blockchain.go:2354-2393 | The two ancestries agree at a height exactly up to the fork found |
| BlockChain.ForkChains | core/blockchain.go:2354-2393 | New ancestry is the shared prefix plus the reversed new branch; the abandoned part is the reversed old branch |
| BlockChain.ReorgLookup | core/blockchain.go:2453-2503 | Writing the new branch's lookups and deleting the difference leaves exactly the table of the new chain |
| BlockChain.HeadLookup | core/blockchain.go:1209-1230 | Adding the head block's transactions completes the table |
| BlockChain.Chain.WriteHeadBlock | core/blockchain.go:1209-1230 | All three head markers, the number entry and the transaction entries of the block are set, nothing else |
| BlockChain.Chain.SwitchIndexes | core/blockchain.go:2471-2521 | Both indexes move from the old chain to the new one, stale numbers above included |
| BlockChain.Chain.TruncateCanonical | core/blockchain.go:2504-2521 | Exactly the numbers from the given one up are removed |
| BlockChain.Chain.Reorg | core/blockchain.go:2348-2525 | Succeeds exactly for related heads; then the indexes are those of the new ancestry up to the head or its parent; on failure nothing changes |
| BlockChain.Chain.SetHead | core/blockchain.go:1557-1566 | The step both callers share: keeps index agreement, and the head moves exactly when the block's ancestry reaches genesis |
| BlockChain.Chain.WriteBlockAndSetHeadTo | core/blockchain.go:1652-1666 | Stores the block exactly when its parent is known and keeps index agreement |
| BlockChain.Chain.WriteKnownBlockAsHead | core/blockchain.go:1557-1566 | Moves the head to the block exactly when it is stored and descends from genesis; otherwise nothing moves; indexes agree |
| BlockChain.Chain.SetCanonicalHead | core/blockchain.go:2560-2566 | The same for a block set by the caller |
| BlockChain.HeadIsLastGranted | core/blockchain.go:1652-1681 | After any sequence of head operations the head is the block of the last one that could be granted, and the old head if none could; granted means stored and descending from genesis at that moment |
| BlockChain.Chain.Run | core/blockchain.go:1652-1681 | After every sequence of head operations both indexes agree with the head's ancestry, the head is the block of the last operation that could be granted, and the store holds exactly what was written on a known parent |
| HeaderChain.Chain.Reorg | core/headerchain.go:122-186 | For extension, side fork, overlap and shorter chains the index becomes the last header's ancestry; fails exactly when an ancestor is missing, changing nothing |
| HeaderChain.Chain.CrossLink | core/headerchain.go:145-163 | The backward walk on the unmodified database finds the shared prefix and the exact path to overwrite |
| HeaderChain.Chain.WriteHeaders | core/headerchain.go:192-237 | Error exactly when the parent is unknown; otherwise the batch and nothing else is stored, and the count starts at the first unknown header |
| HeaderChain.Chain.WriteHeadersAndSetHead | core/headerchain.go:247-274 | Exact condition of each outcome, imported and ignored counts, and index agreement in all of them |
| HeaderChain.Chain.GetAncestor | core/headerchain.go:352-384 | The answer is that many parent steps up, present exactly when the walk exists and non-canonical steps fit the budget, which is reduced by exactly those steps |
| HeaderChain.UpOneMore | core/headerchain.go:352-384 | The ancestor one step further is the parent of the last one, and missing exactly when a header is |
| HeaderChain.SideStepsMeaning | core/headerchain.go:367-384 | The budgeted steps are exactly those before the first canonical ancestor, the ancestor asked for or a missing header |
| HeaderChain.ForkedIndex | core/headerchain.go:136-176 | Deletions, path writes and batch writes together give the new index |
| Feed.FindCase | event/feed.go:203-210 | The first position of the channel, or -1 exactly when absent |
| Feed.DeleteCase | event/feed.go:213-215 | The prefix loses exactly that entry, in place, order kept |
| Feed.DeactivateCase | event/feed.go:218-222 | The entry is swapped behind the active prefix, which shrinks by one |
| Feed.Send | event/feed.go:136-172 | On the array itself, with any readiness and any cancellations: the served prefix stays a prefix of the cases, everybody present is served or removed, and what remains is the start minus the removed |
| Feed.NextKeepsInv | event/feed.go:95-180 | Every atomic event of Subscribe, Unsubscribe and Send keeps the protocol invariant |
| Feed.FeedIsConsistent | event/feed.go:95-116 | After any interleaving: no panic, inbox plus cases are exactly the live and leaving subscriptions, and a removal always finds its case |
| Feed.SendIsExact | event/feed.go:136-172 | In any interleaving each case the round began with is delivered at most once, exactly once unless removed; nsent counts deliveries; the cases are the start minus the removed |
| FeedRuns.MergeTakesEveryone | event/feed.go:130-134 | A Send begins with exactly the subscriptions in force and those being cancelled, the inbox included, and leaves the inbox empty |
| FeedRuns.SubscribersAreServed | event/feed.go:120-172 | In every run, when a Send is over: whoever was subscribed when it took over the inbox has been served once per subscription, but for cancellations made meanwhile, and nobody else has |
| FeedRuns.CasesAreSubscriptions | event/feed.go:73-116 | In every run the subscriptions in force are those made and not cancelled, and the cases are these and the cancellations under way |
| FeedRuns.RemovalCompletes | event/feed.go:111-114 | A cancellation that gets the lock deletes one case of its channel and hands the lock back |
| FeedRuns.RoundAdvances | event/feed.go:145-172 | Every delivery, removal or failed attempt of a Send lowers a well-founded measure |
| FeedRuns.SendCanFinish | event/feed.go:128-180 | From every reachable state with the lock free a Send with ready receivers runs to its end, hands back the lock and keeps every subscription |
| StateTransition.TransactionToMessage | core/state_transition.go:172-199 | Fails exactly for a bad signature; otherwise the message has the transaction's cap and tip and the price min(tip + base fee, cap), for a single price that price three times, every other field is the transaction's own, and the message is well priced before and after London |
| StateTransition.UpfrontCovered | core/state_transition.go:262-304 | The balance check covers the amount charged and the value together |
| StateTransition.RequiredIsWorstCase | core/state_transition.go:262-290 | The balance asked for is the same under all base fees, never less than charge and value, and equal to them when both base fees are at the caps |
| StateTransition.EachBlobPays | core/state_transition.go:272-283 | Blob gas is one blob's gas per hash in 64-bit arithmetic, none without hashes |
| StateTransition.PurchaseExact | core/state_transition.go:284-302 | The dropped conversion is exact, the subtraction cannot underflow, and the value remains |
| StateTransition.FeesBalance | core/state_transition.go:543-556 | Refund and tip products do not wrap and total balance falls by exactly the burned fees |
| StateTransition.Transition.BuyGas | core/state_transition.go:262-304 | Succeeds exactly when the required balance fits 256 bits and is available and the pool covers the limit; otherwise the first of these that fails is the error and nothing changes |
| StateTransition.Transition.CheckSender | core/state_transition.go:309-330 | The error is that of the first broken rule on nonce and sender, none if all are kept |
| StateTransition.Transition.CheckFees | core/state_transition.go:332-355 | The same for the fee rules |
| StateTransition.Transition.CheckBlobs | core/state_transition.go:357-391 | The same for the blob rules |
| StateTransition.Transition.CheckLists | core/state_transition.go:393-404 | The same for authorizations and the gas cap |
| StateTransition.Transition.CheckCall | core/state_transition.go:441-484 | The same for the rules between purchase and call, with the gas and the floor they establish |
| StateTransition.Transition.PreCheck | core/state_transition.go:306-406 | Succeeds exactly when nonce, sender, fees, blobs, authorizations, gas cap, balance and pool are in order; otherwise the error is that of the first rule broken, and neither balances nor pool change |
| StateTransition.KeepsPreRules | core/state_transition.go:306-406 | All rules are kept exactly when the message is checked, paid for and has room |
| StateTransition.TransferCovered | core/state_transition.go:472-479 | For messages made from transactions the transfer rule is never the first one broken |
| StateTransition.Transition.Admit | core/state_transition.go:418-484 | The error is that of the first rule broken; for messages made from transactions: passes exactly the admissible ones, and the transfer check never fails |
| StateTransition.Transition.Settle | core/state_transition.go:522-570 | Used gas is peak minus capped refund, at least the floor, at most the limit, without underflow; the rest goes back to sender and pool |
| StateTransition.Transition.Execute | core/state_transition.go:418-570 | Rejected with the error of the first rule broken; executed exactly for admissible messages after London; gas result as EIP-3529 and EIP-7623 prescribe; pool loses used gas; ether conserved except the burned fees |
| MessageFootprint.SettledStaysInFootprint | core/state_transition.go:418-570 | A transaction that reports a settled message over a call within its declared set stays in its footprint: gas within the limit, nothing else touched, coinbase credited with exactly the tip |
| StateTransition.RefundOf | core/state_transition.go:631-647 | The refund is the largest number within the counter whose quotient-fold is within the gas used, with the quotient of EIP-3529 from London on and the older one before |
| StateTransition.ChargedMeaning | core/state_transition.go:522-540 | From Prague on at least the floor is charged; unless the floor takes over, exactly the refund is let off |
| GasSchedule.IntrinsicGas | core/state_transition.go:71-117 | Error exactly when the true data sum exceeds 64 bits; otherwise data part exact, list part added modulo 2^64 |
| GasSchedule.ByteByByte | core/state_transition.go:74-107 | The data part is the base plus the price of each byte, by value and fork, plus a word price at every 32nd byte of init code |
| GasSchedule.EntryByEntry | core/state_transition.go:109-115 | The list part adds the address price, each key's price and the authorization price entry by entry |
| GasSchedule.TokenByToken | core/state_transition.go:121-125 | A zero byte is one token, any other byte the fixed number |
| GasSchedule.CountZero | core/state_transition.go:83-84 | The number of positions that hold a zero byte |
| GasSchedule.FloorDataGas | core/state_transition.go:120-132 | Error exactly when the floor does not fit; exact while the token count fits |
| GasSchedule.ToWordSize | core/state_transition.go:135-141 | The exact ceiling of size/32 for every 64-bit size |
| GasSchedule.GuardIsExact | core/state_transition.go:89-104 | The division guard fires exactly when the running sum would overflow |
| HashCache.HashFn.GetHash | core/evm.go:98-134 | The cached answer is that of a fresh parent walk; the cache only grows and cache[k] stays the hash k+1 below the reference |
| HashCache.HashFn.GetHashes | core/evm.go:98-134 | Every sequence of queries is answered as by fresh walks |
| HashCache.WalkIsAncestry | core/evm.go:120-131 | On a well-formed chain the walk gives the ancestor of that number |
| HashCache.AnswerIsAncestor | core/evm.go:98-134 | A query below the reference gets the ancestor's hash as far down as headers are linked, and the zero hash above the reference or below a missing header |
| TxIndexer.IterateTransactions | core/rawdb/chain_iterator.go:97-172 | Delivers blocks of the range in any order, each at most once; all of them unless interrupted |
| TxIndexer.Indexer.Import | core/blockchain.go:1215-1215 | An imported block's lookups are stored whatever the tail; a table that agrees with a present tail keeps agreeing |
| TxIndexer.Indexer.Repair | core/txindexer.go:155-212 | From every state: afterwards the tail is absent or within [cutoff, head], a fitting tail and its table are left alone, a purge empties the table, agreement is kept |
| TxIndexer.Indexer.Index | core/rawdb/chain_iterator.go:182-254 | For every delivery order, gap and crash point: table and tail on disk agree; without a crash the tail is the end of the contiguous part delivered |
| TxIndexer.Indexer.Unindex | core/rawdb/chain_iterator.go:278-350 | The same for removal upwards |
| TxIndexer.Indexer.Run | core/txindexer.go:105-148 | From every table: uninterrupted, the tail is the window start, the report says nothing remains, and the table is given exactly; a first run makes it the window if and only if it held nothing outside; cut short anywhere, agreement is kept |
| TxIndexer.FirstRunLeavesEntries | core/txindexer.go:115-127 | Six imported blocks and a window of two: the tail says 4 and the entries below stay |
| TxIndexer.Indexer.Restarts | core/txindexer.go:105-212 | From every state, after any number of cut runs with repairs, one complete run leaves the tail at the window start; agreement is kept |
| TxIndexer.ReportMeaning | core/txindexer.go:282-315 | Up to the head's successor, and only there, indexed counts the blocks from the tail on; remaining is 0 exactly when the tail has reached the window; beyond, indexed wraps |
| TxIndexer.ReportWithoutTail | core/txindexer.go:282-315 | Below the cutoff nothing is reported; without a tail the whole window remains, except that 2^64 blocks count as none |
| TrieGC.Collector.WriteBlock | core/blockchain.go:1599-1647 | References not dropped equal queue entries; the queue keeps exactly the entries above the retention bound |
| TrieGC.Collector.Collect | core/blockchain.go:1638-1646 | Exactly the entries numbered above the bound stay, each other one is dereferenced once |
| TrieGC.Collector.Stop | core/blockchain.go:1305-1307 | Empties the queue and drops every reference still held, each once |
| TrieGC.Collector.WriteBlocks | core/blockchain.go:1599-1647 | After any sequence of blocks a root is still held exactly as often as it was written and not left behind by a block written then or later |
| TrieGC.Collector.Run | core/blockchain.go:1599-1647 | Any sequence of blocks and a stop: every block's root was referenced once, and every reference dropped once |
| DerivationPath.ParseDerivationPath | accounts/hd.go:68-118 | The loop computes the recursive parse: absolute or relative, hardened components, the first bad component as error |
| DerivationPath.PathString | accounts/hd.go:122-136 | The loop computes the printed form |
| DerivationPath.RoundTrip | accounts/hd.go:68-136 | Parsing a printed path returns it for every non-empty list, and the empty error for the empty one |
| DerivationPath.RelativeRoundTrip | accounts/hd.go:77-95 | A printed path without its root is read relative to the default root |
| PathText.DefaultRoot | accounts/hd.go:28-31 | The default root is the path with the text m/44'/60'/0'/0, read and printed |
| PathText.ComponentMeaning | accounts/hd.go:90-112 | A decimal component is its number up to 32 bits, with an apostrophe that number plus 2^31 up to 31 bits, out of range beyond; spaces around number, apostrophe and component are ignored |
| PathText.DecimalText | accounts/hd.go:101-104 | Without sign or leading zero the text is decimal: digits with single underscores between, by place value; anything else is refused |
| PathText.PrefixedText | accounts/hd.go:101-104 | 0b, 0o and 0x in either case read base 2, 8 and 16; a bare prefix is refused |
| PathText.OctalText | accounts/hd.go:101-104 | A leading zero alone reads base 8 |
| PathText.SignedText | accounts/hd.go:101-104 | A plus sign changes nothing, a minus sign negates |
| PathText.TrimPadded | accounts/hd.go:91-92 | Trimming removes exactly the spaces around a text |
| PathText.LeadingSlash | accounts/hd.go:77-78 | A path that is empty or begins with a slash is ambiguous |

## Left out

- EVM interpretation, journal and trie internals of the state, RLP, signatures and KZG: a transaction is an abstract function with a footprint, a call an ether-conserving one.
- System calls, withdrawals, requests and consensus finalization around the waves; pre-Byzantium intermediate state roots in receipts.
- The log indices inside receipts, which a pool wave takes from the fork; those of the shared state are modelled.
- `sort.Ints` on a wave: every wave is proved ascending, so sorting changes nothing.
- Error, preimage, witness and access-event merging of a fork, and database read errors.
- Timing, tracing, metrics and debug output.
- Memory shared between forks and parent: a fork is a value, so aliasing through the deep copy is not modelled.
- WaveMerge.StateDB.MergeParallelChildAccounts: deletion is an overlay by the empty account, so destruct records are not modelled.
- AcceptanceCases.OneWaveExact: assumes nothing about the gas a transaction uses; with a known least use the condition is that of AcceptanceExact.
- AcceptanceLimits.AcceptanceExact: all senders recover; with grouping on a missing sender ends the block before any wave.
- MessageFootprint.SettledStaysInFootprint: that a transaction reads only declared accounts stays an assumption.
- StateTransition.Transition.Execute: conservation is for successful messages; after a failure following buyGas nothing is restored, because the block is rejected.
- StateTransition.TransactionToMessage: a message without a fee cap, which only simulations build, is not modelled.
- Simulation-only switches (NoBaseFee, SkipNonceChecks, SkipFromEOACheck), the nonce increment and the application of authorizations inside execute.
- HashCache.HashFn.GetHash: calls are one at a time; the cache is not synchronised in the source.
- HeaderChain.Chain.WriteHeaders: header number 0 counts as an unknown ancestor, and interruption and disk failures are not modelled.
- BlockChain.Chain.Reorg: block bodies are present and no chain repeats a transaction hash; the error returns that keep the lookup lock, and removed/rebirth log events, are not modelled.
- State recovery in SetCanonical, and the events sent after a head change.
- Feed payload values, element type checks and lazy initialisation; event/feedof.go is a typed copy.
- TxIndexer.Indexer.Run: head + 1 stays below 2^64 where the report is concerned.
- TxIndexer.Indexer.Repair: is not interrupted between its two deletions, which the source accepts as leaving dangling entries.
- TxIndexer.Indexer.Index: the priority queue of deliveries is a set of block numbers (Unindex likewise).
- TrieGC.Collector.WriteBlock: the queue is searched for its oldest entry instead of being a heap, and flushing and committing tries by size or time is not modelled.
- Snap sync, freezer, ancient store, genesis setup, peers, RPC, GraphQL, console and wallets.
