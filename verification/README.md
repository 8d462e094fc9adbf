# A model of the pool site, the explorer's pool list and the miner

This Dafny project models the parts of the repository whose correctness is hardest to see by
reading, and proves what their comments and tests promise. `dafny verify dfyconfig.toml` checks
all of it.

**The response cache** (`pool/server.py`). `cached` is modelled as a protocol: any number of
threads, each with a stack of nested calls, interleave one step at a time over 64 shared compute
locks, four refresh slots, the set of keys being refreshed and the cache. Builders may nest to any
depth, fail, or go on for any length of time; lock waits may time out; a background thread runs a
builder without a compute lock. `ResponseCache` is the protocol, `CacheSafety` its invariant,
`CacheOutcomes` what follows for callers, `CacheFreshness` what is in the cache, told from the events
of a run alone, `CacheStore` the eviction as it is written. A refresh renews the copy it was started
for: `RenewedCopyIsServed` follows its payload from the builder's answer to the call it is served to. A call keeps
what it has done and what was shared then, so that `AnswersAreFromTheirKey` can say how it came by
its answer and how old that was. The model found one leak: when starting the refresh thread fails,
its slot is never given back and its key stays marked for ever. `SlotsAddUp` and
`MarkedKeysAreRefreshed` say so of every run, in terms of the starts that failed in it, and
`ASlotCanBeLost` gives a run.

**The found-block scanner and the round ledger** (`pool/server.py`,
`pool/tools/backfill_found_blocks.py`). The node and the block log may answer differently at every
call, or not at all. `Ledger` is the round tables, `FoundBlocks` the scanner, `Backfill` the repair
tool, `ScanHistory` what the marks in the scanner's history mean in terms of questions and answers,
`ScannerRuns` the promises over every run from an empty database, `CreditedWork` how much work a run
credits, `BookedBlocks` when a block is booked, answer by answer, `RoundClosings` which blocks close
the running round and with how much work, `BackfillEffects` what the repair tool lists and writes, and
`PoolSite` the same operations as methods that update the tables. What became of a
tagged block is always told of the time after it was last looked at, so that it covers the block that
replaces another. A backfill applies what a plan found in the log at some earlier
question, its own or the scanner's. "Nothing is lost" is false in one case, which
`HeldBlockIsLostExactlyWhen` states: a held block that `getblockhash` first reports as replaced and,
asked again a moment later, reports back in its place while the log still lacks it, is written and
then deleted. `AHeldBlockCanBeLost` is a run in which it happens.

**The explorer's pool table** (`node/pools/pools-sync.py`). `PoolMerge` builds the list and says what
comes before what on it, `PoolNames` what the pools on it are called, `PoolTable` brings the table in
line with it, `UpsertEffects` says what that writes, `PoolPlaces` which ids pools and blocks end with, `Rekey` and `PoolRenumber` move primary keys row by
row through a scratch range, `PoolSync` shows that scanning by id and scanning by priority agree,
`PoolRetag` attributes blocks again, `PoolFixedPoint` and `PoolRuns` run it all again on the same
list, and `PoolsDb` is the database changed in place. Three findings, each with an input in
`PoolExamples`. Nothing checks that parked rows stay below the scratch range, and
`RenumberFailsExactlyWhen` says when that makes the second statement collide. A table with a second
`unknown` row is renumbered by every further run, for ever, once it has been renumbered; in every
other case `FurtherRuns` shows that pools, blocks and ids stay as the first run left them. And a list
that names the Unknown pool with matchers of its own puts it where its priority says, while its row
has the highest id: for a block that it and another pool match, the backend names the other
(`IdOrderAgreesWithPriority`). The table must have a row with the slug `unknown`, or the list an entry:
without either the script stops with an error.

**Accounts** (`pool/server.py`). `Makegood` is the walk over an issued split and the custody fee;
the claim that the two figures of the earnings window add up to what was owed holds exactly when
every block paid an address whole entries. `ShareAccounting` and `ShareTables` show that counting
all samples at once agrees with counting them as they come in, but for samples without an address and
workers whose samples the two count in different orders. `Luck` and `LuckMeter` show that the sum
carried from call to call is the integral over the table, on every list of epochs that covers it;
`LuckMeter` takes the chain not to be reorganised across a retarget. An unchanged list is told by its
length and first entry, which is right exactly when no two retargets have one header time and one
difficulty (`SignaturesTellExactlyWhen`).

**Numbers and formats**. `Bits` and `Targets` are the 256-bit targets of `miner/miner.py`.
`Checksum`, `Regroup`, `Segwit`, `Base58` and `PayoutAddress` are the address decoders of
`cloudflare/mcp/src/address.js`, with JavaScript's 32-bit operators written out; their formats are
those of BIP 173, sections "Bech32" and "Segwit address format", and of BIP 350. `Bech32Field` shows
that the checksum is a remainder over the field of 32 elements, `SegwitEncode` writes addresses as the
standards say and `PayoutExactly` shows that just these are accepted; `SegwitExamples` has one address
of each kind from the standards, its checksum followed in `ChecksumTraces`. `CoinbaseTag` is
the DATUM coinbase layout and its two parsers.

Work, rates and difficulties are reals; satoshis, heights and shares are whole numbers. Hashes,
regular expressions, the node's answers and the contents of blocks are parameters about which
nothing is assumed. Ids that the database picks are above all ids in use.

## Model

| member | source | states |
|---|---|---|
| `ResponseCache.StoreKeepsTheLimit` | pool/server.py:2039-2047 | after storing, the key has the new entry and every other is as it was or gone; none is gone unless 512 were there, and then at least 384 stay, none of them older than one that is gone |
| `ResponseCache.SomeVictimsExist` | pool/server.py:2042-2044 | a full cache always has a quarter of oldest entries to drop |
| `CacheStore.SortedByAge` | pool/server.py:2043 | every key once, oldest entry first |
| `CacheStore.FrontIsEvictable` | pool/server.py:2043-2044 | the front of that order is a legal choice of entries to drop |
| `CacheStore.RespCache.Pop` | pool/server.py:2043-2044 | the first quarter of the order is gone, all else stays |
| `CacheStore.RespCache.Store` | pool/server.py:2039-2047 | the cache after storing is the one the protocol model allows, and has at most 512 entries |
| `CacheSafety.LockSteps` | pool/server.py:2105-2137 | a call takes a compute lock only when it is free and gives back only one it took itself |
| `CacheSafety.LocksStay` | pool/server.py:2057-2137 | locks marked as taken are exactly those some unfinished call holds; every step keeps this |
| `CacheSafety.SlotSteps` | pool/server.py:2084-2104 | a step of a call moves a refresh slot between the pool and a holder; only a thread that cannot be started loses one |
| `CacheSafety.ClaimSteps` | pool/server.py:2084-2104 | a step of a call makes a claim on a key, hands it to the refresh thread, or, only when that thread cannot be started, leaves the key marked without one |
| `CacheSafety.ClaimsStay` | pool/server.py:2084-2104 | every marked key has exactly one claim or was orphaned, and the one step that orphans a key is a start that fails |
| `CacheSafety.AnswerSteps` | pool/server.py:2074-2137 | after each step what a call has in hand is a copy it found younger than its time to live, a stale one within its bound, its own build, or, after a failure, the old copy of its first look |
| `CacheSafety.EventKeepsInv` | pool/server.py:2057-2137 | every event of any thread, and the passing of time, keeps the invariant |
| `CacheSafety.ReachableInv` | pool/server.py:2057-2137 | the invariant holds in every reachable state of any number of threads |
| `CacheSafety.WaitingHoldsNoLock` | pool/server.py:2105-2118 | a thread that may wait for a compute lock holds none |
| `CacheSafety.LockHoldersMove` | pool/server.py:2105-2137 | whoever holds a compute lock, even several by nested try-locks, is not waiting and can take a step |
| `CacheSafety.NoDeadlock` | pool/server.py:2057-2137 | while any thread is not at rest, some thread can move |
| `CacheSafety.UnlockIsByTheTaker` | pool/server.py:2135-2137 | a release is always of a lock that is taken, by the very call that took it |
| `CacheSafety.LockStaysWithItsTaker` | pool/server.py:2105-2137 | a taken lock stays with its taker through every step of every other thread, and of its own but the release |
| `CacheOutcomes.CallStepWeighsLess` | pool/server.py:2057-2137 | each step of a call leaves it less to do |
| `CacheOutcomes.WorkRunsOut` | pool/server.py:2057-2137 | the steps of a run in which no call is made are bounded by a measure of its first state |
| `CacheOutcomes.EveryCallReturns` | pool/server.py:2057-2137 | such a run ends, and where nothing can move any more every call has returned |
| `CacheOutcomes.TalliesAreFailedStarts` | pool/server.py:2084-2104 | over any run the slots lost are as many as the starts that failed, and the keys left marked are just theirs |
| `CacheOutcomes.SlotsAddUp` | pool/server.py:2084-2104 | over any run free slots, held slots and failed starts are four: each slot taken is given back once, if and only if no start failed |
| `CacheOutcomes.ASlotCanBeLost` | pool/server.py:2095-2104 | a run of one thread that ends at rest with three slots and a key still marked |
| `CacheOutcomes.AtMostFourRefreshes` | pool/server.py:2009-2009 | at most four background builds run at once |
| `CacheOutcomes.OneRefreshPerKey` | pool/server.py:2093-2102 | at most one thread has a claim on a key, even between giving its slot back and clearing the mark |
| `CacheOutcomes.MarkedKeysAreRefreshed` | pool/server.py:2084-2102 | over any run a key is marked exactly when some thread will clear the mark or a start for it has failed, and never both |
| `CacheOutcomes.AnswersAreFromTheirKey` | pool/server.py:2074-2137 | a value answered was built for that key and is: younger than ttl when looked at; or stale but younger than max(5 ttl, 20 s) when looked at, with a refresh under way, started, or without a slot; or built and stored by this call; or, after a failed build or a timeout, the old copy. It raises only without one, or when a start failed |
| `CacheOutcomes.PastHappened` | pool/server.py:2057-2137 | what a call is recorded to have done, its thread did in the run, with that shared at the time |
| `CacheOutcomes.BuildsOfOneKey` | pool/server.py:2105-2118 | of two simultaneous builds of one key by calls, one is nested and has no lock |
| `CacheOutcomes.CacheStaysSmall` | pool/server.py:2039-2047 | at most 512 entries in every reachable state |
| `CacheOutcomes.WaitsOnlyForItsLock` | pool/server.py:2004-2028 | a call that waits for a compute lock waits for a call that holds it, whose key falls on the same of 64 |
| `CacheOutcomes.OneHolderToALock` | pool/server.py:2004-2028 | no two calls whose keys fall on one of the 64 locks hold it at once |
| `CacheFreshness.EntryStands` | pool/server.py:2039-2047 | over any run an entry stays as it is until an event stores under its key or evicts it |
| `CacheFreshness.CacheIsWhatWasPut` | pool/server.py:2039-2137 | in any run of a fresh process a key has a payload and a time exactly when some event stored that and no later one stored under the key or evicted it |
| `CacheFreshness.RefreshStores` | pool/server.py:2083-2092 | the answer of a refresh is stored: after its builder answers, its thread still has the payload to store or there is an event that stored it under the key |
| `CacheFreshness.CallStoresWhatItBuilt` | pool/server.py:2120-2130 | what a call stores is what its own builder answered, under its own key |
| `CacheFreshness.RenewedCopyIsServed` | pool/server.py:2074-2092 | a refresh whose builder answered v and stored it at a time renews the copy: while no event touches the key, a look less than ttl after that ends the call with v of that time |
| `CacheFreshness.YoungCopyIsServedAgain` | pool/server.py:2119-2124 | so does the second look, once the lock is given back |
| `CacheFreshness.AgesAreBounded` | pool/server.py:2049-2137 | a copy that was found and served is younger than ttl, or than 5 ttl or 20 s; only a call that failed serves an older one, or one that it built itself |
| `CacheFreshness.BuildsOnlyForCause` | pool/server.py:2117-2124 | a call runs its builder only after a second look that found no copy younger than ttl |
| `CacheFreshness.CachedWasAnswered` | pool/server.py:2057-2137 | in any run of a fresh process whatever is in the cache under a key, a builder of that key answered |
| `Ledger.EnsureOpenKeeps` | pool/server.py:1841-1848 | afterwards exactly one round is open, no round was dropped, no height gained a round |
| `Ledger.CloseKeeps` | pool/server.py:3191-3229 | exactly one round is open afterwards, the open round's work is now in the closed one, the closing heights rise |
| `Ledger.LateBlockLeavesTheRunningRound` | pool/server.py:3232-3257 | a block booked late changes neither the open round nor its work |
| `Ledger.BookRoundKeeps` | pool/server.py:3698-3709 | booking closes the running round exactly when the block has two outputs or more, its height had no row and no round is at or above it; the open round then has the height, the hash and all the work there was, and one fresh round is open; otherwise the running round goes on |
| `Ledger.BookRoundIs` | pool/server.py:3698-3709 | what becomes of the rounds, case by case: closed, recorded apart without work below a later round, or nothing |
| `Ledger.CreditKeeps` | pool/server.py:2906-2927 | a sample credits what the counter grew since the last one, all of it when it is new or has gone back, and never less than nothing, to its own address; a round is open afterwards and the ledger in order |
| `Ledger.MatureKeeps` | pool/server.py:3260-3271 | exactly the rounds whose heights are due become payable; no height, no work and not the open round changes |
| `PoolSite.PoolDb.constructor` | pool/server.py:228-290 | a new database is the empty state that all runs start from |
| `PoolSite.PoolDb.EnsureOpenRound` | pool/server.py:1841-1848 | updates the rounds table to the state proved about in Ledger |
| `PoolSite.PoolDb.CreditRoundWork` | pool/server.py:2906-2927 | the same for round_work |
| `PoolSite.PoolDb.SumOfWork` | pool/server.py:3198-3199 | the loop over the rows with work, in any order, gives their sum |
| `PoolSite.PoolDb.CloseRoundForBlock` | pool/server.py:3191-3229 | the same for closing a round |
| `PoolSite.PoolDb.RecordOnly` | pool/server.py:3232-3247 | the same for a late block's own round |
| `PoolSite.PoolDb.MatureRounds` | pool/server.py:3260-3265 | exactly the rounds whose blocks are deep enough become payable |
| `PoolSite.PoolDb.BookFoundBlock` | pool/server.py:3681-3709 | one row per height, and the round rule that fits |
| `FoundBlocks.BookingSettles` | pool/server.py:3698-3709 | a booked block is settled and no other block becomes unsettled |
| `FoundBlocks.HoldingSettles` | pool/server.py:3740-3747 | holding a block settles it; only a block held at the same height before can lose its row |
| `FoundBlocks.ScanBlockKeeps` | pool/server.py:3712-3749 | a look at a height, with any failure of the node or log, leaves every block seen accounted for, but one held there before |
| `FoundBlocks.ScanBlockVouches` | pool/server.py:3740-3749 | what a look books was in the log, or the log could not be read |
| `FoundBlocks.ScanBlockFrame` | pool/server.py:3712-3749 | a look that fails changes no table; one that does not touches the held row of that height only |
| `ScanHistory.LookMarks` | pool/server.py:3712-3749 | a look succeeds exactly when the node names a block and gives it, and acts on its tag; a tagged block is then last looked at, with nothing become of it since; a look that fails leaves every mark |
| `ScanHistory.RecheckRowKeepsOrder` | pool/server.py:3752-3782 | a rechecked row stays settled: given up only if, after its last look, it was on the chain without a yes of the log under a tip 100 above it; replaced only if, after its last look, another block was named at its height and looked at |
| `ScanHistory.RecheckKeepsOrder` | pool/server.py:3752-3782 | the same for all held rows in turn |
| `ScanHistory.ScanRangeKeepsOrder` | pool/server.py:3799-3804 | the heights passed are those the node named and gave a block for, without a gap, and nothing held lies above them |
| `ScanHistory.PassKeepsOrder` | pool/server.py:3785-3806 | a whole pass keeps every invariant of the tables, and every mark it makes is explained by questions asked after the block's last look |
| `BookedBlocks.LookIs` | pool/server.py:3712-3749 | what a look makes of the tables, answer by answer: a tagged block is booked when the log has it or cannot be read, held when it lacks it; a solo block that pays the fee is logged; nothing else changes |
| `BookedBlocks.AskIs` | pool/server.py:3766-3782 | what a recheck makes of a held block still on the chain: booked and its row gone once the log has it and the node gives it, dropped when unknown under a tip 100 above it, and kept otherwise |
| `BookedBlocks.HeldExactlyWhen` | pool/server.py:3752-3782 | a held block is held after its recheck exactly when the node did not answer, or did not give the logged block, or the log lacked it less than 100 below the tip, or the block in its place could not be looked at |
| `BookedBlocks.LoggedIsBooked` | pool/server.py:3766-3774 | in any pass that gets a tip: a held block that the node still names at its turn, that the log has and the node gives, is booked, has its found row and is held no longer |
| `BookedBlocks.HeldForWantOfAnAnswer` | pool/server.py:3752-3782 | over any run a block is held through a pass exactly when at its turn one of those answers was missing, or it was unknown and not deep yet |
| `BookedBlocks.HeldBlockIsBooked` | pool/server.py:3752-3774 | over any run: once chain and log agree on a held block, the next pass that gets a tip books it |
| `BookedBlocks.NoTipNoPass` | pool/server.py:3785-3790 | a pass that gets no tip changes nothing |
| `BookedBlocks.PassReaches` | pool/server.py:3785-3806 | a pass starts after the last height, or 80 below the tip and not below 961640; it comes to the tip or forty heights on, or stops at the first height the node does not answer for |
| `PoolSite.PoolDb.LookAt` | pool/server.py:3712-3749 | the look at one height, updating the tables |
| `PoolSite.PoolDb.DropPending` | pool/server.py:3763-3776 | only a row with this height and this hash goes |
| `PoolSite.PoolDb.LookAtHeld` | pool/server.py:3759-3765 | a held block that is not on the chain: its height is looked at first, its row dropped after |
| `PoolSite.PoolDb.AskForHeld` | pool/server.py:3766-3782 | a held block that is: booked, given up when deep enough, or kept |
| `PoolSite.PoolDb.RecheckOne` | pool/server.py:3754-3782 | one row of the recheck |
| `PoolSite.PoolDb.PendingRows` | pool/server.py:3754 | every held row once, by height |
| `PoolSite.PoolDb.RecheckPendingBlocks` | pool/server.py:3752-3782 | all of them, in that order |
| `PoolSite.PoolDb.ScanHeights` | pool/server.py:3799-3804 | the loop over the heights stops at the first the node does not answer for |
| `PoolSite.PoolDb.ScanFoundBlocks` | pool/server.py:3785-3806 | the pass, updating the tables |
| `ScannerRuns.RunKeeps` | pool/server.py:3712-3806 | every run of passes, credits, maturings, plans and backfills keeps the invariants and the meaning of the marks |
| `ScannerRuns.NoHeightIsSkipped` | pool/server.py:3785-3806 | for every height from the first start to scan_height the node named a block and gave it, and its tag was acted on; the first start is as the tip said |
| `ScannerRuns.NothingTaggedIsLost` | pool/server.py:3712-3806 | every tagged block is booked, or held, or, after its last look, was on the chain without a yes of the log under a tip 100 above it, or was followed by a look at another block named at its height; but for the case below, at that very look |
| `ScannerRuns.TheLatestIsKept` | pool/server.py:3756-3765 | so the tagged block looked at last at a height, the replacement after a reorganisation, is booked, held, given up or superseded by an untagged one |
| `ScannerRuns.HeldBlockIsLostExactlyWhen` | pool/server.py:3756-3765 | a recheck loses a held block, whatever became of it before, exactly when getblockhash flips back to it between the two calls while the log lacks it |
| `ScannerRuns.AHeldBlockCanBeLost` | pool/server.py:3756-3765 | two passes over an empty database, one answer of which differs, after which a tagged block is none of those |
| `ScannerRuns.ByHandIsNamed` | pool/tools/backfill_found_blocks.py:141-154 | a block counts as booked by hand only if an applied backfill listed it for the operator |
| `ScannerRuns.ForgedTagsAreNotBooked` | pool/server.py:3730-3748 | a hash the readable log never has is never booked, unless an applied backfill listed it for the operator |
| `ScannerRuns.LedgerIsInOrder` | pool/server.py:3191-3257 | over every run: at most one open round, one round to a height, rising closings, and all work credited in the open round or a closed one |
| `CreditedWork.CreditedIsGained` | pool/server.py:2906-2927 | over every run the work credited is the sum, sample by sample, of what each address's counter gained since the last close |
| `CreditedWork.WorkIsWhatWasGained` | pool/server.py:2906-2927 | so the open and the closed rounds together hold exactly what the counters gained |
| `CreditedWork.CloseForgetsCounters` | pool/server.py:3228 | after a close an address's next sample is credited in full |
| `RoundClosings.LookCloses` | pool/server.py:3708-3749 | a look at a tagged block with two outputs, above all rounds and found rows, closes the running round: it gets height, hash and all the work, and a new one is open |
| `RoundClosings.RecheckCloses` | pool/server.py:3766-3774 | so does the recheck of such a block that was held |
| `RoundClosings.PassIsLawful` | pool/server.py:3752-3806 | in a pass the first round closed gets all the work there was, any other none, and the work is gone; or none is closed and the work stays |
| `RoundClosings.FoundBlockHasItsRound` | pool/server.py:3698-3709 | over any run a booked block of two outputs, at a height without one-output blocks and not filled by a backfill, has a round and closed the running one, unless a higher block has a round |
| `RoundClosings.WorkIsSinceClose` | pool/server.py:2906-2927 | over any run the work of the running round is what the counters gained since the last close |
| `RoundClosings.CloseTakesTheWork` | pool/server.py:3191-3229 | the event that closes a round gives it exactly that |
| `RoundClosings.RoundHoldsItsWork` | pool/server.py:3191-3229 | and the round still has it at the end of the run |
| `Backfill.CollectWanted` | pool/tools/backfill_found_blocks.py:104-112 | the loops over --also and the log give the last word for each height |
| `Backfill.WantedIsTheLastLine` | pool/tools/backfill_found_blocks.py:104-112 | a height named by the log is wanted as its last line says; one named by the operator only otherwise |
| `BackfillEffects.WantedExactly` | pool/tools/backfill_found_blocks.py:104-112 | a height is wanted when the operator names it or some line of the log names a block there that was not orphaned, and then as the last such line says |
| `Backfill.MakePlan` | pool/tools/backfill_found_blocks.py:82-138 | a plan covers all wanted heights in order; where anything cannot be asked it stops rather than give a short list |
| `Backfill.ListedExactly` | pool/tools/backfill_found_blocks.py:114-138 | a block is on the list exactly when some wanted height was judged to need it |
| `BackfillEffects.ListedWhen` | pool/tools/backfill_found_blocks.py:57-138 | listed exactly when the scanner passed the height and has neither row nor held block there, the chain has the wanted block and gives it, and its coinbase has the tag and not the solo one; with its own hash and outputs |
| `BackfillEffects.SkippedWhy` | pool/tools/backfill_found_blocks.py:57-138 | each reason for passing a height over, exactly when |
| `BackfillEffects.PlanIsAllNew` | pool/tools/backfill_found_blocks.py:114-154 | the blocks of a plan are at rising heights without a row, so that each adds one |
| `Backfill.PlanAgreesWithTheScanner` | pool/tools/backfill_found_blocks.py:57-138 | for a height the log names: listed exactly when scanned, not held, without a row, and a look now would book that very block |
| `Backfill.ApplyFillsTheRows` | pool/tools/backfill_found_blocks.py:141-154 | the listed heights have rows, the running round and scan_height are untouched, the ledger stays in order |
| `BackfillEffects.ApplyWrites` | pool/tools/backfill_found_blocks.py:141-154 | at each listed height the listed hash, elsewhere what was there; a round without work for each block of two outputs whose height had none; nothing else |
| `Backfill.SecondPlanIsEmpty` | pool/tools/backfill_found_blocks.py:82-154 | planned again on the same chain and log, the plan is not stopped either and nothing is left to add |
| `PoolSite.PoolDb.ApplyBackfill` | pool/tools/backfill_found_blocks.py:141-154 | writes those rows and counts the new ones |
| `PoolMerge.Gatherer.Append` | node/pools/pools-sync.py:187-192 | appends what is new and not empty |
| `PoolMerge.Gatherer.Add` | node/pools/pools-sync.py:174-192 | one definition added, replacing, renaming or extending the entry |
| `PoolMerge.Gatherer.AddAll` | node/pools/pools-sync.py:194-202 | a source's definitions added in order |
| `PoolMerge.GatherKeepsOrder` | node/pools/pools-sync.py:171-184 | every pool is in the order exactly once, and none without a slug |
| `PoolMerge.GatherIs` | node/pools/pools-sync.py:174-202 | a pool is known exactly when a source names it; since it was last replaced, its name is the last renaming one or the first, its link the first, its addresses and tags all that were given |
| `PoolNames.NamesAreDecided` | node/pools/pools-sync.py:174-202 | a pool is called what the last replacing override says, else the last definition of mempool.guide, else the first of the first list, else the first override; without any it is not known |
| `PoolNames.PlaceholderIsNoLink` | node/pools/pools-sync.py:196-200 | mempool.guide's placeholder is a pool's link only if another source gives it |
| `PoolNames.SlugifyIs` | node/pools/pools-sync.py:89-90 | a slug is the letters in lower case and the digits of a name, character by character |
| `PoolNames.StripIs` | node/pools/pools-sync.py:182-184 | white space at either end of a name is cut off and nothing else |
| `PoolMerge.AppendNewHas` | node/pools/pools-sync.py:187-192 | the lists hold exactly what was given, no empty string and nothing twice |
| `PoolMerge.Sorted` | node/pools/pools-sync.py:231-232 | a rearrangement in which every pair is in order |
| `PoolMerge.Merge` | node/pools/pools-sync.py:170-233 | the list is exactly the pools not dropped, each once, ordered by priority, specificity and place; what that order is the next rows say without priorities |
| `PoolMerge.MergedIsByBand` | node/pools/pools-sync.py:204-233 | bands rise along the list, slugs are distinct and no dropped slug is on it |
| `PoolMerge.PlacesInMerged` | node/pools/pools-sync.py:207-232 | after the two Lazarus entries every pool flagged as one is before all others; of the rest the generic ones are last; of the others those with tags are before those without, and of these the ones called "solo ..." are last; within a group DATUM miners, DATUM User, then the order found |
| `PoolMerge.OneComesFirst` | node/pools/pools-sync.py:207-232 | so for any two pools on the list the earlier one is the one that goes before, or neither does and it is named or found first |
| `PoolPlaces.IdsFit` | node/pools/pools-sync.py:80-81 | after a run a pool's id is in 1-99, 100-999, 1000-9999, 10000-29999, 30000-59999 or 60000-61999 for what it is, and Unknown's is 65500 |
| `PoolMerge.SoloComesFirst` | node/pools/pools-sync.py:226-232 | Lazarus/solo is before all else and Lazarus before every other pool |
| `PoolTable.NextIdIsFree` | node/pools/pools-sync.py:276-278 | the id after a band's highest is free and in the band, or the band is full |
| `PoolTable.UpsertAllIs` | node/pools/pools-sync.py:264-294 | after the pass each listed pool has its old row or a new one, and no other row changed |
| `PoolTable.UpsertTidies` | node/pools/pools-sync.py:252-307 | the table is in line with the list: listed rows filled in, all others blank, the lowest row of a slug its own |
| `UpsertEffects.UpsertWrites` | node/pools/pools-sync.py:252-307 | every listed row has its name, link, addresses, tags and slug; a pool that had a row keeps id and unique id, a new one gets an id above all of its band and a unique id of its own, rising with the list; any other row loses its matchers and nothing else |
| `UpsertEffects.CountsCount` | node/pools/pools-sync.py:263-307 | inserted counts the new rows and changed the rows whose columns are not what they were |
| `PoolsDb.Store.CanonicalRows` | node/pools/pools-sync.py:256-258 | the lowest id of every slug |
| `PoolsDb.Store.NextUid` | node/pools/pools-sync.py:260 | above every unique id in use |
| `PoolsDb.Store.UpsertPool` | node/pools/pools-sync.py:264-294 | one pool of the list, updated or inserted |
| `PoolsDb.Store.UpsertListed` | node/pools/pools-sync.py:264-294 | the whole list in order |
| `PoolsDb.Store.BlankStale` | node/pools/pools-sync.py:299-306 | exactly the stale rows that still match something are blanked, and counted |
| `PoolsDb.Store.UpsertPools` | node/pools/pools-sync.py:252-307 | the table in line with the list, with the counts of rows written |
| `Rekey.PassesRenames` | node/pools/pools-sync.py:365-373 | an update of unique keys that passes row by row gives each row its new key, and no two rows one |
| `Rekey.AnyOrderPasses` | node/pools/pools-sync.py:353-373 | with free targets it passes in any order of rows |
| `Rekey.SafeInEveryOrder` | node/pools/pools-sync.py:353-354 | it is safe in every order exactly when its targets are free beforehand |
| `Rekey.TwoStatementsPass` | node/pools/pools-sync.py:353-373 | the detour through scratch keys passes whatever orders the rows are visited in |
| `Rekey.TwoStatementsRename` | node/pools/pools-sync.py:365-373 | and whenever both statements pass each row has its new key |
| `Rekey.SecondStatementSafeExactlyWhen` | node/pools/pools-sync.py:353-367 | the second statement is safe in every order exactly when no row is to end on another's scratch key |
| `Rekey.Update` | node/pools/pools-sync.py:365-367 | a statement row by row, undone if a key is taken |
| `PoolRenumber.BandIdsAreDistinct` | node/pools/pools-sync.py:325-337 | no two listed pools are given one id |
| `PoolRenumber.ParkedFit` | node/pools/pools-sync.py:338-345 | generic pools and parked rows together are fewer than the rows |
| `PoolPlaces.BandHasNoGap` | node/pools/pools-sync.py:325-337 | the ids of a band are given in list order from its first on, none left out |
| `PoolPlaces.ParkedHaveNoGap` | node/pools/pools-sync.py:338-343 | parked rows follow the generic pools from 60000 on and one another, in the order of their old ids |
| `PoolRenumber.TargetsAreDistinct` | node/pools/pools-sync.py:325-345 | no two rows of the table are sent to one id |
| `PoolRenumber.TargetsAvoidScratch` | node/pools/pools-sync.py:338-355 | no target is a scratch id, when the parked rows have room below the scratch range |
| `PoolRenumber.RenumberKeepsPools` | node/pools/pools-sync.py:363-368 | no row update meets a taken id, in any order of rows, and every block is joined to the pool row it was joined to |
| `PoolRenumber.RenumberKeepsRates` | node/pools/pools-sync.py:369-373 | the same for the hashrate rows, unique by time and pool |
| `PoolRenumber.RenumberFailsExactlyWhen` | node/pools/pools-sync.py:338-367 | without that room, the second statement is safe exactly when no row is to end on another's scratch id |
| `PoolExamples.RenumberCanFail` | node/pools/pools-sync.py:338-367 | 2001 dropped pools are enough: the last is to end on the scratch id of the first |
| `PoolsDb.Store.FindStray` | node/pools/pools-sync.py:319-322 | whether any pool's own row is outside its band, or Unknown's not at its id |
| `PoolsDb.Store.ListedTargets` | node/pools/pools-sync.py:325-337 | each listed pool gets the next id of its band; it fails exactly when a band overflows |
| `PoolsDb.Store.ParkRest` | node/pools/pools-sync.py:338-343 | all other rows follow the generic pools in id order; Unknown goes to its id, wherever the list has it |
| `PoolsDb.Store.ScratchIds` | node/pools/pools-sync.py:355 | distinct scratch ids in the scratch range |
| `PoolsDb.Store.RemapPools` | node/pools/pools-sync.py:365-367 | when it succeeds the rows are renamed as wanted, and it succeeds when there is room |
| `PoolsDb.Store.RemapRates` | node/pools/pools-sync.py:371-373 | the same for hashrates |
| `PoolsDb.Store.Remap` | node/pools/pools-sync.py:363-375 | all three tables together, or, when a statement fails, none |
| `PoolsDb.Store.RenumberPools` | node/pools/pools-sync.py:310-379 | each outcome exactly when: idle, band overflow, too many rows; and on success every block and rate keeps its pool |
| `PoolSync.RunPutsPoolsInTheirBands` | node/pools/pools-sync.py:252-379 | after a run every pool's row is in its band and Unknown's at its id, and in list order if anything moved |
| `PoolSync.OnlyOwnRowsHit` | node/pools/pools-sync.py:299-306 | dropped and duplicate rows match no block |
| `PoolSync.IdOrderAgreesWithPriority` | node/pools/pools-sync.py:33-42 | the first match by id and the first match in the list are of one band, and after a renumbering one pool, exactly when the latter is not a listed Unknown before another match |
| `PoolExamples.ListedUnknownIsShadowed` | node/pools/pools-sync.py:33-42 | a list whose Unknown pool matches first, and the backend names another |
| `PoolSync.NoMatchIsUnknown` | node/pools/pools-sync.py:415 | a block no listed pool matches is the Unknown pool's or nobody's to the backend |
| `PoolRetag.FirstHitIs` | node/pools/pools-sync.py:410-414 | the loop over the matchers finds the first pool that matches, or none does |
| `PoolPlaces.RetagGives` | node/pools/pools-sync.py:395-427 | each block from 961640 on gets the id of the first pool on the list with one of its addresses or a tag in its text, or Unknown's; nothing else changes |
| `PoolRetag.SecondRetagIsIdle` | node/pools/pools-sync.py:395-427 | with the same list and ids a second retag writes no row and changes no block |
| `PoolRetag.BackendTagStands` | node/pools/pools-sync.py:33-42 | what the backend named on arrival is of the same band as what retag names; after a renumbering the same pool, exactly when no matcher of a listed Unknown goes before another's |
| `PoolsDb.Store.FirstMatch` | node/pools/pools-sync.py:410-414 | the matcher loop |
| `PoolsDb.Store.Retag` | node/pools/pools-sync.py:395-427 | blocks from START_HEIGHT on get the pool the list names, all others stay; the count is of rows written |
| `PoolFixedPoint.SecondUpsertIsIdle` | node/pools/pools-sync.py:252-307 | on a table already in line it writes nothing and gives the same ids |
| `PoolFixedPoint.LowestAfterMove` | node/pools/pools-sync.py:338-343 | after a renumbering the lowest row of a slug is still its own exactly when no parked row is called unknown |
| `PoolFixedPoint.SecondRunIsIdleExactlyWhen` | node/pools/pools-sync.py:252-379 | a second run writes and moves nothing exactly when the first did not renumber a table with a second unknown row |
| `PoolExamples.TwoUnknownRowsTrade` | node/pools/pools-sync.py:252-379 | rows 5 and 65500, both unknown: a table for which it does |
| `PoolRuns.RunEnds` | node/pools/pools-sync.py:641-659 | a run that ends leaves every pool in its band and every block as the list says, and neither adds nor drops a second unknown row |
| `PoolRuns.RunOnInLine` | node/pools/pools-sync.py:641-659 | a run on what a run has left either renumbers, exactly when a lower unknown row is there, or changes pools, blocks and ids in nothing |
| `PoolRuns.FurtherRuns` | node/pools/pools-sync.py:641-659 | over any number of runs on one list, pools, blocks and ids stay as the first left them, exactly when it did not renumber a table with two unknown rows; then every later run renumbers |
| `PoolsDb.Store.Sync` | node/pools/pools-sync.py:641-659 | a whole run in place: it ends as the runs above say, at least where bands and scratch range have room, and otherwise changes nothing |
| `Makegood.MakegoodUnpaid` | pool/server.py:829-845 | the loop gives the entries left unpaid, in order |
| `Makegood.UnpaidOfAddress` | pool/server.py:836-845 | an address is left exactly its entries after the covered ones; the pool is owed nothing |
| `Makegood.SplitItemsIs` | pool/server.py:812-827 | an item that names nobody, has no positive value or cannot be read counts for nothing, any other as it is |
| `Makegood.UnpaidInOrder` | pool/server.py:829-845 | the unpaid entries are in the order of the split |
| `Makegood.CoveredIsShortest` | pool/server.py:836-845 | the covered entries are the shortest prefix that reaches the on-chain value, or all |
| `Makegood.TwoFigures` | pool/server.py:829-845 | on-chain plus unpaid never exceeds the larger of issued and paid, falls short by less than one entry, and is equal exactly when whole entries were paid |
| `Makegood.FiguresDoNotOverlap` | pool/server.py:1092-1103 | over a window, what coinbases paid an address and what makegood_unpaid leaves it never overlap, and add up to what was owed exactly when every block paid whole entries; the pool's own address is left nothing |
| `Makegood.PartOfAnEntryIsLost` | pool/server.py:1097-1103 | an input for which they add up to less |
| `Makegood.CustodySplits` | pool/server.py:764-771 | net and fee make the gross, a fee leaves at least the dust floor, and when one is taken at all |
| `Makegood.FloorIs` | pool/server.py:752-761 | the least output for each kind of address: 546, 540, 330 and 294 satoshis |
| `Makegood.NoFeeAtFullRate` | pool/server.py:764-771 | a rate of all or more takes nothing |
| `ShareAccounting.BatchIsPerWorker` | pool/server.py:344-362 | the batch counts each worker by its own samples alone |
| `ShareAccounting.OnlineIsPerWorker` | pool/server.py:400-422 | so does the online form, for workers with an address |
| `ShareAccounting.SameOrderExactlyWhen` | pool/server.py:344-422 | a worker's samples are counted in one order both ways exactly when those with a NULL worker are all before those with an empty one |
| `ShareAccounting.BatchIsOnlineExactlyWhen` | pool/server.py:344-422 | the two agree on every such worker with an address, and on the whole table exactly when no sample is without an address and no other worker comes out differently |
| `ShareAccounting.MixedColumnsDisagree` | pool/server.py:348 | a NULL and an empty worker of one address, counted in column order, can differ |
| `ShareAccounting.LifetimeIsSessionTotals` | pool/server.py:338-341 | a lifetime is the sum of the last counters of the sessions |
| `ShareAccounting.CreditNeverTakesAway` | pool/server.py:400-422 | no sample lowers any worker's lifetime |
| `ShareTables.ShareDb.SumRows` | pool/server.py:384-391 | the sum over an address's workers, in whatever order they are read |
| `ShareTables.TotalsFollow` | pool/server.py:383-397 | when a worker's counts change, the sums for its address change by as much, figure by figure |
| `ShareTables.ShareDb.RollupMinerShares` | pool/server.py:383-397 | one miner's totals are made those of its workers |
| `ShareTables.ShareDb.CreditSessionShares` | pool/server.py:400-422 | one worker's counts change, and every miner's totals stay those of its workers |
| `ShareTables.ShareDb.BackfillShareLifetimes` | pool/server.py:344-366 | all samples counted once only; then every miner's totals are those of its workers |
| `Luck.FindDifficulty` | pool/server.py:4183-4190 | the difficulty of the last epoch started, or the fallback |
| `Luck.DifficultyIs` | pool/server.py:4183-4190 | that is the last of the epochs that had started by then, up to the first that had not |
| `Luck.IntervalIs` | pool/server.py:4193-4206 | between samples less than an hour apart: rate times 10^9 times seconds over difficulty times 2^32; nothing for a longer gap or without a difficulty |
| `Luck.LuckAddRows` | pool/server.py:4193-4206 | the loop carries on the sum, row by row |
| `Luck.PassesJoin` | pool/server.py:4193-4206 | stopping and carrying on gives what one pass gives |
| `Luck.FullPassIsIntegral` | pool/server.py:4193-4206 | a full pass is the sum over neighbouring samples |
| `Luck.FallbackIsUnused` | pool/server.py:4183-4190 | on a list that covers the samples the current difficulty is never used |
| `Luck.CarriedOverTwoDifficulties` | pool/server.py:4235-4248 | without epochs a sum carried on over two difficulties is the full sum for neither |
| `LuckMeter.SignaturesTellExactlyWhen` | pool/server.py:4228-4235 | of the lists for one first sample, length and first epoch tell which it is, exactly when no two retargets have one header time and one difficulty |
| `LuckMeter.SignatureTells` | pool/server.py:4228-4235 | where that is so, and no retarget is as early as the first, an unchanged length and first epoch mean an unchanged list, whatever samples the two were built for |
| `LuckMeter.SortEpochs` | pool/server.py:4177 | the list in order of time and difficulty |
| `LuckMeter.GrownJoins` | pool/server.py:4235-4248 | how the table changes between computing calls does not depend on how many others came between |
| `LuckMeter.Meter.EpochHeader` | pool/server.py:4126-4139 | what is remembered or answered is the header of the chain, and when the node answers there is one |
| `LuckMeter.Meter.WalkDown` | pool/server.py:4167-4176 | a gapless run of epochs up to the tip, down to the last that started by the first sample or to the first of all |
| `LuckMeter.Meter.DifficultyEpochs` | pool/server.py:4142-4180 | an answered call gives such a list, sorted, from the first sample to the epoch of the tip; it is answered whenever the node answers for every epoch; otherwise the old list stays |
| `LuckMeter.UpToDateCovers` | pool/server.py:4142-4190 | an up-to-date list covers the table when the chain began by its first sample |
| `LuckMeter.DifficultyOfTheDay` | pool/server.py:4142-4190 | and on it every time has the difficulty of the epoch it falls in |
| `LuckMeter.Meter.CarryOn` | pool/server.py:4240-4248 | adding only the new rows gives the full sum, where signatures tell lists apart |
| `LuckMeter.Meter.Compute` | pool/server.py:4227-4248 | whichever way it goes, the sum is that of the whole table, where signatures tell lists apart |
| `LuckMeter.Meter.ExpectedBlocksFromSamples` | pool/server.py:4209-4260 | a figure is computed exactly when there is a difficulty, a sample, and none less than 30 s old; it is the integral over the table as it stands, where signatures tell lists apart, and on an up-to-date list whenever the node answers |
| `Targets.ShiftInPlace` | miner/miner.py:60-63 | shifting the bytes in place is the shift of the old bytes |
| `Targets.ShiftedIsQuotient` | miner/miner.py:60-63 | shifting every byte divides the number by the power of two |
| `Targets.DropLow` | miner/miner.py:58-59 | dropping low bytes divides it by the power of 256 |
| `Targets.ShareTarget` | miner/miner.py:52-64 | for every difficulty: 2^224 - 1 divided by the largest power of two not above it, rounded down |
| `Targets.DivisionStep` | miner/miner.py:73-75 | a limb's quotient is below 2^64 and extends the quotient of the limbs above |
| `Targets.BitcoinTarget` | miner/miner.py:67-78 | 0xFFFF * 2^208 divided by the difficulty, rounded down |
| `Targets.NothingLeft` | miner/miner.py:54-55 | from 2^224 on both are zero, so the fallback agrees |
| `Targets.ShareIsEasier` | miner/miner.py:52-78 | a share target is never below the block target |
| `Targets.TopByteDecides` | miner/miner.py:81-87 | the highest byte that differs decides between the numbers |
| `Targets.Meets` | miner/miner.py:81-87 | exactly less-or-equal of the numbers |
| `Checksum.ComputePolymod` | cloudflare/mcp/src/address.js:14-23 | the nested loops fold the symbols as specified; what one step is the next rows say without its constants |
| `Bech32Field.StepDivides` | cloudflare/mcp/src/address.js:14-23 | over the field of 32 elements, a step is multiplication by x, plus the symbol, modulo x^6 + 29x^5 + 22x^4 + 20x^3 + 21x^2 + 29x + 18 |
| `Bech32Field.CoefsTell` | cloudflare/mcp/src/address.js:14-23 | the six coefficients are the whole state |
| `Bech32Field.TimesOne` | cloudflare/mcp/src/address.js:15 | 1 is neutral for the product of the field |
| `Bech32Field.TimesDistributes` | cloudflare/mcp/src/address.js:15 | products in the field distribute over its sum |
| `Checksum.StepFits` | cloudflare/mcp/src/address.js:14-23 | the state stays below 2^30 |
| `Checksum.StepTells` | cloudflare/mcp/src/address.js:14-23 | one symbol never takes two states to one |
| `Checksum.OneErrorIsSeen` | cloudflare/mcp/src/address.js:14-23 | two strings that differ in one symbol never share a checksum |
| `Checksum.ChecksumIsUnique` | cloudflare/mcp/src/address.js:14-23 | a payload has one choice of six checksum symbols |
| `Regroup.TakesFive` | cloudflare/mcp/src/address.js:30 | after wrapping around, the accumulator still agrees with the unbounded number in 32 bits |
| `Regroup.GivesByte` | cloudflare/mcp/src/address.js:32 | the byte taken is that of the unbounded number |
| `Regroup.PaddingIs` | cloudflare/mcp/src/address.js:34 | the padding test is that of the unbounded number |
| `Regroup.ConvertBits` | cloudflare/mcp/src/address.js:26-36 | the same bytes as the unbounded bit string, or nothing for a long or non-zero padding |
| `Regroup.RegroupedTells` | cloudflare/mcp/src/address.js:26-36 | the bytes tell the groups, and how many there were |
| `Segwit.Segwit` | cloudflare/mcp/src/address.js:39-53 | every check in its order; which strings that accepts the rows on encoding say, both ways |
| `Segwit.CaseDoesNotMatter` | cloudflare/mcp/src/address.js:41-42 | all lower and all upper case are accepted alike, mixed case never |
| `Segwit.AcceptedIsKept` | cloudflare/mcp/src/address.js:39-53 | an accepted address is accepted again, unchanged |
| `Segwit.OneWrongCharacterIsSeen` | cloudflare/mcp/src/address.js:39-53 | no two accepted addresses of a version, in either case, differ in just one character |
| `Segwit.OneSpelling` | cloudflare/mcp/src/address.js:39-53 | accepted addresses of one version and program have one spelling |
| `SegwitEncode.GroupedIsRegrouped` | cloudflare/mcp/src/address.js:26-36 | bytes grouped by fives and filled up with zeros come out again |
| `SegwitEncode.ChecksOut` | cloudflare/mcp/src/address.js:14-24 | the six symbols of the standards' checksum bring it to the value wanted |
| `SegwitEncode.EncodedIsAccepted` | cloudflare/mcp/src/address.js:39-53 | the address the standards write for each 20- or 32-byte program of version 0 and each 32-byte one of version 1 is accepted and decodes to that version and program |
| `SegwitEncode.AcceptedIsEncoded` | cloudflare/mcp/src/address.js:39-53 | nothing else is accepted |
| `SegwitExamples.KeyHashAddressIsAccepted` | cloudflare/mcp/src/address.js:39-53 | the pay-to-witness-public-key-hash address of BIP 173's test vectors is accepted |
| `SegwitExamples.TaprootAddressIsAccepted` | cloudflare/mcp/src/address.js:39-53 | the pay-to-taproot address of BIP 350's test vectors is accepted |
| `SegwitExamples.PrefixIsExpanded` | cloudflare/mcp/src/address.js:24 | the prefix is expanded to the high bits of its letters, a zero and their low bits |
| `Base58.ConvertsBack` | cloudflare/mcp/src/address.js:58-62 | leading zeros and number survive a change of base there and back |
| `Base58.BytesOf` | cloudflare/mcp/src/address.js:60-61 | the bytes of the number, highest first |
| `Base58.PrependZeros` | cloudflare/mcp/src/address.js:62 | one zero byte for each leading 1 |
| `Base58.Base58Check` | cloudflare/mcp/src/address.js:56-68 | accepts exactly the strings that decode to 25 bytes of a known version that check out |
| `Base58.DecodedIsEncoded` | cloudflare/mcp/src/address.js:56-68 | an accepted string is what the canonical encoder makes of its bytes |
| `Base58.EncodedIsDecoded` | cloudflare/mcp/src/address.js:56-68 | and the bytes of an encoding are found again |
| `Base58.AcceptedExactly` | cloudflare/mcp/src/address.js:56-68 | a string stands for given bytes exactly when it is their encoding, of 26 to 35 characters beginning with 1 or 3, and they are 25 with a first byte 0 or 5 and the digest's first four last |
| `Base58.AlphabetIs` | cloudflare/mcp/src/address.js:55 | the digits 1 to 9, the capitals without I and O, the small letters without l, in this order |
| `Base58.OneSpelling58` | cloudflare/mcp/src/address.js:56-68 | an address is the only spelling of its version and hash |
| `PayoutAddress.CheckPayout` | cloudflare/mcp/src/address.js:71-79 | which decoder is asked, and its answer |
| `PayoutAddress.PayoutIsCanonical` | cloudflare/mcp/src/address.js:71-79 | an accepted address is its own canonical form |
| `PayoutExactly.SegwitIsAccepted` | cloudflare/mcp/src/address.js:71-79 | every segwit address the standards write for a version 0 or 1 program is accepted and pays it |
| `PayoutExactly.Base58IsAccepted` | cloudflare/mcp/src/address.js:71-79 | so is every base58 address of 25 bytes that check out |
| `PayoutExactly.AcceptedIsWritten` | cloudflare/mcp/src/address.js:71-79 | and nothing else |
| `PayoutAddress.OneAddressPerScript` | cloudflare/mcp/src/address.js:71-79 | no two canonical addresses pay the same script |
| `CoinbaseTag.IsDatumCoinbase` | node/pools/pools-sync.py:438-482 | accepts exactly the scripts with the DATUM layout, and never reads past the end |
| `CoinbaseTag.OneSeparator` | node/pools/pools-sync.py:474-482 | one separator, a name on either side, no control character |
| `CoinbaseTag.WrittenIsRead` | node/pools/pools-sync.py:438-494 | what a gateway writes is accepted and both names are read back |
| `CoinbaseTag.LayoutIs` | node/pools/pools-sync.py:438-482 | the layout in bytes: 1 to 8 of height, the tag push with 0x4C before its length when wide, 0x0F between the names and 0x00 after them, 4 to 75 of id |
| `CoinbaseTag.SanitizedIs` | node/pools/pools-sync.py:485-494 | of a name letters, digits and blanks stay, byte by byte |
| `CoinbaseTag.AcceptedIsWritten` | node/pools/pools-sync.py:438-482 | every accepted script is one that a gateway could have written |
| `CoinbaseTag.ParsersAgree` | pool/server.py:2631-2658 | on accepted scripts the site reads the operator's name from the bytes the map's second name comes from |

## Left out

- The payout rows and bitcoin figures of a round (`round_payouts`, `reward_btc`): the ledger keeps heights, hashes, status and work.
- Whether a solo block pays the pool a fee is a flag of the block's content; its figures are not part of the model.
- A crash between two database writes of one operation: each write is atomic, and so is a pass between its writes.
- `restore_unsplit_effort`, which ran once, and the read-only replicas, which never scan.
- Dry runs of pools-sync.py and of the backfill: they write nothing.
- The refusal of pools-sync.py to write a list of fewer than fifty pools.
- Fetching and caching the pool lists, the JSON files written for the backend and the theme, and patching the explorer's cache.
- Lower-casing and stripping of characters beyond ASCII; the trimming in `payoutAddress` before the checks.
- The tests for the same party in `secondary_tag` and the 40-character cut of `secondary_coinbase_tag`: the model compares the bytes both start from.
- Hexadecimal decoding of coinbase scripts: the parsers start from bytes.
- The statuses of make-goods and the reading of coinbases in `earned_window`: the model has the sums its comment speaks of.
- `PoolsDb.Store.RenumberPools`: when the scratch range is not free or parked rows have no room, it is stated what success means and that failure changes nothing, not which of the two a given order of rows brings; `RenumberFailsExactlyWhen` states that for the second statement.
- `LuckMeter.Meter.ExpectedBlocksFromSamples`: says nothing of the value when the list of epochs does not cover the table; `Luck.CarriedOverTwoDifficulties` shows that the promise is then false.
- `LuckMeter.SignatureTells`: lists built for different first samples are told apart where, besides, no retarget is as early as the first of the chain, as the rules for block times have it; `CarryOn`, `Compute` and `ExpectedBlocksFromSamples` promise their value there.
- `ShareAccounting.BatchIsOnlineExactlyWhen`: takes the times of a worker's samples to be distinct.
- `CacheOutcomes.EveryCallReturns`: each builder makes a bounded number of nested calls, given as the call's budget; a builder that calls for ever never returns.
- The worker threads, HTTP handlers, page rendering, price and hardware lookups, fee wallet and payout scripts.
- The hash functions: the double SHA-256 of Base58Check is a parameter, BLAKE2b does not occur.
- `backfill_share_lifetimes` also counts the samples stored under the worker name of a gateway, whose counters are zero and which the online form never sees.
