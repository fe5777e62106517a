# Token analytics: verified model

A Dafny model of the event pipeline of the token-analytics indexer: a scanner follows the chain, decodes
logs and publishes events to Redis streams; consumer groups read them; derived tables (candles, balances,
pool state, royalties) are built from what they read; an API serves them through a cache.

SQL statements, Lua scripts and Redis commands are single atomic steps; what the network, a clock, a crash or
another process does is a parameter that every theorem quantifies over. Code that changes state step by step is
a class whose methods are proved against a specification function; the theorems are about runs of those functions.

| file | component |
|---|---|
| `Text.dfy`, `Base.dfy` | decimal text (printing, parsing, padding, byte order); options, quotients, sums over maps |
| `Candles.dfy` | SQL candle upsert, meaning of a row, roll-up, conservation |
| `CandleCache.dfy` | the Lua candle with text comparison and 14-digit numbers; refinement of the SQL row |
| `CandleProcessor.dfy` | five-resolution fan-out and dual write |
| `Balances.dfy` | transactional, idempotent, clamped holder balances |
| `Delivery.dfy`, `DeliveryLoops.dfy` | consumer-group protocol as a state machine; the read and claim loops run against it |
| `Reorg.dfy` | header store, backtrace, delete cascade, live path |
| `CatchUp.dfy` | batch, header and log loops; restarts from the checkpoint; publish ledger |
| `Decoder.dfy` | priority dispatch, pool map, two-pass decode, swap figures |
| `StampedeCache.dfy` | cache-aside with lock, n callers |
| `PoolStates.dfy` | buffer of pool-state updates awaiting registration |
| `PoolRestarts.dfy` | restoring that buffer from its backup while updates are already being handled |
| `Royalties.dfy`, `EventCodec.dfy`, `Wei.dfy` | floor splits, big integers in JSON, wei printing |

Where the code differs from what its comments promise or its design counts on, the model follows the code and says
exactly when the promise holds:

- `src/indexer/scanner.ts:513` says every processor write is idempotent. Candle upserts are not
  (`Candles.ReplayChangesTable`), and a retried call counts twice in Redis at the resolutions its failed attempt got
  past, and twice in Postgres if the lost reply was of an applied write (`CandleProcessor.RetryCountsTwice`).
- `src/clients/redis.ts:82` calls the Lua addition safe up to 2^53. Its printed result is exact below 10^14 only
  (`CandleCache.HashRefinesRow`).
- `src/processors/base-processor.ts:137` says the claim loop picks an unacked message up later. A claimed message is
  never handled again (`Delivery.ClaimedNeverHandled`).
- `src/indexer/reorg.ts:42-44` deletes trades first, so the candle and position deletes, which select from trades,
  remove nothing (`Reorg.RecoveryMeaning`), and after recovery the orphaned range is not published again
  (`Reorg.OrphanedRangeSkipped`) unless the process restarts before the next head (`Reorg.OrphanedRangeRestart`),
  although `src/utils/db/positions.ts:49-50` counts on a replay.
- `src/indexer/scanner.ts:386-400` fetches again for tokens discovered in a batch. None is ever discovered there
  (`Decoder.Scanner.TwoPass`, `Decoder.NewTokenTransfersLost`).
- `src/indexer/scanner.ts:510-514` replays blocks lost from Redis, but a catch-up batch has one ledger row, that of its
  last block (`CatchUp.ReplayCoversCatchUp`).
- `src/indexer/scanner.ts:94-106` reads the head once, catches up to it, and only then subscribes. Blocks mined in
  between reach neither path, and a head equal to the start block is not caught up at all
  (`CatchUp.StartupCoverage`).
- `src/indexer/scanner.ts:372-377` stores caught-up headers without looking at their parents, so a reorganisation while
  the process was down leaves a broken chain (`Reorg.CatchUpKeepsLinks`).
- `src/processors/trade.ts:27-45` starts to handle updates before it has read the buffer's backup and put it back. An
  update in that window can be overwritten by an older one, and the buffer can exceed its limit
  (`PoolRestarts.BootWindow`, `PoolRestarts.OlderComesBack`, `PoolRestarts.RestoredOverfull`); so can one that meets a
  registration between the flush and the apply of its call (`PoolStates.RegistrationRace`).
- `src/api/cache.ts:21` says one request per expiry reaches the database. Two things are missing. Two callers are kept
  out of the guarded fetch together only while the lock does not expire under a live holder
  (`StampedeCache.OneGuardedFetch`, `StampedeCache.ExpiryAdmitsSecond`). And even then the lock is taken without reading
  the cache again, so a caller that missed before the cache was filled and takes the lock after its release fetches once
  more (`StampedeCache.TwoFetchesInOneExpiry`). From an empty cache, while nothing fails, there is one guarded fetch
  exactly when no caller does that (`StampedeCache.OneFetchPerExpiry`); besides, a caller that has polled 100 times
  fetches without the lock (`StampedeCache.FetchAfterFill`).

## Model

| member | source | states |
|---|---|---|
| Candles.Bucket | src/utils/math.ts:42-45 | a bucket is aligned to its resolution and contains the timestamp |
| Candles.OneSwap | src/processors/candle.ts:31-50 | a swap counts iff it has a token and a price; then exactly the rows of its token whose aligned window holds its time change: opened, or high raised, low lowered, close set, volume and count added |
| Candles.RowMeaning | src/utils/db/candles.ts:48-58 | for every stream: a row exists iff a priced swap of the token falls in its window; its open and close are the first and last price in stream order, high and low the extreme prices, volume the sum, count the number |
| Candles.CoarseIsRollUp | src/processors/candle.ts:36-50 | roll-up: for every stream and every nested pair of resolutions, a coarse candle has the high, low, volume and count of the fine candles in it; with trades in time order, also their first open and last close |
| Candles.CoarseEnds | src/processors/candle.ts:36-50 | in any order of trades, a coarse candle is the join of its fine ones iff the first trade of its span has the price of the first in the earliest fine candle with a trade and the last that of the last in the latest; it is enough that those two trades lie in those candles |
| Candles.OutOfOrderOpen | src/utils/db/candles.ts:53-58 | two trades in reverse time order for which the open is not that of the earliest finer candle |
| Candles.TotalsAgree | src/processors/candle.ts:36-50 | at each of the five resolutions volumes sum to the volume, and counts to the number, of the priced swaps |
| Candles.ReplayChangesTable | src/utils/db/candles.ts:53-58 | handling a swap a second time leaves the table alone iff the swap is not priced |
| CandleCache.RedisCandles.Upsert | src/clients/redis.ts:52-89 | one run of the script: reply and hash are the scripted fields, all other keys untouched |
| CandleCache.RedisCandles.Update | src/clients/redis.ts:68-88 | the branch for an existing key, command by command |
| CandleCache.PaddedOrder | src/clients/redis.ts:74-79 | zero-padded text order is numeric order for digit texts of at most 78 characters |
| CandleCache.OrderAgreesUpTo | src/clients/redis.ts:76 | padded order is numeric order for all texts of at most d digits iff d is at most 78 |
| CandleCache.AddTextMeaning | src/clients/redis.ts:83-84 | a sum of canonical texts is the exact decimal below 10^14; from there on it is in scientific form and stays at least 10^14 |
| CandleCache.DoubleMeaning | src/clients/redis.ts:83 | reading a number gives itself below 2^53, and from there on the nearest multiple of the power of two that leaves 53 bits, ties to even |
| CandleCache.PrintMeaning | src/clients/redis.ts:83-84 | from 10^14 on a number prints with at most 14 digits, none of them a leading or trailing zero, and they denote a nearest number of 14 digits, ties to even |
| CandleCache.AddTextError | src/clients/redis.ts:83-84 | a sum of any two texts is off by at most 10^-13 of itself, and exact below 10^14 |
| CandleCache.VolumeDrift | src/clients/redis.ts:52-89 | after n trades the hash's volume is the row's times a factor between (1 - 10^-13)^(n-1) and (1 + 10^-13)^(n-1) |
| CandleCache.HashRefinesRow | src/clients/redis.ts:52-89 | with prices of at most 78 digits the hash has the row's open, high, low, close; its count iff below 10^14; its volume iff there is one trade or the total is below 10^14 |
| CandleCache.LongPriceBreaksHigh | src/clients/redis.ts:78 | a 79-digit price after a 78-digit one leaves the hash with a high that is too low |
| CandleProcessor.CandleTable.UpsertBatch | src/utils/db/candles.ts:31-61 | the multi-row statement is the row-by-row upsert, and fails without effect iff it repeats a key |
| CandleProcessor.Processor.Handle | src/processors/candle.ts:27-80 | effect of one call on both stores, for a Redis failure at any resolution and a database write that is refused or applied with its reply lost; it returns normally iff neither happens |
| CandleProcessor.StoresAgree | src/processors/candle.ts:33-77 | after any stream handled once, both stores have the same keys and agree per key as in HashRefinesRow |
| CandleProcessor.AttemptsCounted | src/processors/candle.ts:36-77 | after any calls for one swap, failed or not, a row has been counted once in Redis per call that got past its script, and once in Postgres per call whose write was applied |
| CandleProcessor.RetryCountsTwice | src/processors/candle.ts:53-77 | a failed call and its retry count the swap twice in Redis at exactly the resolutions the failed call got past, twice in Postgres exactly when its write was applied and the reply lost |
| Balances.Postgres.Handle | src/processors/position.ts:16-92 | a fault at any statement rolls back wholly; otherwise the transfer takes effect iff its id is new; exactly when the call returns normally, a failing rollback of a duplicate and a lost reply included; and then the id is processed |
| Balances.OneTransfer | src/processors/position.ts:46-66 | from the event's own fields: the sender's row is debited and the receiver's credited, each clamped at 0 and with the highest block, unless its address is zero; no other row changes |
| Balances.BackfillMeaning | src/processors/position.ts:68-76 | a transfer between two wallets fills the missing sender of a sale with its sender, the missing recipient of a purchase with its receiver, on the trades of its transaction and token only |
| Balances.TrueBalance | src/processors/position.ts:46-66 | the signed changes of a holder sum to what transfers to it carry minus what transfers from it carry |
| Balances.RowBlock | src/processors/position.ts:48-62 | a holder has a row iff it was party to a transfer, with the highest block of those |
| Balances.EffectivelyOnce | src/processors/position.ts:27-84 | any history of duplicated deliveries with faults equals applying each distinct event once in order of first commit; the processed ids are the committed ones |
| Balances.Reflection | src/processors/position.ts:50-52 | a clamped running sum is the plain sum minus its lowest prefix sum |
| Balances.StoredBalance | src/processors/position.ts:46-66 | every stored balance is the true balance minus the lowest prefix sum: never negative, never below the true balance, equal to it iff no prefix overdraws |
| Balances.SupplyLaw | src/processors/position.ts:43-66 | in any history the balances of a token sum to minted minus burned plus what the clamp swallowed |
| Balances.ShortfallMeansOverdraft | src/processors/position.ts:50-52 | the clamp swallows nothing iff no holder of the token ever overdraws |
| Balances.SupplyConserved | src/processors/position.ts:43-66 | balances sum to at least minted minus burned, and to exactly that iff no holder ever overdraws |
| Balances.MakersWrittenOnce | src/processors/position.ts:67-76 | over any transfers a recorded maker is never replaced, only the side a trade's direction calls for is written, and no other field or row changes |
| Reorg.Database.Backtrace | src/indexer/reorg.ts:57-77 | the loop returns the specified ancestor |
| Reorg.AncestorIsGreatestMatch | src/indexer/reorg.ts:57-77 | the result is the greatest positive stored height at or below the start whose hash is the node's, else 0; it fails only where the node does above every match |
| Reorg.BacktraceFindsFork | src/indexer/reorg.ts:57-77 | against a canonical chain: no stored header above the result is canonical, every one in the contiguous run below it is |
| Reorg.Database.DetectAndRecover | src/indexer/reorg.ts:16-55 | detection, failure and recovery, with a stop after any number of the six statements |
| Reorg.Database.Recover | src/indexer/reorg.ts:42-50 | the cascade, cut after any number of its statements |
| Reorg.RecoveryMeaning | src/indexer/reorg.ts:42-50 | recovery leaves exactly the headers, trades and fee rows at or below the ancestor, each unchanged, sets the checkpoint to it with its stored hash (else `0x`), and removes no candle and no position |
| Reorg.PositionDeleteFirst | src/utils/db/positions.ts:51-59 | were the position delete run before the trade delete: it takes exactly the positions of recipients of orphaned purchases and senders of orphaned sales |
| Reorg.CandleDeleteFirst | src/utils/db/candles.ts:63-80 | were the candle delete run before the trade delete: it always takes the one-minute row of an orphaned trade, and its rows at all five resolutions iff some orphan's minute starts no later than that trade's day |
| Reorg.ResumeRecovery | src/indexer/reorg.ts:23-50 | a recovery cut after k statements and run again completes iff it was not cut between header delete and checkpoint write (with headers to delete and a checkpoint to move) |
| Reorg.Database.ProcessConfirmedBlock | src/indexer/scanner.ts:165-214 | effect of one live block on the tables, with a failure of the log fetch, of publishing, of the header insert, of the checkpoint write or of any recovery statement |
| Reorg.BlockTaken | src/indexer/scanner.ts:165-208 | a block whose stored parent matches and whose hash is free is published, then stored if its height is new, then made the checkpoint, and nothing else changes; a failure keeps exactly what came before it |
| Reorg.HeadsFollowed | src/indexer/scanner.ts:149-208 | following a chain of heads without failure publishes and stores every one, ends with the last as checkpoint, and leaves all else alone |
| Reorg.ProcessKeepsLinks | src/indexer/scanner.ts:165-208 | a live block, complete or cut short, keeps adjacent headers parent-linked iff it is not stored, was stored already, or the stored block above names it as parent |
| Reorg.CatchUpKeepsLinks | src/indexer/scanner.ts:372-377 | a header stored by catch-up keeps them linked iff it is refused, already stored, or linked to both stored neighbours |
| Reorg.RunKeepsLinks | src/utils/db/checkpoint.ts:45-60 | in every run of both paths, in any order of heights, with reorganisations and failures: stored headers are linked throughout iff every block stored at a new height was linked to its stored neighbours |
| Reorg.HeadsKeepLinks | src/indexer/scanner.ts:165-208 | in every run of heads each above all that is stored, with reorganisations, failures and matching caught-up blocks, stored headers at adjacent heights are always parent-linked |
| Reorg.ChunkInAnyOrder | src/indexer/scanner.ts:372-377 | headers of one chain stored concurrently keep the links throughout in every order, if what is stored at or next to their heights is of that chain |
| Reorg.OrphanedRangeSkipped | src/indexer/scanner.ts:173-178 | after a recovery the next live block moves the checkpoint past the orphaned range, of which nothing is published or stored |
| Reorg.OrphanedRangeRestart | src/indexer/scanner.ts:515-603 | after a recovery to a > 0, a block of the orphaned range is published again by what comes next only in a restart: once for a head past a + 1 and at or above the block, and once if the start-up replay found it lost |
| Delivery.DeliverySafety | src/processors/base-processor.ts:97-182 | in every interleaving of n consumers with failed handlers, lost acks, claims and crashes: each entry below the cursor is exactly one of pending or acked; acked only after handle returned or a dead-letter write past five deliveries; at most three tries and 5 + n deliveries (with one consumer: the read and five claims) |
| Delivery.ReadMeaning | src/processors/base-processor.ts:100-105 | a read delivers the next ten entries at most to the reader, each with counter 1, and touches no other row |
| Delivery.ClaimMeaning | src/processors/base-processor.ts:171-173 | a claim takes over a row that is pending and idle for 30 seconds, counting one delivery more; otherwise nothing changes |
| Delivery.AckMeaning | src/processors/base-processor.ts:119 | an ack that reaches the server takes exactly its row off the list |
| Delivery.HandleMeaning | src/processors/base-processor.ts:118 | a try is counted and its success noted; the list does not change |
| Delivery.LetterMeaning | src/processors/base-processor.ts:160-169 | a letter is written only past five deliveries and 30 idle seconds; the row goes with the ack after it |
| Delivery.ClaimedNeverHandled | src/processors/base-processor.ts:103-177 | once no read loop holds an entry no run handles it again; if never handled, it leaves the pending list only by dead letter |
| Delivery.RemainingStep | src/processors/base-processor.ts:148-182 | without reads no step raises the sum of remaining deliveries, and every step that changes the pending list lowers it |
| Delivery.RemainingNonNegative | src/processors/base-processor.ts:148-182 | in every reachable state that sum is at least 0, and 0 only for an empty list |
| DeliveryLoops.FindOldest | src/processors/base-processor.ts:155-157 | the ids of the at most ten oldest pending rows, in order |
| DeliveryLoops.Processor.ReadPass | src/processors/base-processor.ts:97-146 | amid any steps of others: every entry a pass reads ends handled and acked, or tried three times; an undisturbed read takes the next ten |
| DeliveryLoops.Processor.ClaimPass | src/processors/base-processor.ts:148-182 | a pass while nobody reads never raises the sum, and lowers it strictly when no query, ack or claim of it fails and one of the ten oldest was idle |
| DeliveryLoops.Drain | src/processors/base-processor.ts:148-182 | once reading stops, waiting out the idle time before each error-free pass empties the list in at most that many passes, whatever the others do in each pass |
| CatchUp.FetchLogs | src/indexer/scanner.ts:418-469 | the chunked queries together are the two unbounded queries, merged and filtered |
| CatchUp.MergeMeaning | src/indexer/scanner.ts:458-464 | the merge has every log position of either query, keeps the first as a prefix, adds only logs of the second, and repeats no position the first did not |
| CatchUp.FetchMeaning | src/indexer/scanner.ts:418-469 | with one log per position, a fetch returns exactly the watched logs of either query on the blocks of the range |
| CatchUp.ReplayOne | src/indexer/scanner.ts:516-570 | a start republishes a lost block iff it has a row less than 100 blocks below a checkpoint past 100 |
| CatchUp.Scanner.FetchHeaders | src/indexer/scanner.ts:367-377 | the header chunks request each block of the batch once, ascending |
| CatchUp.Scanner.RunBatch | src/indexer/scanner.ts:364-409 | one batch, cut before or after publishing, after its ledger rows, or complete |
| CatchUp.Scanner.CatchUp | src/indexer/scanner.ts:357-410 | the batch loop follows its specification through a crash at any stage of any batch; a completed one visits and publishes each block of the range exactly once in ascending order and leaves the checkpoint at its end |
| CatchUp.CatchUpReaches | src/indexer/scanner.ts:364-409 | however it ends, it has published from..p, once each, with the checkpoint at most one batch behind p |
| CatchUp.CoverageOverCrashes | src/indexer/scanner.ts:515-603 | over any crashes, start-up replays and restarts at checkpoint + 1, the published blocks are exactly those from the first start through some p at most a batch past the checkpoint; none more than once plus once per crash plus once per start that replayed it |
| CatchUp.LedgerHoldsEnds | src/indexer/scanner.ts:404-406 | after a catch-up with any crash and any earlier ledger: a block has a row iff it had one or it ends a batch that was ledgered; it is published iff it was or its batch was |
| CatchUp.ReplayCoversCatchUp | src/indexer/scanner.ts:405 | with no earlier rows for its range, a catch-up, crashed or not, leaves a row for every block it published iff it published none, or batches (or the range) are single blocks and no crash came between publishing and the ledger |
| CatchUp.StartupCoverage | src/indexer/scanner.ts:85-106 | from start-up, replay included, through any live blocks, every block up to the checkpoint has been published iff the head found was not the start block (or that was published before) and no block above the head and below the last live one was missed |
| Decoder.Scanner.DecodeLog | src/utils/decoder.ts:526-627 | the branches as they are taken give the event of the first matching one, resolved against the pool map before the log, and register a created pool |
| Decoder.DispatchMeaning | src/utils/decoder.ts:526-627 | topic by topic, from the log's own fields: for which emitters and topic counts a decodable log is decoded, as which event and with whose token; nothing else is decoded |
| Decoder.CreatedMeaning | src/utils/decoder.ts:540-554 | a pass registers a pool iff some log of a pool manager creates it, with the token of the last that does |
| Decoder.PresentMeaning | src/indexer/scanner.ts:219-224 | the events of a pass are all the decoded ones in log order |
| Decoder.Scanner.DecodeLogs | src/indexer/scanner.ts:218-225 | a pass decodes each log against the starting map and the creations before it |
| Decoder.Scanner.UpdateDynamicManagers | src/indexer/scanner.ts:228-242 | managers deployed are added in order up to the cap |
| Decoder.AddedManagers | src/indexer/scanner.ts:232-237 | all listed managers are added while they fit under 50,000, only listed ones ever, and the cap is never passed |
| Decoder.DeployedMeaning | src/utils/decoder.ts:587-588 | a batch deploys a manager iff some decodable log of the treasury factory says so |
| Decoder.Scanner.UpdatePoolMappings | src/indexer/scanner.ts:246-259 | the mappings after discovery |
| Decoder.DiscoverMeaning | src/indexer/scanner.ts:248-256 | a pool not mapped gets the token of the first event announcing it, which becomes known; a mapped one is left alone |
| Decoder.DiscoveredTokens | src/indexer/scanner.ts:252-254 | a token becomes known only from an announcement of a pool that was not mapped |
| Decoder.Scanner.TwoPass | src/indexer/scanner.ts:379-403 | known tokens never change, whatever a re-fetch would return; the pool map gains every creation and the managers every deployment; the published events are those of the second pass over the same logs |
| Decoder.NothingDiscovered | src/indexer/scanner.ts:252-254 | with every created pool mapped already, updatePoolMappings adds neither pool nor token |
| Decoder.SecondPassKeeps | src/indexer/scanner.ts:402-403 | the second pass keeps each event of the first, changing only its token; other than by filling in, iff the pool was mapped before and is created with another token later in the batch |
| Decoder.SecondPassOnlyFills | src/indexer/scanner.ts:402-403 | with no mapped pool created again under another token, the second pass only fills in null tokens |
| Decoder.SecondPassResolves | src/indexer/scanner.ts:381-403 | the second pass resolves a swap or fee event iff its pool is known or created anywhere in the batch, and decodes events of managers deployed in it, below the cap |
| Decoder.ThirdPassChangesNothing | src/indexer/scanner.ts:381-403 | a third pass has the pool map, managers and events of the second, for every batch |
| Decoder.NewTokenTransfersLost | src/utils/decoder.ts:614-620 | a three-topic Transfer is decoded by either pass of a batch iff its data decodes and its token was known before the batch |
| Decoder.PriceMeaning | src/utils/decoder.ts:163-186 | the price is the largest wei amount whose token-worth is not above the ETH moved; 0 iff no token moved or below one wei; a buy iff the ETH side is positive; reversing a swap changes neither price nor volume |
| StampedeCache.CallsAreHonest | src/api/cache.ts:23-60 | in every run of n callers: a returned value came from a fetch of the key; at most 100 polls and one fetch per call; an unguarded fetch only after 100 polls |
| StampedeCache.LookUpOutcome | src/api/cache.ts:30-32 | a filled cache is returned at once and nothing changes; an empty one leads to the lock |
| StampedeCache.LeaderOutcome | src/api/cache.ts:36-46 | who gets the lock fetches once, fills the cache, frees the lock and returns what it fetched |
| StampedeCache.LeaderFails | src/api/cache.ts:40-46 | when its fetch or write throws, the lock is freed and the call throws |
| StampedeCache.FollowerOutcome | src/api/cache.ts:50-54 | who finds the lock taken waits, and each poll returns the cache if it is filled |
| StampedeCache.FallbackOutcome | src/api/cache.ts:57-59 | after 100 polls in vain the caller fetches, fills the cache and returns, whoever has the lock |
| StampedeCache.OneGuardedFetch | src/api/cache.ts:34-47 | with no expiry under a live holder at most one live caller is in the guarded section, and it holds the lock |
| StampedeCache.OneFetchPerExpiry | src/api/cache.ts:30-47 | in every run of fresh callers from an empty cache in which nothing goes wrong: the guarded section is entered at most once iff nobody enters it with the cache filled; whoever does had missed at every earlier moment with the cache filled |
| StampedeCache.FetchAfterFill | src/api/cache.ts:30-59 | once the cache is filled and until it is dropped, a caller can fetch iff it has read the cache already and is yet to try the lock, holds the lock, or has polled 100 times; it takes no failure and no untimely expiry |
| StampedeCache.TwoFetchesInOneExpiry | src/api/cache.ts:36 | from any two fresh callers and an empty cache: a run without failure, expiry or drop in which both fetch, the second without polling |
| StampedeCache.ExpiryAdmitsSecond | src/api/cache.ts:36 | where exclusion holds, an expiry followed by the next caller's try at the lock keeps it iff the holder is no longer live in the guarded section; otherwise both are let in |
| StampedeCache.ExpiryBreaksExclusion | src/api/cache.ts:45 | after such an expiry the unconditional delete lets a third caller in beside the second |
| StampedeCache.WithCache | src/api/cache.ts:23-60 | the code's commands, amid any steps of others, are steps the machine allows, and it returns or throws what the machine says |
| StampedeCache.FetchGuarded | src/api/cache.ts:38-47 | the same for the guarded branch with its finally |
| PoolStates.Processor.ApplyPoolState | src/processors/trade.ts:86-114 | applied iff the pool is registered; row and initial price after it |
| PoolStates.Processor.FlushPending | src/processors/trade.ts:117-126 | a flush that deletes as it iterates applies every registered entry in order and keeps exactly the rest, in buffer and backup |
| PoolStates.FlushDivides | src/processors/trade.ts:119-125 | what a flush applies and what it keeps are each in buffer order |
| PoolStates.Processor.HandleUpdate | src/processors/trade.ts:128-150 | the whole state after one event, eviction included |
| PoolStates.Processor.Restore | src/processors/trade.ts:40-42 | the backup's entries put one by one over what the buffer holds by then |
| PoolStates.NewestKept | src/processors/trade.ts:86-150 | in every run of one process: the newest update handled of each pool is buffered, or shown in pool_state with no older one over it, or was evicted; the buffer holds at most 500 entries; the backup mirrors it |
| PoolRestarts.RestartsKeepNewest | src/processors/trade.ts:27-52 | in every run with restarts, updates and registrations at any point of a start, and failing reads of the backup: what NewestKept promises, with what is still to be put back, holds throughout iff every step is admitted |
| PoolRestarts.SoundStep | src/processors/trade.ts:27-150 | one step keeps it iff: a flush applies nothing that was read and is to be put back; an update meets no other of its pool that is, and leaves at most 500 for the buffer; a failing read leaves nothing behind in the backup |
| PoolRestarts.QuietRestarts | src/processors/trade.ts:37-46 | restarts during whose start no update is handled and the backup can be read lose nothing |
| PoolRestarts.BootWindow | src/processors/trade.ts:28-42 | with any updates handled before the backup is read, the promise holds after the restore iff the last of each registered, backed-up pool is the one backed up and at most 500 entries are backed up by then |
| PoolRestarts.OneBeforeRead | src/processors/trade.ts:28-42 | for one update: iff, registered, it is not backed up as another, or, unregistered, the backed-up pools with its own are at most 500 |
| PoolRestarts.OneAfterRead | src/processors/trade.ts:39-42 | for one update between the read and the putting back: iff its pool was not backed up with another and, unregistered, the pools fit in 500 |
| PoolRestarts.OlderComesBack | src/processors/trade.ts:28-42 | a newer update of a pool registered meanwhile, handled before the restore: the next flush writes the backed-up older one over it |
| PoolRestarts.RestoredOverfull | src/processors/trade.ts:40-42 | with 500 backed up and one more pool handled before, the buffer holds 501 and stays there as further pools come |
| PoolStates.NoEviction | src/processors/trade.ts:142-146 | handling an update evicts nothing iff its pool is registered or no more than 500 unregistered pools wait with it |
| PoolStates.InitialPriceFixed | src/processors/trade.ts:102-112 | an initial price once set is the same after any run |
| PoolStates.ApplyMeaning | src/processors/trade.ts:86-113 | from the update's own fields: the row of a registered pool gets its token, values and the highest block, a token without a price gets one for a positive square-root price, nothing else changes |
| PoolStates.InitialPriceMeaning | src/processors/trade.ts:104-106 | the initial price is the largest p with p * q^2 at most 2^192 * 10^18 |
| PoolStates.InitialPriceSet | src/processors/trade.ts:102-112 | over any run with restarts, a token's price is the one it had or that of the first update applied for it with a positive square-root price |
| PoolStates.RowShown | src/processors/trade.ts:94-101 | over any run, a pool's row is that of the updates applied for it in order |
| PoolStates.RegistrationRace | src/processors/trade.ts:130-135 | with a registration between the flush and the apply of one call, NewestKept survives iff the update is not for that pool or no other update of it was still buffered; otherwise the next flush writes the older update over the newer |
| Royalties.RoyaltySplit | src/utils/db/fees.ts:176-201 | for n members with positive total share, floored earnings sum to between E - (n - 1) and E, basis points to between 10000 - (n - 1) and 10000 |
| Royalties.EarnedMeaning | src/utils/db/fees.ts:179-185 | a member earns the largest whole k with k * shares at most fees * share; a creator who is no member, or a token whose shares are all zero, gives the whole |
| Royalties.BasisPointsMeaning | src/utils/db/fees.ts:192-198 | the shown share is the same floor out of 10000, 0 when all shares are zero, 100 percent for a creator who is no member |
| Royalties.CreatorCountedTwice | src/utils/db/fees.ts:177-185 | with a creator who is not a member, the wallets of a token together see at least 2E - (n - 1); within E iff the members see nothing |
| Royalties.TotalWithinTokens | src/utils/db/fees.ts:213-215 | a wallet's total claimable never exceeds the sum over its tokens, and equals it iff no token is over-claimed beside one not fully claimed |
| EventCodec.RoundTrip | src/indexer/scanner.ts:634-636 | reviving the replaced form of an event tree gives the same tree iff no string leaf is an optional minus, digits and `n` |
| EventCodec.ShapeMeaning | src/utils/math.ts:19 | the shape is an optional minus, at least one digit, and `n` |
| EventCodec.ReplacedIsPlain | src/indexer/scanner.ts:634-636 | the replaced form has no big integer left, and replacing is idempotent |
| EventCodec.TokenNameRevived | src/utils/math.ts:18-20 | a token named `5n` comes back as the integer 5 |
| Wei.ServerRoundTrip | src/utils/math.ts:6-16 | for all n from 0, parsing the printed text gives back n; no leading zero but that of a zero whole part, and no trailing zero in the fraction, if any |
| Wei.PrintersAgree | public/app.js:110-117 | server and browser print the same text iff n > 0; for 0 the browser prints `0.` |

## Left out

- ReplayCoversCatchUp: takes every batch to have events; the code writes no ledger row for a stream without any, and the replay looks only at the last 100 blocks and at the last id of a row.
- CoverageOverCrashes: is about start-up replays and catch-up steps only. On the live path a block whose processing failed can be passed by the checkpoint (`src/indexer/scanner.ts:153-160`), and `onNewHead` calls can overlap; StartupCoverage says what is needed there. The START_BLOCK override is not modelled.
- NewestKept: is about one process between its restore and its end; the results of PoolRestarts.dfy cover restarts. Both take each handler as one step and the backup's Redis writes as successful (the code swallows their failures), RegistrationRace shows why the first is needed; and both take one trade processor to own the backup.
- DeliverySafety: takes pending entries not to be trimmed from the stream, and says a dead-letter write was attempted, not that it succeeded; the code acks the entry either way.
- HashRefinesRow: key expiry of the hash (48 hours) is not modelled, nor totals above 2^1024, where a double overflows.
- RoundTrip: `JSON.stringify` and `JSON.parse` are taken as the identity on trees without big integers.
- ServerRoundTrip: amounts from 0; a negative remainder prints its own sign in the server's printer, so there is no round trip there.
- PrintersAgree: amounts from 0, for the same reason.
- RowMeaning: `trade_count` is unbounded; the INTEGER column is not.
- RPC, WebSocket, SQL and Redis transport, and retries with real timers: a request succeeds, or fails for good, as one step; partial publication of a batch is not modelled.
- ABI decoding and keccak hashes: a log carries its parsed arguments and whether parsing succeeds; topics are distinct values.
- The periodic refresh of known tokens and pools from the database (`src/indexer/scanner.ts:605-616`) between batches.
- Trade rows, maker lookups and the transfer drain of the trade processor: overwrites without an invariant of their own.
- Floating-point USD values, trending scores and `toFixed` formatting.
- Pub/Sub messages, cache invalidations after a handler, metrics, stream trimming, key expiry other than the cache lock's.
- Authentication, HTTP routes, gateway, user interface, deployment files, and the large read queries.
