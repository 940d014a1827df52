# Verified model of the market-data recorder

The program records two prediction markets second by second, joins them, detects shocks, measures how the
second market responds, and stores everything through a durable queue. This project models its stateful
core and proves what that core is meant to guarantee.

- **Spool** (`SpoolModel`, `SpoolSafety`, `SpoolPump`, `SpoolPipeline`): the at-least-once pipeline from the shards
  through an SQLite table, a bounded channel and the writer's buffers into all-or-nothing Postgres
  transactions, and back through acks. The model is a state machine whose steps are the stretches of code
  between await points; a run is any list of steps, with any statement failing, any commit lost, the writer
  dying and the process restarting. `SpoolPump` says what one pump of the spooler achieves. `SpoolPipeline`
  is the same code as a class with loops, each method proved to be a step, or a run of steps, of that machine.
- **Batches** (`BatchUpsert`): deduplication of bars and the statements that write them, and what a
  row that comes again does to the table.
- **Redelivery** (`DeliveryOrder`, `Redelivery`, `StaleReplay`, `BarTables`): in which order the rows of one
  kind leave the spool, which committed rows a restart delivers again, when writing them again does harm, and
  what the committed transactions of a whole run leave in the two bar tables.
- **Book** (`BookModel`, `BookSides`, `BookDrift`, `Fnv`): the dense order book over arrays with cached best
  indices and counts, against a plain map from price index to size; the streaming selection of the best
  levels of a snapshot; the drift check that compares the two.
- **Watermark** (`Watermark`): one token's bars behind a two-second watermark.
- **Pair join** (`PairJoin`, `PairAggregator`): buckets per pair, side and second, the index and queue that
  time them out, and the second task that builds them. A run is a sequence of lock-held sections.
- **Responses** (`PendingQueue`, `BarHistory`): the queue of due response measurements, and the history in
  which they are measured.
- **Shocks** (`ShockMachine`): cooldown, peak search and final report of one shock kind, and the engine of
  all kinds.
- **Orders** (`OrderAmounts`, `MultiSend`): exact prices as fractions, rounding to significant digits, the
  largest order at exactly a price, and the packed byte string of a MultiSend batch.
- **Requests** (`Scheduler`, `Backoff`): the oldest-first budget and the failure backoff.

Code that the program runs in place is a class or a method with loops, proved equal to a specification
function; the properties are lemmas about that function. Wall-clock budgets are a parameter that may stop a
loop anywhere. Prices and sizes are the program's own integers; other numbers are exact.

Results that are about where the program does not do what one expects:

- A shock does not always get its final report: it loses it exactly when its kind fires on the first bar at
  or past the deadline. `FinalIffNotRetriggered` says so, `RetriggerLosesFinal` is a concrete loss.
- A first event at second 0 or below can leave an accumulator behind the watermark for good;
  `FirstSecondDecides` says that this happens exactly for such first events.
- Order amounts saturate at 256 bits, and then the price is no longer exact: `ExactIffUnsaturated`.
- Rounding to zero significant digits is not monotone: `MonotoneIffADigitIsKept`.
- Deduplicating pair bars is not the same as writing them one by one, because the conflict clause leaves one
  column out: `DedupeMatchesOneByOne` gives the exact condition, `DedupeDiffers` an input that fails.
- A committed pair bar that comes again alone puts its old columns back (`OlderReplayChanges`). A restart
  does no harm exactly when the committed rows it delivers again are an upper part of all committed ones
  (`HarmlessIffUpper`), which holds in every run in which no ack pass deletes a row of the kind after an
  older one of the kind whose delete failed (`RestartIsHarmless`; `UpperThroughoutIff` is the exact condition
  on runs); `RestartCanHarm` is a run of 501 rows in which it does not. In such a run the table of pair bars
  is current again once redelivery is complete (`RedeliveryCompletes`).
- A token bar that comes again makes its whole transaction fail: `SecondDelivery`,
  `RedeliveredTokenBarIsRefused`. So a restart with a committed token bar still in the spool, or a commit of a
  token bar that was applied but reported as failed, stops the pipeline: no row is ever newly committed
  (`RestartCommitsNothingNew`, `LostCommitStrands`, `NothingNewIsCommitted`).
- The 600-entry history can be too short for a response window: `WindowIsWholeIff`.

## Model

| member | source | states |
|---|---|---|
| SpoolSafety.CommittedIdsHaveNoGaps | src/db_writer.rs:1262-1334 | after every commit of every run, crashes and failures included, a committed row implies that every older row the writer persists is committed too |
| SpoolSafety.NoRowIsLost | src/db_queue.rs:187-371 | in every run, a decodable persisted row that ever reached the table is still in it or committed |
| SpoolSafety.StagesPartitionFetchedRows | src/db_queue.rs:158-352 | while the writer lives, a decodable table row up to the last fetched id is in exactly one of pending, channel, buffers, acks and ack buffer, any other row in none |
| SpoolSafety.CountersAreExact | src/db_queue.rs:158-352 | while the writer lives, the three counters are the insert buffer's size, the table's size, and channel plus writer buffers plus unread acks |
| SpoolSafety.CountersNeverUnderflow | src/db_queue.rs:23-46 | the counters cover what is still to be subtracted from them in every state, also after the writer died |
| SpoolSafety.PumpNeverOverfills | src/db_queue.rs:232-324 | no run meets a full channel; nothing waits between pumps while the writer lives; ids enter the channel in increasing order within a process |
| SpoolSafety.UpdateCommitsAfterEvent | src/db_writer.rs:1004-1074 | with alpha capture on, a committed shock update has an older row with its shock event, and when that row decodes it is committed in an earlier transaction or earlier in the same one; exempt is only an update logged by a process that had failed to serialise that event itself, so reused ids do not matter |
| SpoolSafety.TransactionsAreOrdered | src/db_writer.rs:801-1260 | in every committed transaction the kinds come in the order of its fourteen statements |
| SpoolSafety.RanksAre | src/db_writer.rs:1292-1334 | the places of the kinds in the statement order and in the order of the acks |
| SpoolSafety.KeepsApply | src/db_queue.rs:142-185 | every single step keeps the invariant from which the run theorems follow |
| SpoolSafety.KeepsRestart | src/db_queue.rs:64-99 | a restart that keeps only the table, its ids and the committed transactions keeps the invariant |
| SpoolPipeline.Pipeline.Restarted | src/db_queue.rs:64-99 | a new process over the same database starts with empty memory, the stored row count and last sent id 0 |
| SpoolPipeline.Pipeline.ReceiveIngest | src/db_queue.rs:160-166 | a received message is buffered and counted, and a buffer of 400 is inserted at once |
| SpoolPipeline.Pipeline.ReceiveAck | src/db_queue.rs:167-173 | a received ack is buffered and uncounted, and a buffer of 500 is deleted at once |
| SpoolPipeline.Pipeline.FlushInsert | src/db_queue.rs:187-230 | the loop drops what cannot be serialised, inserts the rest with the next ids, and keeps all of it when the insert fails |
| SpoolPipeline.Pipeline.FetchRows | src/db_queue.rs:265-295 | the fetched rows are queued in id order, undecodable ones set aside, and the last sent id moves over both |
| SpoolPipeline.Pipeline.DeleteChunks | src/db_queue.rs:336-351 | chunk by chunk, a chunk is retried exactly when its delete removed nothing, and the count follows the rows removed |
| SpoolPipeline.Pipeline.FlushAck | src/db_queue.rs:326-352 | sorted and deduplicated acks leave the table; failed chunks stay in the buffer |
| SpoolPipeline.Pipeline.PumpSend | src/db_queue.rs:232-324 | under any interleaving with the other tasks the events are exactly those of a pump with their turns in between; it takes the first rows above the last sent one, as many as the channel has room for and at most 1000, drops the undecodable ones, and while the writer lives leaves nothing unsent and never meets a full channel |
| SpoolPump.PumpDelivers | src/db_queue.rs:232-324 | what any pump has done to the rows when it ends, whatever the others did meanwhile: rows taken, undecodable ones deleted, the rest sent; nothing when the fetch fails, finds no row or has no room, and the front of the queue is dropped when the writer was dead before |
| SpoolPump.PumpAlone | src/db_queue.rs:265-322 | when nobody interferes and the writer lives, the decodable ones of those rows now stand at the end of the channel, in id order |
| SpoolPipeline.Pipeline.Receive | src/db_writer.rs:543-624 | an envelope goes to the buffer of its kind, or is acked unwritten when alpha capture is off |
| SpoolPipeline.Pipeline.FlushBuffers | src/db_writer.rs:726-1334 | one transaction holds all buffers in statement order; acks follow only a reported commit, otherwise every buffer is restored |
| SpoolPipeline.Pipeline.Interleave | src/db_queue.rs:79-96 | whatever the shards and the writer do meanwhile keeps the invariant and is a run of the state machine |
| BatchUpsert.DedupeBars | src/db_writer.rs:51-87 | the result is the last bar of each key, in the order in which keys first appear |
| BatchUpsert.DedupeIsUnique | src/db_writer.rs:51-87 | that description determines the list |
| BatchUpsert.UpsertAllAt | src/db_writer.rs:396-468 | after any upserts a key holds the last bar's columns, except the sample count, which stays what it was first |
| BatchUpsert.DedupeMatchesOneByOne | src/db_writer.rs:292-470 | writing the deduplicated stage equals writing bar by bar if and only if no new key changes its sample count within the stage |
| BatchUpsert.DedupeDiffers | src/db_writer.rs:461-462 | two bars of a new key whose sample counts differ: the batch keeps the last count, writing bar by bar the first |
| BatchUpsert.ReplayIsNoOpIffNewest | src/db_writer.rs:396-468 | pair bars written again leave the table alone if and only if each key is stored with their last columns |
| BatchUpsert.OlderReplayChanges | src/db_writer.rs:396-468 | an older bar written again alone puts the old columns back |
| BatchUpsert.ReplayedTailIsNoOp | src/db_writer.rs:1274-1334 | writing the tail of what was written again, as after a lost commit, changes nothing |
| BatchUpsert.WritePairBars | src/db_writer.rs:293-480 | however the stage is cut into statements, none is refused and the result is the upsert of the deduplicated stage |
| BatchUpsert.WriteTokenBars | src/db_writer.rs:156-291 | the plain inserts succeed if and only if no key of the stage is stored already, and then all of the deduplicated stage is in |
| BatchUpsert.SecondDelivery | src/db_writer.rs:156-291 | after a stage of token bars another one is accepted if and only if it shares no key with it or with what was there |
| BatchUpsert.RedeliveredTokenBarIsRefused | src/db_writer.rs:156-291 | the same token bar, delivered again after its commit, is refused |
| Fnv.HashIsFnv1a | src/shard.rs:2362-2372 | the byte hash gives the published value of the 64-bit FNV-1a hash |
| Fnv.OneLevelShows | src/shard.rs:2362-2372 | a change of one byte in the price index or size of one level always changes the hash of a list |
| BookModel.PriceIsAtTick | src/shard.rs:2374-2383 | a price stands at level i exactly when i is one of 0..10,000 and the integer nearest to 10,000 times the price, the one away from zero on a tie |
| BookModel.SizeIsInUnits | src/shard.rs:2389-2394 | a size counts as the integer nearest to 1,000,000 times it, cut off at the bounds of 64 bits |
| BookModel.SameLevelIffSameTick | src/shard.rs:2374-2383 | two prices share a level exactly when the same tick is nearest to both |
| BookModel.SnapshotLevel | src/shard.rs:1843-1906 | a snapshot gives a level the size of its last entry at that tick with a positive size |
| DeliveryOrder.OrderKept | src/db_queue.rs:142-371 | every step keeps the rows of one kind in id order from the channel to the delete: none overtakes an older one that is still in the table |
| DeliveryOrder.PassKeepsUpperIff | src/db_queue.rs:336-351 | a pass over the acks leaves an upper part of its ids in the table if and only if no chunk is deleted after one whose delete failed |
| DeliveryOrder.UpperKeptIff | src/db_queue.rs:142-371 | a step keeps the rows of a kind in the table an upper part of its decodable rows if and only if it deletes no row of the kind after an older one of the kind whose delete failed |
| DeliveryOrder.UpperThroughoutIff | src/db_queue.rs:142-371 | a run, restarts included, keeps that all along if and only if all its ack passes delete the rows of the kind in order |
| DeliveryOrder.RowsGoInOrder | src/db_queue.rs:326-371 | in every such run a row of the kind is gone only when every older decodable row of the kind is gone |
| DeliveryOrder.OnlyTableRowsComeAgain | src/db_queue.rs:232-324 | after a restart, of the rows logged before it only those still in the table are ever sent again |
| DeliveryOrder.CommittedTracked | src/db_writer.rs:1262-1334 | every committed row can be decoded and is of a kind that the writer writes |
| DeliveryOrder.CaptureOffWritesSeven | src/db_writer.rs:543-624 | with alpha capture off only seven kinds are ever committed, and their rows are acked only after their commit |
| Redelivery.OnlyRowsToCome | src/db_queue.rs:64-99 | of every kind, a committed row sent again after a restart is one of the committed rows that were still in the table |
| Redelivery.AllRowsToComeAreHeld | src/db_queue.rs:232-324 | and while the writer lives each of those is again in a stage once the spooler has fetched that far, until it is deleted |
| Redelivery.HarmlessIffUpper | src/db_writer.rs:396-468 | writing some committed rows again leaves every table that holds the newest bars as it is, whatever the bars are, if and only if they are an upper part of the committed rows |
| Redelivery.UpperPartRestores | src/db_writer.rs:396-468 | an upper part written again brings every one of its keys to the newest bar, also after a redelivery that was cut short |
| Redelivery.RestartIsHarmless | src/db_queue.rs:326-371 | in every run whose passes delete the rows of a kind in order, whatever they do to other kinds, what a restart delivers again of that kind is an upper part of what was committed and harmless |
| StaleReplay.PassOutOfOrder | src/db_queue.rs:336-351 | a run of 501 acks whose last pass deletes the second chunk after the first failed: row 501 is gone and row 1 is not, both committed |
| StaleReplay.RestartCanHarm | src/db_queue.rs:336-351 | after that run a restart is not harmless |
| BarTables.StageIsBuffer | src/db_writer.rs:1004-1074 | the rows of one kind in a transaction are the buffer of that kind, in its order |
| BarTables.StaleBarIsToCome | src/db_writer.rs:293-480 | in every run, crashes and failures included, whose passes delete pair rows in order: when the table of pair bars after all commits does not show the newest committed bar of a key, that bar is still in the spool and not acked |
| BarTables.RedeliveryCompletes | src/db_queue.rs:232-371 | so once every committed pair bar still in the spool has been acked again, the table holds the newest bar of every key |
| BarTables.WaitsOn | src/db_queue.rs:142-371 | a tracked row in the spool whose delete is not under way stays so until a transaction that writes it is committed |
| BarTables.SecondCommitIsRefused | src/db_writer.rs:156-291 | a transaction with a token bar that was committed before is refused |
| BarTables.HeldTokenBarBlocks | src/db_writer.rs:1262-1303 | while the writer holds a committed token bar the database accepts no transaction at all |
| BarTables.NothingNewIsCommitted | src/db_writer.rs:726-1334 | once a committed token bar is in the spool and its delete is not under way, no row is ever newly committed, in any continuation that the database accepts, restarts included |
| BarTables.RestartCommitsNothingNew | src/db_queue.rs:64-99 | so it is after a restart with a committed token bar still in the spool |
| BarTables.LostCommitStrands | src/db_writer.rs:1262-1288 | and after a commit of a token bar that was applied but reported as failed |
| BookModel.TopIsTop | src/shard.rs:2319-2360 | walking the price indices from the best one lists exactly the n best levels, best first |
| BookModel.TopUnique | src/shard.rs:1750-1784 | two lists of the n best levels of one book are equal |
| BookModel.BestIsFirst | src/shard.rs:1735-1748 | the best index is the first entry of any top list, and none exactly when the list is empty |
| BookModel.NoDriftFromItself | src/shard.rs:1554-1606 | a book compared with itself reports no drift |
| BookModel.BestPriceDriftIsReported | src/shard.rs:1565-1586 | books that differ in the best price of a side are always reported |
| BookModel.OneLevelDriftIsReported | src/shard.rs:1588-1606 | books whose twenty best levels of a side differ in one byte of one price or size are always reported |
| BookModel.DepthDriftIsATwentieth | src/shard.rs:1588-1606 | the depth test fires exactly when both depths are positive and differ by a twentieth of the local one or more, or only one is positive |
| BookSides.BookSide.Load | src/shard.rs:1843-1906 | loading a snapshot leaves exactly its last-write-wins map and counts its bad prices |
| BookSides.BookSide.SetLevel | src/shard.rs:1923-1972 | one update of the arrays, count and cached best index is one update of the map |
| BookSides.BookSide.UpdateBest | src/shard.rs:1930-1970 | the cached index is the best level again after an insertion or removal |
| BookSides.BookSide.FindNext | src/shard.rs:1974-2000 | the scan finds the best level strictly worse than the start, none exactly when there is none |
| BookSides.BookSide.DepthTopN | src/shard.rs:2045-2095 | the walk sums the notionals of the n best levels of the map |
| BookSides.BookSide.TopLevelsNotional | src/shard.rs:2097-2149 | the walk lists the notionals of the best levels, padded with zeros |
| BookSides.BookSide.HashTop | src/shard.rs:2319-2372 | the walk feeds exactly the n best levels to the hash, in order |
| BookDrift.CollectTopLevels | src/shard.rs:1750-1784 | for any list with duplicates, bad prices and missing sizes the streaming selection is the n best levels of the last-write-wins map |
| BookDrift.SumTopLevels | src/shard.rs:1786-1792 | the sum over the first n entries |
| BookDrift.MeasureSnapshot | src/shard.rs:1735-1748 | the streaming metrics are the map's best indices, top-20 hash and top-10 depth |
| BookDrift.DenseBook.MeasureLocal | src/shard.rs:1557-1561 | the same metrics read from the cached indices and the arrays |
| BookDrift.DenseBook.ApplySnapshot | src/shard.rs:1843-1906 | a snapshot replaces the sides it carries and leaves the other alone |
| BookDrift.DenseBook.ApplyDelta | src/shard.rs:1908-1921 | a delta sets the level at the tick nearest to its price; a price off the book or a number that is not finite is reported and changes nothing |
| BookDrift.DenseBook.TopnHash | src/shard.rs:2319-2360 | the incremental hash is the hash of the two top lists |
| BookDrift.DenseBook.CheckSnapshotDrift | src/shard.rs:1554-1606 | drift is reported if and only if the two books differ in a best index, top-10 depth by the ratio, or top-20 hash |
| BookDrift.DenseBook.ApplyThenCheck | src/shard.rs:1554-1606 | after a full snapshot is applied, checking the same snapshot reports no drift |
| Watermark.BarsAreConsecutiveAndExact | src/shard.rs:709-730 | the emitted bars are the consecutive seconds from the first event to the last flushed second, once each, each with exactly its accepted events |
| Watermark.AtMostTwoLive | src/shard.rs:388-416 | after every message at most two accumulators live, both just above the last flushed second |
| Watermark.EventsAreConserved | src/shard.rs:388-416 | accepted events = events in emitted bars + events in live accumulators |
| Watermark.EmittedIffTwoSecondsOn | src/shard.rs:709-730 | the bar of a second is out exactly when an event or an effective tick two seconds later has been seen |
| Watermark.AcceptedIffInTime | src/shard.rs:388-402 | an event is counted exactly when its second is not before the first one and nothing two seconds later has been seen |
| Watermark.FirstSecondDecides | src/shard.rs:388-390 | no message sequence strands an accumulator if and only if the first second is positive |
| Watermark.TokenState.HandleEvent | src/shard.rs:388-416 | one event advances the watermark, counts or rejects the event and emits the bars that became ready |
| Watermark.TokenState.HandleTick | src/shard.rs:629-653 | one tick moves the watermark of a token with new events and emits the bars that became ready |
| Watermark.TokenState.Drain | src/shard.rs:709-730 | the flush loop emits the seconds of the range in order, empty ones included, and removes their accumulators |
| PairJoin.NoOrphanedBucket | src/pair_aggregator.rs:803-880 | in every interleaving each live bucket is indexed at its second, pending in the queue, or in the worker's batch |
| PairJoin.EveryBarInOnePlace | src/pair_aggregator.rs:481-521 | every bar received is in exactly one of a live bucket, overwritten by a later bar of its key and venue, one built pair bar |
| PairJoin.BucketsHoldOneVenue | src/pair_aggregator.rs:505-521 | a live bucket misses exactly one venue, so does a timed-out bar, and a joined bar none |
| PairJoin.TimeoutsAreOverdue | src/pair_aggregator.rs:739-776 | while ticks do not go back, no bar times out before its second is older than the late buffer |
| PairJoin.NextOwns | src/pair_aggregator.rs:2000-2052 | every lock-held section keeps the ownership of all buckets |
| PairJoin.NextConserves | src/pair_aggregator.rs:2009-2030 | every lock-held section keeps every bar in exactly one place |
| PairAggregator.PairAggState.HandleBar | src/pair_aggregator.rs:481-521 | one arrival: the bar enters the bucket of its key, and a complete bucket is built and leaves |
| PairAggregator.PairAggState.ShouldFlushBucket | src/pair_aggregator.rs:739-776 | a bucket is flushed exactly when its second is older than the late buffer extended, for each missing venue whose token is known, by how far that token is ahead, 120 s at most |
| PairAggregator.PairAggState.ScanEntry | src/pair_aggregator.rs:824-852 | of one second's keys each live one is queued as stale, already pending, or left over; unless turns or room run out every due key is queued and only keys not due are left over |
| PairAggregator.PairAggState.FlushStale | src/pair_aggregator.rs:803-858 | one pass queues only stale keys, at most 500, and drops from the index only dead or pending ones; unless 500 are queued, every due key that its turns reach is queued and every entry that they reach over leaves the index, of the overdue entries up to the first that leaves a key over |
| PairAggregator.PairAggState.DrainFlushQueue | src/pair_aggregator.rs:860-880 | the batch takes queued keys in order, skipping those completed meanwhile |
| PairAggregator.PairAggState.HasBucket | src/pair_aggregator.rs:2010-2016 | the worker drops a key whose bucket is gone |
| PairAggregator.PairAggState.BuildTimedOut | src/pair_aggregator.rs:2018-2030 | the worker builds and removes a bucket only if it is still there |
| PendingQueue.EnqueueInOrder | src/pair_aggregator.rs:1634-1661 | a new response goes behind all due no later and ahead of all due later |
| PendingQueue.DueIsPrefix | src/pair_aggregator.rs:1673-1745 | the due responses are a prefix of the queue in (target, insertion) order |
| PendingQueue.Queue.HandleShock | src/pair_aggregator.rs:1634-1661 | a shock queues its five responses, due 10, 30, 60, 120 and 300 s after it, and the count follows |
| PendingQueue.Queue.FlushPending | src/pair_aggregator.rs:1666-1745 | a prefix of the due items goes, the rest stays in order, and the count stays the total; a due item stays only when 500 have gone or the clock or the channel has run out |
| PendingQueue.EnqueueIsInsert | src/pair_aggregator.rs:1638-1640 | the map of lists behaves as one sorted list |
| PendingQueue.AfterShockRefines | src/pair_aggregator.rs:1634-1661 | queueing into the map of lists is queueing into the list of the run theorem |
| PendingQueue.HandedOverOnceAndNotEarly | src/pair_aggregator.rs:1666-1745 | over every run a response is handed over at most once, never before its target second, and is then gone |
| BarHistory.HistoryIsSuffix | src/pair_aggregator.rs:674-698 | the history is the newest 600 bars received, in order |
| BarHistory.HistoryStaysSorted | src/pair_aggregator.rs:674-698 | bars received in order are stored in order |
| BarHistory.EmittedIsSorted | src/shard.rs:719-728 | the bars that a shard emits for a token, each sent any number of times, are received and stored in order |
| BarHistory.FindWithLookback | src/pair_aggregator.rs:2190-2206 | the backward search returns the last entry within reach |
| BarHistory.LookbackIsLatest | src/pair_aggregator.rs:2190-2206 | that is a bar of the latest second in [t - gap, t], none exactly when there is no such bar |
| BarHistory.FirstIndexAfter | src/pair_aggregator.rs:2208-2220 | the binary search splits the history exactly at second t |
| BarHistory.WindowMembers | src/pair_aggregator.rs:1847-1902 | the summed window holds each stored entry with trigger < second <= target as often as stored, and no other |
| BarHistory.WindowIsWholeIff | src/pair_aggregator.rs:674-698 | the trim to 600 entries leaves a nonempty window of a sorted stream whole if and only if at most 600 bars were received after the trigger second |
| BarHistory.Range | src/pair_aggregator.rs:1847-1902 | the slice between two searches is that window |
| BarHistory.BuildResponse | src/pair_aggregator.rs:1821-1942 | the loops compute the response row that the specification gives, with all its columns, and no row for an unknown token or one without a history |
| BarHistory.PriceColumns | src/pair_aggregator.rs:1836-1913 | sample validity, move flag, price delta and return ratio, each from the prices that the two bars show (last trade, else the two mids) and their staleness |
| BarHistory.OtherColumns | src/pair_aggregator.rs:1846-1921 | spread and depth changes and the two columns of the first bar |
| BarHistory.SumColumns | src/pair_aggregator.rs:1892-1897 | the two sums are over the window |
| BarHistory.ResponseLagIsEarliest | src/pair_aggregator.rs:1865-1902 | the first-move lag lies in 1..horizon and no stored bar qualifies earlier |
| ShockMachine.StartsAreSpaced | src/shock.rs:604-618 | two shocks of a kind start at least 10 s apart |
| ShockMachine.FinalReportsThePeak | src/shock.rs:649-686 | each final report belongs to one started shock, no shock has two, and it reports that shock's peak, peak time, direction, noise flag, start and context |
| ShockMachine.PeakIsFirstMaximum | src/shock.rs:658-666 | the peak is the maximum of the trigger value and the metric over the bars up to 10 s on, at the first bar that attains it |
| ShockMachine.FinalIffNotRetriggered | src/shock.rs:637-686 | a shock gets its final report if and only if a bar at or past its deadline came and its kind did not fire on the first such bar |
| ShockMachine.RestartsIffFires | src/shock.rs:613-618 | on that bar the kind starts anew if and only if it fires: cooldown and peak window end together |
| ShockMachine.RetriggerLosesFinal | src/shock.rs:572-574 | a concrete run in which a retrigger costs a shock its report |
| ShockMachine.ShockEngine.ScheduleShock | src/shock.rs:604-647 | unless the kind fired less than 10 s ago a firing starts a shock with its magnitude, direction, noise flag and context, a deadline 10 s on, and as start the first point of the unbroken run at or above seven tenths of the threshold; no other kind is touched |
| ShockMachine.ShockEngine.RecordMetric | src/shock.rs:577-586 | the newest 120 points of a kind are kept |
| ShockMachine.MetricsAreSuffix | src/shock.rs:577-586 | the history of a kind is always its newest 120 points |
| ShockMachine.ShockEngine.FinalizePending | src/shock.rs:649-686 | every pending kind observes the bar and is reported once its deadline is reached |
| ShockMachine.ShockEngine.HandleBar | src/shock.rs:151-575 | a bar's metrics, firings and finalisation, for all kinds at once, are one step of each kind |
| ShockMachine.FindStart | src/shock.rs:588-602 | the backward loop finds the start of the shock |
| ShockMachine.StartIsUnbroken | src/shock.rs:588-602 | that is the first point of the unbroken run above the weak threshold that ends the history, and there is only one such point |
| OrderAmounts.ComputeGcd | src/trade/opinion_private.rs:2370-2377 | the loop computes Euclid's gcd |
| OrderAmounts.GcdDivides | src/trade/opinion_private.rs:2370-2377 | it divides both numbers |
| OrderAmounts.Bezout | src/trade/opinion_private.rs:2370-2377 | it is an integer combination of them, hence the greatest common divisor |
| OrderAmounts.PriceToFraction | src/trade/opinion_private.rs:2324-2368 | a price is accepted if and only if its value is in [0.001, 0.999] with digits before the point and at most 6 after it, and then equals the returned fraction, which is in lowest terms; outside the range and too precise are told apart |
| OrderAmounts.UnitsAreValue | src/trade/opinion_private.rs:2338-2360 | the integers computed from the digits stand for the decimal's value |
| OrderAmounts.HalfEvenIsNearest | src/trade/opinion_private.rs:2379-2404 | the rounded quotient is the nearest one, the even one on a tie, and the only such |
| OrderAmounts.AtMostNDigits | src/trade/opinion_private.rs:2379-2404 | the rounded value has at most n significant digits |
| OrderAmounts.RoundSigMonotone | src/trade/opinion_private.rs:2379-2404 | rounding to n >= 1 digits is monotone, across carries too |
| OrderAmounts.RoundSigIdempotent | src/trade/opinion_private.rs:2379-2404 | rounding again changes nothing |
| OrderAmounts.RoundSigError | src/trade/opinion_private.rs:2379-2404 | the error is at most half a unit, and relative to the value at most 10^(1-n)/2 |
| OrderAmounts.MonotoneIffADigitIsKept | src/trade/opinion_private.rs:2379-2404 | rounding is monotone on all values if and only if n >= 1 |
| OrderAmounts.RoundingFits | src/trade/opinion_private.rs:2379-2404 | below 10^77 nothing saturates |
| OrderAmounts.RoundToSignificantDigits | src/trade/opinion_private.rs:2379-2404 | the loop with saturating 256-bit products computes that rounding, saturated |
| OrderAmounts.CalculateOrderAmounts | src/trade/opinion_private.rs:2406-2437 | the amounts are the multiple of the reduced fraction that the rounded maker amount allows, at least one, saturated |
| OrderAmounts.ExactIffUnsaturated | src/trade/opinion_private.rs:2406-2437 | the pair is at exactly the price if and only if neither amount saturates |
| OrderAmounts.BestExactOrder | src/trade/opinion_private.rs:2406-2437 | unless an amount saturates the pair is at exactly the price, and if a unit can be afforded no pair at exactly the price within the rounded maker amount is larger in either amount |
| OrderAmounts.SmallestExactPair | src/trade/opinion_private.rs:2419-2421 | when no unit can be afforded the order is the smallest one at exactly the price |
| MultiSend.EncodeTransactions | src/trade/opinion_private.rs:2151-2165 | the bytes are the packed form, and unpack to the very calls |
| MultiSend.UnpackPacked | src/trade/opinion_private.rs:2151-2165 | packing loses nothing |
| MultiSend.PackedUnpacked | src/trade/opinion_private.rs:2151-2165 | every byte string that unpacks is the packed form of what it unpacks to |
| MultiSend.PackingIsUnambiguous | src/trade/opinion_private.rs:2151-2165 | different batches pack to different bytes |
| Scheduler.PriceScheduler.RunTick | src/rest/opinion.rs:548-632 | a tick chooses the oldest targets within the budget, all of them when there is none, and stamps exactly those |
| Scheduler.SelectedSpec | src/rest/opinion.rs:548-583 | no tick exceeds the budget, and each chosen target was fetched longer ago than each one left out, or equally long ago (never counting as at time 0) with a smaller key |
| Scheduler.MissShrinks | src/rest/opinion.rs:548-583 | a tick that passes a target over removes a full budget of others from ahead of it |
| Scheduler.NoStarvation | src/rest/opinion.rs:548-632 | in any run, from any stamps and over any stretch of ticks: once a target has passed the filters at floor((N-1)/budget)+1 of them, consecutive or not, it was fetched at one of them, whatever the eligibility of the others |
| Scheduler.EveryWindowFetches | src/rest/opinion.rs:548-632 | every window of that many consecutive ticks at which the target passes contains a fetch of it |
| Scheduler.MissKeeps | src/rest/opinion.rs:626-632 | a tick at which the target is not fetched, eligible or not, brings nothing ahead of it |
| Backoff.BackoffLaw | src/rest/opinion.rs:2604-2666 | after f failures in a row the base delay is min(first * 2^(f-1), cap); the deadline is that delay times the jitter factor, to the nearest millisecond within the limits, and exactly that delay without jitter |
| Backoff.LimitsAre | src/rest/opinion.rs:2604-2666 | a token waits 2 s, 4 s, 8 s and so on up to 60 s, the gate 5 s, 10 s and so on up to 120 s; 120 s and 300 s without a failure start over |
| Backoff.NoEarlyRelease | src/rest/opinion.rs:2535-2541 | after any history of failures, the idle reset never comes before the deadline |
| Backoff.RestBackoff.MarkToken | src/rest/opinion.rs:2604-2635 | a failure marks that token only |
| Backoff.RestBackoff.MarkGlobal | src/rest/opinion.rs:2637-2666 | a failure marks the gate |
| Backoff.RestBackoff.GateUntil | src/rest/opinion.rs:2668-2689 | the gate is closed exactly until its deadline, although an idle gate is reset |
| Backoff.RestBackoff.Filter | src/rest/opinion.rs:2525-2568 | exactly the targets without a standing deadline or with priority pass, in order; exactly the idle entries of targets and the run-out priorities are forgotten |

## Left out

- Networks, WebSockets, REST parsing, SQL text, logging, metrics, configuration, signatures, on-chain calls and the Python report: input and output, or libraries that are not visible.
- The trade engine and the Opinion WebSocket are not part of this model.
- Float statistics (correlation, beta, z-scores, EWMA, log returns, histograms) and with them the decision that a shock fires: a bar brings the firings and the metric as inputs.
- Float rounding: prices, depths and volumes are exact; depth sums are integers in units of 10^-10. Times are unbounded integers where the program saturates at 64 bits.
- Liveness of the spool: a row that always fails its insert blocks every later transaction, and a closed channel drops an envelope until the next restart. Messages in the ingest buffer are lost on a crash, so durability starts at the table insert.
- Spool details: a failed SQLite statement changes nothing, ids are consecutive, an envelope is its row id with the payload in the log, and the alpha setting does not change between restarts. Shock ids start anywhere after a restart and may repeat.
- The thresholds at which the writer flushes: a flush may happen at any time.
- The two bar tables start empty and nothing but the writer changes them.
- Other statements of the transaction than the two kinds of bars: only their order and their all-or-nothing outcome are modelled, so what a second delivery does to their tables is open.
- The `exchange_ts_source` correction of token bars on the way to the table.
- `pending_inflight` and the response worker beyond the hand-over: the counter may be decremented before it is incremented.
- The 250 ms delta sums: only the updated side's window is pruned.
- BarHistory.BuildResponse: the return column is kept as the price ratio whose logarithm the program stores.
- ShockMachine.ShockEngine.HandleBar: which kinds fire, with which magnitudes and thresholds, and the metrics are inputs, because float statistics decide them; all metrics of a bar are recorded first, as the program does for each kind before its own firing.
- Depth within 1%, microprice, air pockets, median size and the other derived book numbers.
- OrderAmounts.PriceToFraction: price texts with an underscore or an exponent are the decimal library's own rules, and for more than 28 digits it may round into the range before the price is refused as too precise. The final range check of the amounts, which uses floats, repeats the one on the decimal price.
- What a built pair bar contains beyond its two inputs: fees, spreads, carried state and statistics.
- BookSides.BookSide.DepthTopN: for n = 0 the walk counts one level, as the program does; it is called with positive n only, and so is TopnHash.
- Watermark.BarsAreConsecutiveAndExact: requires a positive first second, because the theorem is false otherwise; Watermark.FirstSecondDecides gives the exact condition.
- PairAggregator.PairAggState.FlushStale: the clock is a number of loop turns, because a second that is not yet stale is put back and looked at again until the time budget ends.
- ShockMachine.FinalReportsThePeak: bars have strictly increasing times, as the shard emits them.
