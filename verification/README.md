# A verified model of the matching engine

The project models a deterministic, sharded limit-order matching engine with a write-ahead log, and proves
what its design promises, and where the promises end: the pointer-based order book does exactly what a plain
price-time list does; an acknowledged command survives the crash of the run that acknowledged it; barriers and
drains mean what they say; every command gets one reply; and a snapshot plus the log gives back the live books.
Over several runs this holds as long as every file left by a crash ends on a record boundary. A file left torn
still recovers once, but after that restart has opened its next segment, no recovery succeeds any more; both
the condition and such a run are proved.

The modules follow the program.

| module | part of the program |
|---|---|
| `Model` | commands, events, results, validation |
| `PriceTimeBook` | what a command means, on one price-time ordered list per side |
| `Levels`, `PointerBook` | the book as the program keeps it: price levels, linked queues, indexes, a cached total per level; the proof that it refines `PriceTimeBook` |
| `CommandLaws` | what every command does to the book and answers, in plain comparisons of prices, quantities and sequences, without the functions that compute it |
| `MatchingLaws`, `BookLaws`, `TradeIds`, `Snapshots`, `BookRuns` | what holds of every book and every run of commands |
| `Bytes`, `Codec`, `Layout`, `CodecBuffers` | the record format, on byte sequences, by absolute offsets, and in place on a reused buffer |
| `Reader` | segments, torn tails, all segments of a shard |
| `Damage` | logs that are damaged and not only cut short, records that replay does not confirm, foreign snapshots: all of them stop the start-up |
| `GroupCommit` | the log writer and its disk as a machine of steps: batching, timer, rotation, failure, crash |
| `ShardLoop`, `ShardLaws`, `ShardRuns` | the shard loop with its writer, what holds over every run of a shard, and a run that skips a record |
| `Sequencing`, `EngineLaws`, `EngineTrades` | sequencer and all shards, and what holds over every run of them |
| `Faultless`, `FlushRun` | nothing fails without a cause; a run in which a barrier and a drain succeed |
| `Processes` | the parts of loop, writer and sequencer that run without waiting, as objects with mutable state |
| `Replay`, `Recovery`, `Registry`, `SnapshotOrder`, `Engine` | replay, comparison of results, symbols to shards, start-up, snapshots |
| `Shelves` | start-up again, on the pointer books themselves |
| `EndToEnd`, `Restarts`, `TornRun` | run, snapshot, crash, recovery; many runs in a row; a run that leaves a torn file |

Concurrency is modelled by steps: every point where a goroutine can be overtaken, time out, fail or crash is a
step of its own, and a run is any sequence of enabled steps. Reply, acknowledgement and completion channels are
named by numbers; a disk is a list of files with a synced part and an unsynced part of which a crash keeps any
prefix. State that only serves the statements (all commands received, all records submitted) is marked as
bookkeeping where it is declared; no step looks at it. The checksum of records and the hash of symbols are
parameters, so nothing depends on which functions they are. `hide` statements only keep definitions away from
the solver where a proof does not need them.

## Model

| member | source | states |
|---|---|---|
| `Model.Validates` | internal/model/types.go:97-183 | validation fails on exactly the commands that have a reject reason, so the two separately written checks agree |
| `PointerBook.OrderBook.Apply` | internal/book/book.go:170-192 | for every heap that satisfies the representation invariant and every command, the pointer book answers with the events of the price-time list and its new contents are the list's; the invariant is kept |
| `BookRuns.RunBook` | internal/book/book.go:160-192 | over every run of commands from a new book, the pointer book returns the price-time list's results one by one, ends with its contents, and its self-check succeeds after each command |
| `CommandLaws.AcceptedExactly` | internal/book/book.go:170-266 | a command is accepted if and only if its fields are in order and the book allows it: a fresh id and, under fill-or-kill, enough to fill it, or an order to cancel or replace; otherwise nothing changes and there is one rejection with the reason due |
| `CommandLaws.TradesWithinLimit` | internal/book/book.go:304-352 | every trade of every command: a priced buy pays at most its price, a priced sell gets at least it, and a replacement without a price goes by that of the order it replaces |
| `CommandLaws.NewOrderDone` | internal/book/book.go:194-228 | an accepted new order trades the smaller of its quantity and all that rests opposite within its price, from the head of the price-time order, and if it is left unfilled nothing within its price remains; what is left of a market, immediate-or-cancel or fill-or-kill order is cancelled and nothing of it rests, what is left of a good-till-cancelled limit order rests behind its equals with its price and sequence, and nothing is cancelled |
| `CommandLaws.NewOrderRefused` | internal/book/book.go:195-205 | a known id is refused; a fill-or-kill order is refused exactly when the opposite quantity at prices not beyond its limit, for a market order at any price, is smaller than its own; refusals change nothing |
| `CommandLaws.EnoughIsAccepted` | internal/book/book.go:374-408 | the fill-or-kill check over leading prices agrees with the sum over the whole opposite side of the quantities at acceptable prices |
| `CommandLaws.CancelTakesOut` | internal/book/book.go:230-242 | cancelling removes exactly the named order, moves no other and reports its quantity; an unknown id is refused and changes nothing |
| `CommandLaws.ReplaceKeepsPlace` | internal/book/book.go:268-278 | a replacement with no other price and no more quantity leaves every order of both sides in its place, changes only that order's quantity, trades nothing, and answers Reduced if and only if something was taken off, then Replaced with priority retained |
| `CommandLaws.ReplaceLosesPlace` | internal/book/book.go:280-292 | every other replacement takes the order off, trades all it can within the new price, rests what is left behind its equals with the sequence of the command, cancels nothing, and answers Replaced with priority lost |
| `PointerBook.OrderBook.HandleNew` | internal/book/book.go:194-228 | duplicate ids, fill-or-kill refusal, matching, cancelling and resting, as on the list, where `CommandLaws.NewOrderDone` and `CommandLaws.NewOrderRefused` say what that is |
| `PointerBook.OrderBook.HandleCancel` | internal/book/book.go:230-242 | unknown ids are rejected and change nothing, otherwise exactly that order leaves the list |
| `PointerBook.OrderBook.HandleReplace` | internal/book/book.go:244-292 | rejection, reduction in place, or withdrawal and re-entry, as on the list, where `CommandLaws.ReplaceKeepsPlace` and `CommandLaws.ReplaceLosesPlace` say when and what that is |
| `PointerBook.OrderBook.Match` | internal/book/book.go:304-321 | the side opposite becomes what the sweep of the list leaves, with its trades and trade counter; the own side is untouched; `CommandLaws.TradesWithinLimit` says which prices these are |
| `PointerBook.OrderBook.MatchAgainst` | internal/book/book.go:323-352 | the loop over best levels is the sweep of the flat list, which `MatchingLaws.SweepConsumesPrefix` describes by comparisons of prices alone |
| `PointerBook.OrderBook.AvailableQtyFor` | internal/book/book.go:374-408 | the loop over cached level totals returns the smaller of the required quantity and what is eligible on the flat list; `CommandLaws.EnoughIsAccepted` says what that is |
| `PointerBook.OrderBook.RestOn` | internal/book/book.go:294-302 | a resting order appears on its side at its price-time place and the other side does not change |
| `PointerBook.OrderBook.GetOrCreateLevel` | internal/book/book.go:49-60 | the level for a price, opened at its sorted place if needed, without changing the list |
| `PointerBook.OrderBook.RemoveActive` | internal/book/book.go:360-372 | an order leaves queue, index and total, and an empty level goes with it |
| `PointerBook.SideBook.FindInsertIndex` | internal/book/book.go:81-100 | the binary search finds the place that keeps the prices sorted, for bids and for asks |
| `PointerBook.SideBook.FindPriceIndex` | internal/book/book.go:73-79 | the index of a price, or -1 if and only if the side does not have it |
| `PointerBook.SideBook.AddLevel` | internal/book/book.go:49-60 | price slice, level map and view gain the same new empty level, and stay sorted and in step |
| `PointerBook.SideBook.RemoveLevelIfEmpty` | internal/book/book.go:62-71 | an empty level leaves slice, map and view; any other stays, and nothing else changes |
| `PointerBook.OrderBook.NextTradeId` | internal/book/book.go:354-358 | the id for the command and counter, and a counter advanced by one with wrap-around |
| `PointerBook.PriceLevel.Append` | internal/book/book.go:102-113 | the order becomes the tail of a well-formed doubly linked queue and is added to the cached total |
| `PointerBook.PriceLevel.Remove` | internal/book/book.go:115-130 | the order is unlinked wherever it stands and taken off the cached total; the others keep their order |
| `PointerBook.OrderBook.CheckInvariants` | internal/book/book.go:410-451 | the self-check succeeds exactly on the heaps that have the properties it looks for |
| `PointerBook.OrderBook.CheckSide` | internal/book/book.go:410-451 | the check of one side succeeds exactly when its prices, levels and queues have the properties it looks for |
| `PointerBook.OrderBook.ReachableIsHealthy` | internal/book/book.go:410-451 | a valid pointer book whose contents are sound passes the self-check |
| `PointerBook.OrderBook.Snapshot` | internal/book/book.go:460-467 | walking levels and queues yields a snapshot that shows the book, trade counter included |
| `PointerBook.OrderBook.NewFromSnapshot` | internal/book/book.go:469-491 | resting the saved orders one by one builds a valid pointer book with the contents of `Snapshots.Restore` |
| `Snapshots.RestoreGivesBack` | internal/book/book.go:460-510 | restoring a snapshot of any sound book gives exactly that book, trade counter included |
| `MatchingLaws.SweepConsumesPrefix` | internal/book/book.go:323-352 | matching consumes an exact prefix of the opposite price-time list: every maker filled but possibly the last, each at its own price, which for bids is not below and for asks not above the limit, with consecutive trade numbers; it stops only when filled or at a price beyond the limit |
| `MatchingLaws.SweepFillsAllItCan` | internal/book/book.go:304-352 | the filled quantity is the smaller of the wanted quantity and what is reachable within the limit |
| `MatchingLaws.AllAcceptableReachable` | internal/book/book.go:304-352 | on a best-first list nothing acceptable stands behind something unacceptable, so stopping at the first refusal loses nothing |
| `MatchingLaws.FokIsAllOrNothing` | internal/book/book.go:200-212 | for limit orders and market orders without a price: refused if and only if matching would leave something, and if and only if the leading quantity at prices not beyond the limit is too small; a refused order changes nothing |
| `MatchingLaws.FokKillsPartially` | internal/book/book.go:381-408 | the exact exception: an accepted fill-or-kill order stays partly unfilled if and only if it is a market order with a non-zero price whose quantity the whole side has and the side within that price has not |
| `BookRuns.FokPartialExample` | internal/book/book.go:381-408 | such an order exists, on the book that two sell orders leave of an empty one |
| `BookLaws.ApplySound` | internal/book/book.go:170-372 | every command keeps a book sound: sides sorted by price, then by sequence, ids unique over both sides, quantities positive, no crossed prices |
| `BookLaws.ReachableBooksAreSound` | internal/book/book.go:160-372 | so every book reached from the empty one is sound, with increasing queues when command sequences increase |
| `BookLaws.ApplyConserves` | internal/book/book.go:194-352 | what a command brings to the book is traded on both sides, cancelled, or resting afterwards |
| `BookLaws.RunConserves` | internal/book/book.go:194-352 | the same over every run of commands |
| `BookLaws.ReplaceIsCancelThenNew` | internal/book/book.go:244-292 | a replacement that asks for another price or for more quantity has the final book, trade counter and trades of cancelling and entering a good-till-cancelled limit order with the same id and sequence |
| `TradeIds.ApplyIds` | internal/book/book.go:323-358 | the trades of one command carry consecutive ids built from its sequence and the book's counter |
| `TradeIds.ShiftAndJoin` | internal/book/book.go:354-358 | on 64-bit words the program's shift and or is the arithmetic of the model |
| `EngineTrades.EngineTradeIdsUnique` | internal/book/book.go:323-358 | in every reachable state of the engine, no two trades of commands applied on any shards carry the same id, under these bounds |
| `TradeIds.TradeIdsUnique` | internal/book/book.go:354-358 | trade ids differ across all applications of commands with different sequences below 2^44 that trade at most 2^20 times, on any books, restored or live |
| `Codec.RecordRoundTrip` | internal/journal/codec.go:119-154 | decoding the frame of any encodable record whose command carries its sequence returns it and consumes exactly its bytes, whatever follows; `Damage.WrongChecksum` says what is not decoded |
| `Codec.TornFrame` | internal/journal/codec.go:119-154 | any strict prefix of a frame reads as end of data, never as a record or as corruption |
| `Damage.WrongChecksum` | internal/journal/codec.go:134-144 | the header of any record, any payload of the announced size and any four bytes but the checksum of both are damage, whatever follows |
| `Damage.WrongBytes` | internal/journal/codec.go:134-144 | so is a record behind any other checksum than its own, and a changed payload behind the old checksum unless the two checksums agree |
| `Damage.WrongHeader` | internal/journal/codec.go:119-132 | so is a frame with another magic number, version or record type |
| `Damage.DecodedIsIntact` | internal/journal/codec.go:119-154 | whatever bytes are given: a decoded record could have been encoded, consumed exactly the length of its frame, and carried its checksum |
| `Layout.FrameLayout` | internal/journal/codec.go:91-220 | every field of a frame at its absolute offset: header, symbol, command, result, 69 bytes for each event, and the checksum of all before it at the end |
| `Layout.LittleEndian` | internal/journal/codec.go:105-115 | what the numbers in these fields are, byte by byte |
| `CodecBuffers.AppendEncodedRecord` | internal/journal/codec.go:91-117 | encoding in place keeps the bytes before it, does not depend on stale bytes behind them, appends exactly the frame, and leaves everything alone when the record is too large |
| `CodecBuffers.EncodePayload` | internal/journal/codec.go:172-220 | the payload written in place, offset by offset, is the payload of the format |
| `CodecBuffers.DecodePayload` | internal/journal/codec.go:222-290 | the decoder, with its bounds checks, its loop over the event chunks and its test for trailing bytes, computes the decoding function |
| `Reader.HeaderRoundTrip` | internal/journal/codec.go:35-85 | a segment header reads back whatever follows it, and any strict prefix reads as end of data |
| `Reader.WalIsFaithful` | internal/journal/codec.go:35-154 | the record and header formats have, with any checksum, all that reader and writer proofs use of them |
| `Reader.ReadFramesLoop` | internal/journal/reader.go:62-79 | the loop with its offset computes the recursive reading of a segment |
| `Reader.ReadShardLoop` | internal/journal/reader.go:20-38 | the loop over segments computes the reading of a shard |
| `Reader.CutSegment` | internal/journal/reader.go:40-80 | torn tail: a last segment cut at any byte reads as exactly the records wholly before the cut; any other segment does so if and only if the cut is on a boundary |
| `Reader.CutShard` | internal/journal/reader.go:20-38 | reading a shard succeeds if and only if all segments but the last end cleanly, and returns the surviving records of all of them |
| `Reader.WholeIsMaximal` | internal/journal/reader.go:62-79 | the surviving records are the largest number of records whose bytes fit before the cut |
| `Damage.DamagedShard` | internal/journal/reader.go:62-79 | a segment with any good records and then a record with a wrong checksum makes its shard unreadable, whatever the other segments hold, and also when it is the last |
| `Damage.ForeignSegment` | internal/journal/reader.go:52-60 | so does a segment of another shard, and, when an engine reads its own log, one of another engine or shard count |
| `Damage.ForeignRecord` | internal/journal/reader.go:71-73 | so does a record of another shard |
| `GroupCommit.StepKeeps` | internal/journal/writer.go:174-292 | every step of the writer, under any failure, keeps its invariant: queue, batch, disk, acknowledgements and flush tokens agree; records on disk for good only grow in number |
| `GroupCommit.WriteKeeps` | internal/journal/writer.go:413-436 | a batch written wholly or in part leaves a segment that is a beginning of its records' bytes |
| `GroupCommit.SyncKeeps` | internal/journal/writer.go:201-224 | after a successful sync exactly the records written are acknowledged, and each is on disk for good |
| `GroupCommit.FlushKeeps` | internal/journal/writer.go:197-227 | rotation is decided so that segments stay bounded |
| `GroupCommit.ReadBack` | internal/journal/writer.go:174-274 | after a crash at any moment the files can be read, and hold the old records and a beginning of the encodable submitted ones, with every acknowledged one |
| `ShardLoop.StepKeeps` | internal/shard/loop.go:83-239 | every step of loop, writer, timer or failing disk keeps: books are the replay of what was applied, pending commands are the applied ones not yet answered in order, answered ones are durable, reply channels are conserved |
| `ShardLaws.CrashSafety` | internal/shard/loop.go:137-224 | for every run with any batching, rotation, failure and crash point: the records read back are those of earlier runs, then the encodable ones of the first commands applied, in order, including every command answered with its result; they are simply the first commands applied if and only if none up to there was too large to encode |
| `ShardRuns.LogSkips` | internal/journal/writer.go:239-245 | the exception happens: whenever a shard has a symbol of more than 65535 bytes, some run applies a command for it and then one that can be encoded, and the log holds the second alone |
| `ShardLaws.CrashKeepsPrefix` | internal/journal/writer.go:239-256 | when all records can be encoded, the log is a prefix of the commands applied that holds all those answered with success |
| `ShardLaws.RepliesMatchLog` | internal/shard/loop.go:180-224 | a result is sent only for a completed command, and it is the result in that command's record; the only other results are rejections of commands whose symbol the shard does not have |
| `ShardLaws.FailStop` | internal/shard/loop.go:137-239 | an error is never cleared, leaves nothing pending, and after it nothing is applied, appended or answered with success, over every continuation of the run |
| `ShardLaws.OneReplyEach` | internal/shard/loop.go:83-128 | when the loop has ended, after any run, every command it received has exactly one reply |
| `ShardLaws.FlushCompletes` | internal/shard/loop.go:192-206 | in any run, after a flush of the log returned, whatever is pending is acknowledged already, so completing it does not wait |
| `ShardLaws.GroupCommits` | internal/journal/writer.go:194-274 | over every run: pending bytes are the encodings of exactly the submitted records whose acknowledgements are pending, in order of submission, the timer is armed exactly when there are any, an idle writer is below both thresholds, and a segment exceeds its maximal size only with a single batch |
| `ShardLaws.CommitsWhenDue` | internal/journal/writer.go:194-274 | over every run: the writer turns to a flush only on its timer, on request or at a threshold, and then opens a new segment if and only if the batch does not fit behind what is in the current one |
| `Processes.LoopObject.FailPending` | internal/shard/loop.go:208-214 | the loop over pending commands answers each with the error, in order, and leaves none: the machine's step |
| `Processes.LoopObject.CompleteNext` | internal/shard/loop.go:180-190 | answers the oldest command, or fails it and all behind it: the machine's step |
| `Processes.LoopObject.CompleteAll` | internal/shard/loop.go:192-197 | the loop is a run of completions and leaves nothing pending |
| `Processes.LoopObject.EnqueueCommand` | internal/shard/loop.go:137-178 | a failed loop refuses, an unknown symbol is rejected, otherwise the command is applied to its pointer book and its record returned for the log: the machine's step |
| `Processes.LoopObject.ApplyCommand` | internal/shard/loop.go:157-168 | the pointer book of the symbol takes the command, the others do not change, and the record carries the result of the price-time list |
| `Processes.WriterObject.Acknowledge` | internal/journal/writer.go:210-226 | all waiting records are acknowledged, the batch is emptied and the timer disarmed: the machine's step |
| `Processes.WriterObject.Break` | internal/journal/writer.go:203-209 | a failure answers all waiting records and everything in the queue with an error: the machine's steps |
| `Processes.WriterObject.RejectRemaining` | internal/journal/writer.go:276-292 | the loop rejects requests until the queue is empty |
| `Processes.WriterObject.TakeAppend` | internal/journal/writer.go:239-256 | an append joins the batch, or is answered with an error when it cannot be encoded; a full batch asks for a flush |
| `Processes.SequencerObject.HandleCommand` | internal/ingress/sequencer.go:213-236 | a routed command gets the next sequence and goes to the inbox of its shard and no other; an unrouted one, or one after exhaustion, is answered |
| `Sequencing.StepKeeps` | internal/ingress/sequencer.go:208-268 | every step of clients, sequencer and shards keeps: inboxes hold exactly the commands routed, a shutdown request is the last, at most one shard is asked to flush, those asked before are calm if all answered well |
| `EngineLaws.SequencesGapFree` | internal/ingress/sequencer.go:213-236 | for every log of requests: sequences are consecutive from the first, never wrap into reuse, and the counter becomes zero exactly when they are used up |
| `EngineLaws.RoutedInOrder` | internal/ingress/sequencer.go:213-236 | for every log of requests: every command for a listed symbol is routed, in the order of the requests, the i-th with the i-th number, until the numbers are used up |
| `EngineLaws.SequencerReplies` | internal/ingress/sequencer.go:213-236 | the sequencer itself answers exactly the commands for unlisted symbols, with sequence zero and a rejection, and those after exhaustion, with an error |
| `EngineLaws.RoutedRising` | internal/ingress/sequencer.go:213-236 | the commands of each shard rise strictly in sequence, from above its recovered watermark |
| `EngineLaws.BarrierHolds` | internal/ingress/sequencer.go:237-246 | in every reachable state: if a barrier or drain has reported success, every command requested before it that was routed is answered with its result, on whatever shard, and its record is on disk for good; that barriers do succeed is `EngineLaws.FlushesSucceed` and `FlushRun.FlushesHappen` |
| `EngineLaws.DrainHolds` | internal/ingress/sequencer.go:247-257 | in every reachable state: while a successful drain is held, every shard is paused with nothing pending, its books are the replay of exactly the commands routed to it, and its watermark is the last of them; that drains do succeed is `EngineLaws.FlushesSucceed` and `FlushRun.FlushesHappen` |
| `EngineLaws.FlushesSucceed` | internal/ingress/sequencer.go:237-257 | in every reachable state in which no shard has failed, every barrier and drain that was answered reported success, and a drain that is held succeeded |
| `FlushRun.FlushesHappen` | internal/ingress/sequencer.go:208-257 | for every engine that meets the assumptions, whatever its number of shards, and every command that can be logged: some run answers the command with its result, then a barrier with success, then a drain with success, and holds every shard |
| `Faultless.NothingFails` | internal/shard/loop.go:83-239 | over every run of the engine in which the disk does not fail, no request to a writer is refused or given up, and every record can be encoded: no shard fails, no shard answers with an error, and every barrier and drain that was answered succeeded |
| `EngineLaws.OneReplyForEach` | internal/ingress/sequencer.go:149-174 | when sequencer and loops have ended, the shutdown request is the last of all requests, all are handled, and every admitted command has exactly one reply |
| `EngineLaws.ShardsReplayGlobally` | internal/shard/registry.go:14-63 | a symbol lives on one shard, so replay shard by shard gives its book as replay in global sequence order does |
| `Replay.ReplayIsPerSymbol` | internal/shard/engine.go:245-272 | a book depends only on the commands of its own symbol, in their order |
| `Recovery.EqualResults` | internal/recovery/recovery.go:76-90 | the field-by-field comparison decides equality of results |
| `Recovery.RecoverShard` | internal/shard/engine.go:245-272 | the replay loop with its watermark computes the recursive recovery of a shard |
| `Recovery.RecoverTakesAdvancing` | internal/shard/engine.go:252-259 | exactly the records above everything before them are replayed; disorder is skipped, not rejected |
| `Damage.RecoverExactly` | internal/shard/engine.go:245-272 | a shard recovers if and only if every record above the watermark and all records before it is for a known symbol and holds the result that replay gives; it then ends with the books and sequence of exactly these records |
| `Recovery.RecoverFromCut` | internal/shard/engine.go:245-272 | from the books of any cut and the whole log, replay gives the live books and watermark, and no comparison fails |
| `Recovery.RecoverEngine` | internal/shard/engine.go:245-272 | the same for all shards, each with its own cut, whatever other books are around |
| `Recovery.NextSequence` | internal/shard/engine.go:280-288 | the next sequence exceeds every recovered one, and is zero exactly when they are used up |
| `Registry.NewSymbolRegistry` | internal/shard/registry.go:14-41 | succeeds if and only if the shard count is usable and the symbols are present, non-empty and distinct; then both maps hold exactly the symbols, each where its hash puts it, in configured order |
| `Registry.Partition` | internal/shard/registry.go:43-63 | a symbol is listed on a shard if and only if it is routed there, which is its hash modulo the shard count, so the shards partition the symbols |
| `Engine.RecoverBooks` | internal/shard/engine.go:206-278 | the method computes the recovery function: refusal of foreign snapshots, restored or empty books, then every shard's files and records in turn |
| `Engine.LoadSnapshot` | internal/shard/engine.go:210-236 | a snapshot is taken if and only if engine id, shard count, watermarks and every symbol fit, and then gives the latest book of each symbol |
| `Engine.ReplayFiles` | internal/shard/engine.go:245-272 | the loop over shards, files and records computes the recursive recovery and stops at the first failure |
| `Damage.DamageIsFatal` | internal/shard/engine.go:245-249 | a record with a wrong checksum behind good ones, in any segment of any shard, stops the start-up, whatever the snapshot |
| `Damage.ForeignSnapshotIsFatal` | internal/shard/engine.go:216-231 | so does a snapshot of another engine, with another number of shards or watermarks, or with a book of a symbol that is not listed |
| `SnapshotOrder.LessMeaning` | internal/shard/engine.go:182-184 | the order of symbols: at the first place where two differ the smaller has the smaller byte or has ended |
| `SnapshotOrder.SortBooks` | internal/shard/engine.go:182-184 | strictly ordered by symbol as strings compare, with the same snapshots |
| `Engine.SnapshotShelf` | internal/shard/loop.go:65-77 | the snapshots of one shard show each of its pointer books once, in the order of symbols |
| `Engine.CreateSnapshot` | internal/shard/engine.go:174-191 | the snapshot of pointer books holds the watermarks and shows each book of each shard once, in the order of symbols |
| `Shelves.ApplyOnShelf` | internal/shard/engine.go:262-266 | a command on one pointer book of many: its result and contents are the list's, and no other book changes |
| `Shelves.ReplayOnShelf` | internal/shard/engine.go:245-272 | the replay loop on pointer books succeeds exactly when recovery on book values does, and leaves the recovered contents |
| `Shelves.RecoverOnShelf` | internal/shard/engine.go:206-278 | the whole of start-up on pointer books: same success, same watermarks, and the returned snapshots show the recovered books |
| `Shelves.LoopBooks` | internal/shard/loop.go:33-55 | the books a loop starts with, rebuilt from those snapshots, are exactly the recovered ones |
| `EndToEnd.CrashReplay` | internal/shard/engine.go:206-278 | after a crash at any moment of any run, with or without a drain in it, replay from empty books succeeds and gives every shard the books, trade counters and watermark of a beginning of the commands it had applied that includes all it had answered with success |
| `EndToEnd.CrashRecovery` | internal/shard/engine.go:206-278 | the same from any snapshot whose cut of each shard lies within what that shard has answered, in this run or in earlier ones |
| `EndToEnd.DrainIsCaptured` | internal/shard/engine.go:167-191 | a snapshot made from the shards of a held drain is such a snapshot: its cut is exactly what each shard has answered |
| `EndToEnd.SnapshotThenCrash` | internal/shard/engine.go:167-278 | the whole way round in one run: drain, snapshot, any further steps, crash at any moment, recovery |
| `Restarts.CleanIff` | internal/journal/reader.go:40-80 | what a crash left of a segment is a header and whole records exactly when the cut is clean; otherwise it cannot be read as any but the last segment |
| `Restarts.RestartIsDeployed` | internal/shard/engine.go:40-101 | the engine started on the recovered state, over the very files that the crash left, meets all assumptions again if and only if every file ends on a record boundary |
| `Restarts.SnapshotAcrossRuns` | internal/shard/engine.go:206-278 | over any number of such runs, a snapshot made in any of them serves for recovery after the crash of the last, and so does none |
| `Restarts.TornRestartIsFatal` | internal/journal/writer.go:356-411 | when a crash left a file that does not end on a record boundary, then in the next run, once its writer has made a new segment durable, every recovery fails, from every snapshot and from none, after every crash |
| `TornRun.TornCrashHappens` | internal/journal/writer.go:413-436 | such crashes happen: in every engine and for any two encodable commands of a shard, some run answers the first with its result and then leaves the last file torn |
| `Restarts.FreshIsDeployed` | internal/shard/engine.go:40-101 | the engine started on empty directories, with the actual record format, meets all assumptions |

## Left out

- `PointerBook.PriceLevel.Append`: the cached level total is a mathematical integer; overflow of its int64 sum is not modelled.
- `PointerBook.OrderBook.MatchAgainst`: the incoming order is passed by value until it rests, where the program updates one object.
- `PointerBook.OrderBook.NewFromSnapshot`: requires what every snapshot of a sound book has (valid sides, no id twice); the program would build a damaged book from other input.
- `Engine.RecoverBooks`: works on book values; `Shelves.RecoverOnShelf` does the same on pointer books.
- `Engine.CreateSnapshot`: begins with the drain held; acquiring and releasing it are steps of `Sequencing`.
- `GroupCommit.ReadBack`: assumes an engine id that fits a segment header, without which no segment is ever opened, and that the segments of earlier runs end on record boundaries; `Restarts.TornRestartIsFatal` says what happens without that.
- `ShardLaws.CrashSafety`: assumes, like `GroupCommit.ReadBack`, that the segments of earlier runs end on record boundaries.
- `ShardLaws.CrashKeepsPrefix`: assumes encodable records; `ShardLaws.CrashSafety` says what happens without that.
- `EndToEnd.CrashRecovery`: assumes encodable records, as the code skips the others and goes on, and files of earlier runs that end on record boundaries.
- `Shelves.RecoverOnShelf`: assumes that the loaded snapshot can be built, as `PointerBook.OrderBook.NewFromSnapshot` does.
- `TradeIds.ShiftAndJoin`: compares words with words; that arithmetic on 64-bit words is arithmetic modulo 2^64 is not restated.
- Progress: that commands are answered and that flushes succeed is proved of runs, not that every run gets there. In the model as in the code, an append that enters the queue of a writer which has already stopped (internal/journal/writer.go:127-137) is never acknowledged, and the loop then waits until something else fails.
- The loop without a log (`wal == nil`), which the engine does not use.
- Capacities of channels: queues are unbounded, so a full queue shows as a send that has not happened yet, and a rejected non-blocking submission as no step.
- Contexts and clocks: a timeout is a step that may happen at any moment of a wait; the batch timer may fire at any moment while it is armed.
- The writer's `closed` flag and lifecycle lock: only the shard loop calls the writer, and it appends nothing after it asks for the shutdown.
- File names, directory listing and six-digit segment numbers: the segments of a shard are a list.
- Saving and loading the snapshot file (internal/snapshot/snapshot.go): a snapshot is a value.
- `RecoverFromSnapshotAndWAL` (internal/recovery/recovery.go:23-74), which the engine does not use.
- CRC32C and FNV-1a themselves: both are arbitrary functions here.
- Metrics, configuration and the command-line programs: they would only add easy members.
