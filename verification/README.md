# Parallel read: a verified model

This project models the part of the client library that reads a query's result
in parallel: producers cut the rows of their partitions into chunks, bounded
queues carry the chunks to consumers, and readers take the rows out again. It
states and proves what that machinery is for.

## The parts

* **Queues.** `BatchCore` has one pure function for each critical section of the
  batch queue (from taking the mutex to returning, throwing or going to sleep)
  and the invariant that ties its counters, slots and history together.
  `BatchQueue` is the class with the flat slot array; each of its methods is
  proved to do what the critical section does. `Threads` models condition
  variables: a thread sleeps on the one its critical section names, is woken by a
  notification of that one or spuriously, and then competes for the mutex like
  any other thread. `FirstPass` and `FirstPassRuns`
  treat the pass in which consumers call Pop, `SecondPass` and `SecondPassRuns`
  the passes in which they call Get, `Drain` the destructor's drain, and
  `SimpleQueue` the bounded queue of the streaming read. Steps are critical
  sections and spurious wakeups, in any interleaving, for any number of threads,
  any batch size and any lists of chunks.
* **Chunks.** `Records` has rows, values and their layout. `ChunkImage` has the
  primitive writes as functions on a buffer value, `SuperChunk`, `ChunkWriter`
  and `ChunkReader` the classes that work in place on the byte array. A chunk
  that *holds* rows has every value where the layout puts it, in both regions;
  `StoredValues` says what that is byte by byte, and what reads as null.
* **Chunking.** `ChunkSplit` says where the loop cuts, as a function of the row
  sizes; `Chunking` and `PartitionReader` are the loops.
* **Text.** `TimeText`, `Tsv` and `TsvWriter` print; each has a reader, written
  independently of the printer, that gets the values back. `Identifiers` and
  `Explain`/`ExplainScan` do the same for names in queries and for the schema in
  an execution plan; `ColumnTypes` says in words what a column's type means, and
  `QueryText` reads a partition's query back from its end.
* **Choices.** `Routing` deals out partitions, `ReadPlan` decides whether the
  original table may be read.
* **All of it.** `Delivery` and `ChunkQueues` put chunking, routing and queues
  together: what arrives is what was there. `ChunkText` takes rows through a chunk
  into text.

## What is assumed

* The batch size and the capacity are at least one, and a batch queue's producer
  ids are distinct.
* A producer pushes ids 0, 1, 2, ... and is deleted once; `PartitionReader`
  shows that the reading loop does so. Pop and Get are not mixed on one queue.
* A Get names a producer of its queue. Nothing else is asked of requests for
  `SecondPass.SafeRun`, `SecondPassRuns.GetAnswers`, termination and the drain.
  `SecondPass.RunInv` is about requests for items that are pushed, none twice;
  `SecondPassRuns.ServableExactly` says which lists of requests are served to
  the end, and `SecondPassRuns.SlotMate` and `SecondPassRuns.GetCanSleepForever`
  show what happens to others.
* The chunk given to a writer is as `NewChunk` makes it, a Fixed value is no
  longer than its column, a null's recorded length is 0, and buffers are smaller
  than the address space.
* The text forms of DOUBLE, DATE and DATETIME come from the C library. They are
  parameters of which only readability is asked.
* A stop request or a failing allocation may come at any round of the reading
  loop; that is a parameter of the loop. A producer that stops early is a
  producer with a shorter list.
* A plan's text holds no earlier header and, before the end of its list of
  columns, no terminator; types have no space and character sets no comma, as
  the comment on the scan supposes. Names may hold anything else.

Where comments and code differ, the model follows the code: the comment on the
schema scan excludes backticks in names, the code accepts doubled ones; the
comments in the simple queue put elements in at the head and take them out at
the tail, the code does it the other way round; the comment on TIME values
speaks of midnight, the code accepts any number of hours.

## Model

| member | source | states |
|---|---|---|
| BatchQueue.ThreadSafeBatchQueue.constructor | queue/thread_safe_batch_queue.hpp:118-147 | a new queue: every producer active and numbered in the order given, no slot set, batch 0 |
| BatchQueue.ThreadSafeBatchQueue.IsBatchFinished | queue/thread_safe_batch_queue.hpp:74-84 | true exactly when every active producer has had a whole batch read and no item is left to read |
| BatchQueue.ThreadSafeBatchQueue.TargetIndex | queue/thread_safe_batch_queue.hpp:86-92 | the flat index is in range and splits back into the producer's number and the id modulo the batch size |
| BatchQueue.ThreadSafeBatchQueue.ResetBatch | queue/thread_safe_batch_queue.hpp:94-107 | all read counters zero, the next batch current, nothing else changed |
| BatchQueue.ThreadSafeBatchQueue.ReadValue | queue/thread_safe_batch_queue.hpp:109-115 | returns the slot's item, frees exactly that slot, counts one item less and one read more |
| BatchQueue.ThreadSafeBatchQueue.Push | queue/thread_safe_batch_queue.hpp:149-170 | the flat array and its counters do what the critical section of Push does to rows of slots: sleep on the busy condition when the id is ahead of the batch, else store, queue and notify |
| BatchQueue.ThreadSafeBatchQueue.Pop | queue/thread_safe_batch_queue.hpp:172-197 | the critical section of Pop: sleep, throw, or take the head of the queue out of its slot and end the batch when it is over |
| BatchQueue.ThreadSafeBatchQueue.Get | queue/thread_safe_batch_queue.hpp:199-240 | the critical section of Get, both from the first lock and from a wakeup |
| BatchQueue.ThreadSafeBatchQueue.DeleteProducer | queue/thread_safe_batch_queue.hpp:242-256 | the producer becomes inactive; the batch ends if it was the last one holding it up; consumers are woken when no producer is left |
| BatchQueue.ThreadSafeBatchQueue.FreeBatchData | queue/thread_safe_batch_queue.hpp:258-287 | one locked stretch of the drain frees the items and leaves the state that the specification of the drain gives |
| BatchCore.PushFindsFree | queue/thread_safe_batch_queue.hpp:149-163 | a push that does not wait finds its slot free, so the assertion in Push never fails |
| BatchCore.PushKeeps | queue/thread_safe_batch_queue.hpp:149-170 | Push keeps the invariant linking batch, read counters, slots, items and history |
| BatchCore.TakeKeeps | queue/thread_safe_batch_queue.hpp:109-115 | taking a set slot delivers an item never delivered before and keeps the invariant, across the end of a batch too |
| BatchCore.DeleteKeeps | queue/thread_safe_batch_queue.hpp:242-256 | DeleteProducer keeps the invariant |
| BatchCore.EndBatchKeeps | queue/thread_safe_batch_queue.hpp:94-107 | ending a finished batch keeps the invariant and never leaves the new batch finished while a producer is active |
| BatchCore.BoundedSkew | queue/thread_safe_batch_queue.hpp:151-160 | two active producers are never more than one batch of ids apart |
| BatchCore.SomeProducerFree | queue/thread_safe_batch_queue.hpp:74-84 | if nothing is left to read, some active producer is not blocked by the batch |
| FirstPass.RunInv | queue/thread_safe_batch_queue.hpp:149-256 | the invariant of the first pass holds in every state of every run of any number of producers and consumers, with barging and spurious wakeups |
| FirstPass.HeadInSlot | queue/thread_safe_batch_queue.hpp:184-190 | the head of the queue is in its own slot, at its producer's read counter, in the current batch |
| FirstPassRuns.EveryStateSafe | queue/thread_safe_batch_queue.hpp:149-197 | in every state of every run: delivered plus queued is pushed, in order; producers asleep sleep on the busy condition and are ahead of the batch; consumers asleep sleep on the empty condition, and then notified ones cover all items and a producer remains; nothing is stuck before all is done; the throwing state of Pop comes only after the last delivery |
| FirstPassRuns.EveryStateRepresented | queue/thread_safe_batch_queue.hpp:149-256 | in every state of every run: each set slot holds its producer's item of that place in the batch, set slots = items to read = queue length, pushed = batch base + read + set for active producers, skew at most a batch, and both assertions hold |
| FirstPassRuns.NoLostWakeup | queue/thread_safe_batch_queue.hpp:94-197 | every sleeper sleeps on the condition variable that is going to be notified for it, and has a reason to wait |
| FirstPassRuns.DeadlockFree | queue/thread_safe_batch_queue.hpp:149-256 | a state in which no thread can move on its own is one in which all are done |
| FirstPassRuns.PopThrowsAtTheEnd | queue/thread_safe_batch_queue.hpp:172-183 | Pop throws, with its message, only when every producer is deleted and everything pushed has been delivered, each producer's items in order |
| FirstPassRuns.MoveDecreases | queue/thread_safe_batch_queue.hpp:149-256 | every step that is not a spurious wakeup lowers a non-negative measure built on twice the unpushed items plus items plus active producers plus consumers present |
| FirstPassRuns.RunTerminates | queue/thread_safe_batch_queue.hpp:149-256 | a run, spurious wakeups and all, is no longer than the measure of its start and two more steps for each spurious wakeup |
| FirstPassRuns.Completes | queue/thread_safe_batch_queue.hpp:149-256 | a run that cannot go on has delivered every producer's items once and in order, and the consumers' lists share them out with batch numbers that never decrease |
| FirstPassRuns.SoleConsumer | queue/thread_safe_batch_queue.hpp:172-197 | a consumer that has the queue to itself receives the deliveries in the order they are made |
| SecondPass.WhereItIs | queue/thread_safe_batch_queue.hpp:199-222 | an untaken item that has been pushed is in its slot of the current batch; one that has not is still to come from an active producer, which is not blocked when the item is of the current batch |
| SecondPass.GetReturnsIt | queue/thread_safe_batch_queue.hpp:199-240 | Get for an item that its producer pushes and nobody has read either waits on that producer's condition variable or returns that item |
| SecondPass.SafeRun | queue/thread_safe_batch_queue.hpp:199-256 | whatever is asked for, in every state of every run: the queue keeps its invariant, the consumers have got what has left the queue, each item once, with batch numbers that never decrease, and a sleeping consumer sleeps on the condition variable of the producer it asks |
| SecondPass.RunInv | queue/thread_safe_batch_queue.hpp:199-256 | when the requests name items that are pushed, none twice: in every state of every run each Get has returned exactly what it named, none has thrown, and every sleeper has a reason to wait |
| SecondPassRuns.DeadlockFree | queue/thread_safe_batch_queue.hpp:199-256 | for servable lists no state is stuck before every list is exhausted and every producer done |
| SecondPassRuns.ServedServable | queue/thread_safe_batch_queue.hpp:199-256 | lists that some run has served to the end are servable: they name pushed items, none twice, in batch order, and leave out no item of a batch that another follows |
| SecondPassRuns.ServableExactly | queue/thread_safe_batch_queue.hpp:199-256 | lists are servable if and only if every run that cannot go on has served them all, and if and only if any run ever does |
| SecondPassRuns.Finish | queue/thread_safe_batch_queue.hpp:199-256 | every run of a later pass, whatever is asked for, can be continued to one that cannot go on |
| SecondPassRuns.RunTerminates | queue/thread_safe_batch_queue.hpp:199-256 | a later pass, whatever is asked for, is no longer than the measure of its start and two more steps for each spurious wakeup |
| SecondPassRuns.SecondPassReplays | queue/thread_safe_batch_queue.hpp:172-240 | each consumer that asks by name for what it popped in a complete first pass gets exactly that, in every interleaving; nothing throws and nothing is stuck |
| SecondPassRuns.GetAnswers | queue/thread_safe_batch_queue.hpp:199-240 | for any request in any state of any run, whatever was asked for before: a new call throws at once exactly when all producers are deleted and all slots free; else it throws exactly when the producer is deleted and the slot free, and a returned item is the named one exactly when the request is for the current batch; each exception with its message |
| SecondPassRuns.SlotMate | queue/thread_safe_batch_queue.hpp:217-228 | a concrete queue on which a deleted producer's slot answers a request for id 2 with item 0 |
| SecondPassRuns.GetCanSleepForever | queue/thread_safe_batch_queue.hpp:242-256 | the failing case of ServableExactly as a concrete run: a request for a chunk that never comes sleeps after everyone else is done |
| Drain.FreeAllKeeps | queue/thread_safe_batch_queue.hpp:262-285 | a locked stretch of the drain frees items that were never delivered or freed before, keeps the invariant and leaves none |
| Drain.DeadlockFree | queue/thread_safe_batch_queue.hpp:258-287 | draining beside running producers is never stuck before it is over |
| Drain.RunTerminates | queue/thread_safe_batch_queue.hpp:258-287 | a drain is no longer than the measure of its start and two more steps for each spurious wakeup |
| Drain.DrainCompletes | queue/thread_safe_batch_queue.hpp:258-287 | a finished drain leaves no item and no producer, and what was delivered before and what was freed share out what was pushed, each once |
| Drain.DrainAfterFirstPass | queue/multi_pass_queue.cpp:312-327 | the same for a drain begun in any state of any run of the first pass |
| Drain.DrainAfterSecondPass | queue/multi_pass_queue.cpp:312-327 | the same for a drain begun in any state of any run of a later pass, abandoned or partial, whatever was asked for |
| SimpleQueue.ThreadSafeSimpleQueue.constructor | queue/thread_safe_simple_queue.hpp:43-50 | an empty queue with the given capacity and producer count |
| SimpleQueue.ThreadSafeSimpleQueue.Push | queue/thread_safe_simple_queue.hpp:55-65 | the critical section of Push |
| SimpleQueue.ThreadSafeSimpleQueue.Pop | queue/thread_safe_simple_queue.hpp:71-88 | the critical section of Pop |
| SimpleQueue.ThreadSafeSimpleQueue.DeleteProducer | queue/thread_safe_simple_queue.hpp:101-109 | the critical section of DeleteProducer |
| SimpleQueue.RunInv | queue/thread_safe_simple_queue.hpp:55-109 | the invariant holds in every state of every run, with barging and spurious wakeups |
| SimpleQueue.NoLostWakeup | queue/thread_safe_simple_queue.hpp:55-109 | in every state of every run: size within capacity, delivered plus queued is pushed, consumers asleep sleep on the empty condition, and then size is at most notified consumers and producers are left, producers asleep sleep on the full condition, and then free room is at most notified producers |
| SimpleQueue.DeadlockFree | queue/thread_safe_simple_queue.hpp:55-109 | a state in which no thread can move on its own is one in which all are done |
| SimpleQueue.PopThrowsAtTheEnd | queue/thread_safe_simple_queue.hpp:79-82 | Pop throws, with its message, only after all producers left and all their items were delivered, in order |
| SimpleQueue.MoveDecreases | queue/thread_safe_simple_queue.hpp:55-109 | every step that is not a spurious wakeup lowers a non-negative measure |
| SimpleQueue.RunTerminates | queue/thread_safe_simple_queue.hpp:55-109 | a run is no longer than the measure of its start and two more steps for each spurious wakeup |
| SimpleQueue.Completes | queue/thread_safe_simple_queue.hpp:55-109 | a run that cannot go on has delivered every producer's items once and in order |
| Routing.WorkerPartitions | utils.cpp:61-77 | the loop yields every numWorkers-th partition from the worker's id on, unless its signed 32-bit counter would have to leave its range; a count that is not positive is an error |
| Routing.CounterFits | utils.cpp:72-75 | the counter stays in range whenever partitions and workers together do not exceed 2 to the 31st |
| Routing.ConsumerPartitions | utils.cpp:43-59 | the loop picks every nConsumers-th entry of the worker's list; a count that is not positive is an error |
| Routing.CreateConsumerQueues | queue/multi_pass_queue.cpp:55-74 | one list for each consumer, and a table with each listed partition's consumer and -1 elsewhere |
| Routing.Route | utils.cpp:43-77 | partition p is dealt to worker p mod W and there to consumer (p div W) mod C, and to nobody else |
| Routing.ConsumerTable | queue/multi_pass_queue.cpp:58-74 | the consumer table names (p div W) mod C for the worker's own partitions and -1 for the others |
| Routing.PickIncreasing | utils.cpp:43-77 | each consumer's list is strictly increasing |
| Routing.Balanced | utils.cpp:61-77 | any two shares of one deal differ in size by at most one |
| Records.ComputeRowSize | hdat/common.hpp:199-224 | the loop computes the row size |
| Records.RowTotals | hdat/common.hpp:199-224 | the row size is exactly what the row takes up in the two regions together |
| Records.RowOffsets | hdat/chunk_writer.cpp:171-185 | row r's fixed part starts at r times the fixed row size |
| SuperChunks.SuperChunk.WriteAt | hdat/super_chunk.hpp:78-95 | copies the bytes to the position and counts them; an empty write changes nothing |
| SuperChunks.SuperChunk.Write | hdat/super_chunk.hpp:97-104 | writes at the offset and moves it on |
| SuperChunks.SuperChunk.Pad | hdat/super_chunk.hpp:106-118 | moves the offset on and counts the bytes, leaving them unwritten |
| SuperChunks.SuperChunk.PadFilled | hdat/super_chunk.hpp:106-118 | fills, moves the offset on and counts the bytes |
| SuperChunks.SuperChunk.WriteTyped | hdat/super_chunk.hpp:130-146 | a typed store at the offset, which moves on |
| SuperChunks.SuperChunk.ReadBytes | hdat/super_chunk.hpp:149-163 | the bytes at the offset, which moves on |
| SuperChunks.SuperChunk.ReadAligned8 | hdat/super_chunk.hpp:165-179 | succeeds exactly when the padded length fits, and only then moves the offset on |
| ChunkImage.PutFieldStores | hdat/chunk_writer.cpp:204-318 | writing one value stores it where the layout says, advances the two ends by exactly its size and touches nothing outside the gap between them |
| ChunkImage.PutFieldHolds | hdat/chunk_writer.cpp:204-318 | writing one more value keeps all earlier ones, fixed and variable |
| ChunkWriter.SuperChunkWriter.Reset | hdat/chunk_writer.cpp:27-41 | the writer is in order again on a chunk as NewChunk makes it; the chunk's own counters are not cleared |
| ChunkWriter.SuperChunkWriter.HasEnoughSpace | hdat/chunk_writer.cpp:43-53 | true exactly when the requested size fits between the two regions |
| ChunkWriter.SuperChunkWriter.WriteFixed | hdat/chunk_writer.cpp:55-66 | the value and spaces up to its padded size |
| ChunkWriter.SuperChunkWriter.WriteVariable | hdat/chunk_writer.cpp:91-107 | the value at the lower end of the variable region, its distance from the end and its length in the fixed region |
| ChunkWriter.SuperChunkWriter.WriteRowEnd | hdat/chunk_writer.cpp:171-185 | one row more; the fixed row size is taken from the first row |
| ChunkWriter.SuperChunkWriter.WriteColumn | hdat/chunk_writer.cpp:204-318 | one pass of the switch writes the value, or the null of its type |
| ChunkWriter.SuperChunkWriter.WriteRow | hdat/chunk_writer.cpp:187-324 | a row is taken exactly when its row size fits the room left, using up exactly that much; a row that does not fit is refused, or is an error in an empty chunk, and leaves the chunk as it was |
| ChunkReader.IsNullBuffer | utils.cpp:79-97 | true exactly for all spaces or all zero bytes |
| ChunkReader.SuperChunkReader.CanRead | hdat/chunk_reader.hpp:54-60 | a range whose end is a 64-bit number passes exactly when it ends in the buffer; of a range that wraps only the wrapped end is looked at |
| ChunkReader.SuperChunkReader.ReadInt64 | hdat/chunk_reader.cpp:39-53 | succeeds exactly when eight bytes are left, reads them as a little-endian two's complement number, and calls it null exactly when it is -2 to the 63rd |
| ChunkReader.SuperChunkReader.ReadInt32 | hdat/chunk_reader.cpp:55-70 | succeeds exactly when eight bytes are left, reads the first four as a little-endian two's complement number, counts four bytes as consumed, and calls it null exactly when it is -2 to the 31st |
| ChunkReader.SuperChunkReader.ReadFloat | hdat/chunk_reader.cpp:23-37 | succeeds exactly when eight bytes are left and calls them null exactly when their exponent is all ones and their fraction is not zero |
| ChunkReader.SuperChunkReader.ReadVariable | hdat/chunk_reader.cpp:72-106 | where the value is found and when that fails; length zero reads as null |
| ChunkReader.SuperChunkReader.ReadFixed | hdat/chunk_reader.cpp:108-122 | the value without its padding; size zero, spaces and zero bytes read as null |
| ChunkReader.FieldReads | hdat/chunk_reader.cpp:23-122 | every value stored in a chunk reads back as the normalised value that was written |
| StoredValues.Int32ReadsBack | hdat/chunk_reader.cpp:55-70 | a stored Int32 or Date lies in its place in little-endian two's complement and reads back as itself, but -2 to the 31st reads as null |
| StoredValues.Int64ReadsBack | hdat/chunk_reader.cpp:39-53 | the same for Int64, DateTime and the microseconds of a Time, with -2 to the 63rd |
| StoredValues.DoubleReadsBack | hdat/chunk_reader.cpp:23-37 | a stored double reads back byte for byte, but a not-a-number reads as null |
| StoredValues.FixedReadsBack | hdat/chunk_writer.cpp:55-66 | a stored Fixed value is followed by bytes 32 and reads back with them, but all bytes 32, or all bytes 0 without a fill, read as null |
| StoredValues.VariableReadsBack | hdat/chunk_writer.cpp:91-107 | a stored Variable value has its distance to the end and its length as little-endian numbers in its fixed part, lies where they say and reads back as it is, but an empty one reads as null |
| StoredValues.NullReadsBack | hdat/chunk_writer.cpp:109-138 | a null is stored as the smallest number, as the bytes 0 0 0 0 0 254 255 255, as bytes 0 or as length 0, by type, and reads back as null |
| ChunkReader.DistanceZero | hdat/chunk_reader.cpp:84-88 | the debug assertion on the distance fails exactly when every Variable value so far was empty |
| ChunkReader.EmptyFirst | hdat/chunk_reader.cpp:84-88 | a concrete chunk, one empty value, on which the debug assertion fails |
| Chunking.S2Connection.NextChunk | s2_connection.cpp:831-854 | fills a new chunk with the longest run of rows that fits and leaves the cursor behind it; throws exactly when not even the first row fits or a column is unsupported |
| Chunking.S2Connection.GetSingleRow | s2_connection.cpp:939-952 | the chunk made for one row is filled to the last byte and holds that row |
| ChunkSplit.TakeIsLongest | s2_connection.cpp:839-853 | the number of rows taken is the longest prefix that fits |
| ChunkSplit.GreedyTight | result_table_reader.cpp:163-192 | no chunk is empty, every chunk fits, and none could take its next row |
| ChunkSplit.GreedyEnding | result_table_reader.cpp:163-207 | how the loop ended says which rows are missing and why: it looks first whether to stop, then for rows, memory, room for the next row, and supported columns |
| ChunkSplit.FinishesExactlyWhen | result_table_reader.cpp:163-207 | undisturbed, the loop delivers all rows exactly when every row fits a chunk and the columns are supported |
| ChunkSplit.FewestChunks | result_table_reader.cpp:163-192 | no in-order cut of the rows into chunks that fit has fewer chunks |
| ChunkSplit.FinishedFits | result_table_reader.cpp:163-192 | the loop's own cut is one of those cuts |
| ChunkSplit.GroupsConcat | result_table_reader.cpp:163-192 | the chunks' rows one after the other are the rows delivered |
| PartitionReader.ResultTableReader.Read | result_table_reader.cpp:141-211 | chunks numbered 0, 1, 2, ... holding exactly those groups of rows are pushed, the error is set according to how the loop ended, and the producer signs off once, whatever happened |
| PartitionReader.ErrorByCause | result_table_reader.cpp:163-207 | which error the loop leaves, by what the round after the last chunk meets: none when it is to stop or no row is left, else the allocation's, else the one that names chunk size and row size when the next row does not fit, else the one for an unsupported column |
| TimeText.ParseLayout | hdat/common.hpp:95-108 | what a parser of hours:minutes:seconds.micros makes of every layout, signs in odd places included |
| TimeText.TimeRoundTrip | hdat/common.hpp:88-108 | a valid time comes back from its text, negative zero normalised, exactly when its seconds are below 2 to the 31st |
| TimeText.TooLong | hdat/common.hpp:95-108 | 596524 hours: hours and minutes are printed negative, and the text is not a time |
| TimeText.NumberRoundTrip | hdat/common.hpp:95-108 | the same for any number of microseconds found in a chunk |
| Tsv.QuotedBack | tsv_table_writer.cpp:92-122 | quoted text is read back whatever characters it holds |
| Tsv.TsvRoundTrip | tsv_table_writer.cpp:25-176 | the text of a table is read back as that table exactly when its TIME values are below 2 to the 31st seconds |
| TsvWriter.TsvTableWriter.ReadValue | tsv_table_writer.cpp:48-171 | from a stored field the switch always gets the normalised value that was written and moves to the next field |
| TsvWriter.TsvTableWriter.ChunkToTSV | tsv_table_writer.cpp:25-176 | every read of a chunk as written succeeds and the text of its normalised rows is appended |
| TsvWriter.RowsReadBack | hdat/chunk_reader.cpp:23-122 | in a chunk holding these rows, value (r, c) starts r row lengths and c columns in and reads back normalised |
| TsvWriter.PrintedRowsReadBack | tsv_table_writer.cpp:25-176 | from the rows' normalised values to text and back, exactly when the rows' times are printable |
| ChunkText.PrintNextChunk | tsv_table_writer.cpp:25-176 | from a cursor's rows through a new chunk to text: reading the text gives the normalised values of the rows the cursor moved over, exactly when their times are printable |
| Identifiers.JoinColumnNames | utils.cpp:454-481 | the loop spells the quoted names with commas between them |
| Identifiers.BuildSortKey | utils.cpp:483-505 | the order columns, and the key column behind them unless it is one of them |
| Identifiers.NamesBack | utils.cpp:431-481 | any non-empty list of names is read back from its spelling, backticks and commas included |
| Identifiers.SortKeyBack | utils.cpp:483-505 | the sort key reads as the order columns and the key exactly when the key is not among them |
| ReadPlan.CheckExplainOperations | s2_connection.cpp:770-824 | true exactly when every row below the first one that begins with ResultTable is led by one of the three words ColumnStoreScan, OrderedColumnStoreScan and ColumnStoreFilter |
| ReadPlan.GetParallelReadType | s2_connection.cpp:629-729 | an unknown read type becomes the original table exactly when there is a source table, the plan is simple, reading partition by partition keeps the groups asked for wherever the table may put its rows, and the order columns begin the sort key, which, where no column is listed twice, means exactly that the sort key's order is one in the order asked for; otherwise materialised or not decides |
| ReadPlan.MakeReadOriginalTableQuery | utils.cpp:630-654 | a reader that takes the text apart from its end finds the inner query, the partition given, and the order columns: the full sort key when one is passed and not empty, else those asked for |
| QueryText.QueryBack | utils.cpp:630-654 | with and without an order, inner query, partition and column names are recovered from the text, whatever they hold |
| ReadPlan.GroupsKeptExactly | s2_connection.cpp:660-691 | rows alike on the partition-by columns share a partition under every placement the table allows exactly when no such columns are given, or the shard key is not empty and lies within them |
| ReadPlan.OrderKeptExactly | s2_connection.cpp:692-716 | rows sorted by the sort key are always sorted by the order columns exactly when the order columns, each counted once, begin the sort key's |
| ReadPlan.PrefixKeepsOrder | s2_connection.cpp:692-716 | the comparison in the code accepts only order columns whose order is kept, and all such where no column is listed twice |
| ReadPlan.RepeatedColumn | s2_connection.cpp:698-716 | a concrete pair of lists with a column listed twice: the order is kept, and the comparison still refuses it |
| ReadPlan.FastPathKeepsOrder | s2_connection.cpp:692-716 | rows in the order that the query's own text names, for the multi-pass or the streaming queue, are in the order asked for whenever the original table was chosen |
| ExplainScan.NameLastBacktick | utils.cpp:356-364 | the inner loop stops at the closing backtick, stepping over doubled ones |
| ExplainScan.SplitFields | utils.cpp:343-379 | the scan ends with one entry for each column, each where the column lies |
| ExplainScan.ReadField | utils.cpp:239-325 | name, type and size of one column: by the first of the words the type begins with, in any case, and for BINARY and CHAR by the number in the brackets |
| ExplainScan.ExplainToRowSchema | utils.cpp:339-380 | for every list of columns a plan can show, the schema has one column for each with its escaped name and the type and size its type's words stand for; the last column's character set is looked for up to the next comma |
| ColumnTypes.ReadMeans | utils.cpp:239-325 | bigint, int, double, datetime, date without time, time, and the ten text and blob words each have their type and size, BINARY(n) is Fixed of n and CHAR(n) Fixed of four or three times n, and anything else is unsupported |
| Explain.ReadAsDefined | utils.cpp:300-308 | every column is read as it is defined exactly unless the last one is a CHAR of narrow characters and the wide character set is named between the end of the list and the next comma |
| Explain.MisreadPlan | utils.cpp:300-308 | a concrete plan in order on which a CHAR(1) of narrow characters is read as four bytes |
| ChunkQueues.ChunkQueue.Get | queue/chunk_queue.hpp:61-90 | a chunk comes without an error; without one, the error is the heading and then the message of every reader that failed, in order, and nothing else, and becomes the queue's own; it is clear if none failed |
| ChunkQueues.CleanEndMeansAll | queue/chunk_queue.hpp:61-90 | for complete runs of a worker's queues whose readers were not stopped, no chunk and no error at the end means exactly that every row of every partition has arrived |
| Delivery.BatchQueueDelivers | queue/multi_pass_queue.cpp:58-74 | a complete first pass of a consumer's queue delivers exactly its partitions' chunks, each partition's in order |
| Delivery.StreamQueueDelivers | queue/streaming_queue.cpp:53-74 | the same for the streaming queue |
| Delivery.ChunksHoldTable | result_table_reader.cpp:163-210 | a partition's chunks are not empty, are numbered from 0 and hold its rows as far as its producer got |
| Delivery.PartitionArrivesOnce | queue/multi_pass_queue.cpp:58-129 | for complete runs of all queues of all workers, in any interleaving, a partition arrives at one consumer and nowhere else, its chunks in id order, holding the rows its producer got to |
| Delivery.NothingIsLost | result_table_reader.cpp:163-210 | for such runs without stop requests and failing allocations, every row of every partition arrives once and in its place exactly when every row fits a chunk and every column is supported |

## Left out

- Connections, statements, fetching, credentials and TLS: calls into the database client; a connection is a cursor over a sequence of rows, and fetch errors are not modelled.
- Mutexes and condition variables as such: each stretch between taking and releasing the mutex is one step, so waiting is a return value of the class's methods and threads are states of the step systems.
- Memory: a failing allocation ends the reading loop, but leaks, freeing and the order of destructors are not modelled; the drain yields what it frees.
- ChunkReader.SuperChunkReader.ReadVariable: the debug assertion on the distance is absent, as in the default build; ChunkReader.DistanceZero says exactly when it would fail.
- TsvWriter.TsvTableWriter.ChunkToTSV: a chunk as written never fails to be read, so the failing exits are there but never taken; a zero-column schema is printed but has no reader.
- TimeText.FromTimeCAS: the smallest 64-bit number has no absolute value in the code; it is the null of a TIME column and is never printed.
- ExplainScan.ExplainToRowSchema: only texts that print some list of columns; the size of an unsupported column, which the code leaves unset, is 0 here.
- ReadPlan.GetParallelReadType: the table's keys and the rows of the plan are parameters instead of queries, so the exceptions of those queries are not modelled.
- ChunkQueue::StopReaders and the notification of unfinished statements: setting flags in a loop; its effect is the stop request of the reading loop.
- The destructor of the streaming queue: its loop is a consumer that calls Pop until it throws, which SimpleQueue.Completes covers.
- GetMultipleRows: the same loop as NextChunk over another query.
- Avro output, the JSON schema text and the infile callbacks: thin wrappers or copying.
- The DATE and DATETIME calendar and the formatting of DOUBLE: C library calls.
- The other query builders, version comparison and error texts: concatenation and single branches.
- The column-by-column external write interface: it has no row to keep whole.
