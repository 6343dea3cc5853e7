# XEdge: a verified model of the gateway's core

XEdge is an industrial edge gateway. It polls Modbus devices, flags alarms, filters and buffers telemetry, forwards
it northbound with a disk-backed backlog, and takes its configuration from a file or from a fleet manager. This
project models the parts of it that carry state, protocol or arithmetic, in Dafny, and proves what they promise.

`dafny verify dfyconfig.toml` checks everything.

| part | modules |
|---|---|
| Modbus framing | `RtuCodec`, `RtuErrorDetection`, `RtuTwoBitErrors`, `ModbusCodec`, `ModbusDatatypes`, `ModbusWire` |
| Reading | `ReadPlanner`, `ReadPlanLaws`, `ReadPlanOptimal`, `ReadPlanOrder`, `Polling`, `PollingCounters`, `PollingLaws`, `PollTiming`, `Connectivity` |
| Writing and scheduling | `WriteBack`, `RequestScheduler` |
| Store and forward | `StreamStore`, `StoreForward`, `StoreForwardLaws`, `StoreForwardRuns`, `StoreForwardPhases`, `RingBuffers`, `Replay`, `AssetFilter` |
| Fleet configuration | `FleetProtocol`, `Fleet`, `FleetFiles`, `DeviceRegistry` |
| Hot reload | `DriverConfig`, `HotReload`, `Reconcile`, `ReconcileLaws` |
| Pipeline and alarms | `TagPipeline`, `Alarms`, `PublishedStream` |
| Audit log | `AuditLog` |

Objects that the program updates in place are classes; their methods are proved against functions of values, and the
promises are proved about those functions. Concurrent parts (the request scheduler, store and forward, fleet delivery)
are state machines whose steps interleave wherever the program awaits; their promises are invariants of every run.
Numbers that the program holds as floats are reals. Where a claim in the program's documentation turned out not to
hold, the model follows the code, and the exact condition under which the claim holds is proved next to an input that
breaks it:

- The planner does not always produce the fewest requests: a tag wider than the limit can cut a block in two
  (`WideTagCounterexample`). It does exactly when no such cut costs a block (`OptimalIff`).
- An encoded RTU frame with an empty PDU does not decode back; it is refused as too short
  (`RtuErrorDetection.DecodeAfterEncode`).
- A row purged from the cold store while it is being replayed is both purged and published
  (`PurgedWhilePublished`). Rows are in exactly one place if and only if no batch is delivered after such a purge
  (`ExactlyOneIff`).
- An id listed once enabled and once disabled makes the hot-reload tracking map disagree with the supervisor
  (`TwiceListedDisagrees`, `TwiceListedIff`).
- Refusing a colliding change can leave the refused instance on an address that another instance is then started on
  (`RefusalCanCollide`). A bus stays free of collisions if and only if no reload does that (`CollisionIff`,
  `SeparateIff`).
- The audit chain does not notice that entries were cut off its end (`TruncationUndetected`). Of everything that can be
  made of a log's own entries, exactly its prefixes go unnoticed (`RearrangedIff`).
- A caller can hang past the scheduler's stop: exactly the futures of requests in flight, or abandoned in flight
  earlier, stay pending (`Scheduler.Stop`), and then for good (`StopStrandsCaller`, `Drive`).

## Model

| member | source | states |
|---|---|---|
| RtuCodec.Update | xedge/drivers/modbus/rtu_codec.py:31-41 | The nested byte and bit loop, from any register, equals feeding the byte's bits one at a time into the polynomial register. |
| RtuCodec.ComputeCrc16 | xedge/drivers/modbus/rtu_codec.py:31-41 | The loop's CRC is the value of the bit-serial register, started at all ones, over the data in transmission order; `CrcIsRemainder` says what that is. |
| RtuErrorDetection.RegisterIsRemainder | xedge/drivers/modbus/rtu_codec.py:31-41 | The register is the remainder of long division by x^16+x^15+x^2+1. |
| RtuErrorDetection.CrcIsRemainder | xedge/drivers/modbus/rtu_codec.py:22-41 | The CRC of any data is the remainder, by x^16+x^15+x^2+1, of its bits followed by 16 zeros, the first 16 bits inverted. |
| RtuErrorDetection.LeadingZeroMatters | xedge/drivers/modbus/rtu_codec.py:22-41 | A zero byte more or less in front of any data changes its CRC. |
| RtuErrorDetection.AcceptedIff | xedge/drivers/modbus/rtu_codec.py:53-64 | A frame is accepted if and only if it is long enough and the CRC over the whole frame, trailer included, is zero. |
| RtuErrorDetection.ZeroFrameRejected | xedge/drivers/modbus/rtu_codec.py:53-64 | No frame of zero bytes, of any length, is accepted. |
| RtuErrorDetection.DecodeAfterEncode | xedge/drivers/modbus/rtu_codec.py:44-64 | Every encoded frame decodes to its address and PDU, except that an empty PDU is refused as too short. |
| RtuErrorDetection.EncodeAfterDecode | xedge/drivers/modbus/rtu_codec.py:44-64 | Every accepted frame is the encoding of what it decodes to. |
| RtuErrorDetection.BurstRejected | xedge/drivers/modbus/rtu_codec.py:53-64 | Any change of an accepted frame, of any length, confined to 16 consecutive bits is rejected. |
| RtuErrorDetection.TwoAdjacentBytesRejected | xedge/drivers/modbus/rtu_codec.py:53-64 | Any change confined to two adjacent bytes, CRC bytes included, is rejected. |
| RtuErrorDetection.OddFlipsRejected | xedge/drivers/modbus/rtu_codec.py:53-64 | Any odd number of bit flips anywhere is rejected. |
| RtuTwoBitErrors.TwoFlipsRejectedIff | xedge/drivers/modbus/rtu_codec.py:53-64 | An accepted frame with two bits flipped is rejected if and only if their distance is no multiple of 32767, so every double error of a legal frame is. |
| RtuTwoBitErrors.PeriodIff | xedge/drivers/modbus/rtu_codec.py:31-41 | Modulo the generator a power of x is 1 exactly when its exponent is a multiple of 32767. |
| ModbusDatatypes.DecodeAfterEncode | xedge/drivers/modbus/datatypes.py:79-135 | For all integer types and all four orders, a value is encoded if and only if it is in range, and then decodes back. |
| ModbusDatatypes.EncodeAfterDecode | xedge/drivers/modbus/datatypes.py:79-135 | Every register list of the right length decodes to a value that encodes to it again. |
| ModbusDatatypes.FourLayouts | xedge/drivers/modbus/datatypes.py:9-18 | The two order flags give exactly the four documented byte layouts of a 32-bit value. |
| ModbusDatatypes.NumericValue | xedge/drivers/modbus/datatypes.py:37-46 | The value of every data type from its big-endian registers: digits to the base 65536, two's complement for the signed types, the bytes in order for the floating-point ones. |
| ModbusDatatypes.OrdersMean | xedge/drivers/modbus/datatypes.py:79-108 | Little word order is the registers reversed and little byte order is each register's bytes swapped, for every data type. |
| ModbusCodec.PackCoils | xedge/drivers/modbus/codec.py:227-247 | Every coil is at its bit and every unused bit is zero, for any list. |
| ModbusCodec.EncodeWriteMultipleCoils | xedge/drivers/modbus/codec.py:227-247 | The FC15 request carries coils that decode back to the list, unused bits zero; it is refused exactly for an address out of range or an empty or too long list. |
| ModbusCodec.DecodePacked | xedge/drivers/modbus/codec.py:161-167 | Coils packed for FC15 decode through the FC01 layout to the same list. |
| ModbusCodec.RegistersResponse | xedge/drivers/modbus/codec.py:170-176 | A well-formed register answer decodes to the registers it carries. |
| ModbusCodec.ExceptionIff | xedge/drivers/modbus/codec.py:155-158 | A response is an exception exactly if the top bit of its function code is set, and is then reported with that code and the exception code. |
| ModbusCodec.MbapRoundTrip | xedge/drivers/modbus/codec.py:97-124 | An encoded MBAP frame decodes to its transaction, unit and PDU. |
| ModbusCodec.MbapLayout | xedge/drivers/modbus/codec.py:97-102 | The header carries the transaction, protocol zero, the number of bytes after the length field, and the unit, all big-endian. |
| ModbusCodec.DecodeExact | xedge/drivers/modbus/codec.py:105-124 | A frame with nothing after it that decodes is the encoding of what it decodes to. |
| ModbusCodec.CutThenDecode | xedge/drivers/modbus/codec.py:105-136 | Every frame cut by its header's length that decodes is the encoding of what it decodes to. |
| ModbusCodec.ReadAllFrames | xedge/drivers/modbus/codec.py:97-136 | Any concatenation of frames followed by any bytes, read header then remainder, yields exactly those frames, and reading goes on at the first byte after them. |
| ModbusCodec.ReadExactlyFrames | xedge/drivers/modbus/codec.py:97-136 | With nothing or an incomplete frame after them, exactly that is left over. |
| ModbusCodec.StreamReader.ReadFrame | xedge/drivers/modbus/tcp.py:197-201 | Reading from the stream takes exactly the bytes of one cut frame, or fails when the stream ends first. |
| ModbusWire.ReadRequestCarries | xedge/drivers/modbus/codec.py:139-152 | A read request is refused exactly for a range outside the address space or the protocol's limit; otherwise a device parses from its bytes, all big-endian, the function, address and quantity meant. |
| ModbusWire.ReadOverWire | xedge/drivers/modbus/tcp.py:188-195 | From any response of a device that follows the protocol the driver receives exactly its cells, or its exception. |
| ModbusWire.UpdatesOverWire | xedge/drivers/modbus/polling.py:634-666 | Slicing and decoding what came over the wire gives the block's updates. |
| ModbusWire.BitOfAnswer | xedge/drivers/modbus/polling.py:634-645 | A bit tag at offset o of a block carries bit o of the packed answer. |
| ModbusWire.WriteRequestCarries | xedge/drivers/modbus/codec.py:187-217 | A device that carries out the bytes of a write request, coil or registers, stores exactly what the request means. |
| ModbusWire.WriteRequestIff | xedge/drivers/modbus/codec.py:187-217 | A write request is refused before sending exactly for an address or register of more than 16 bits, or no or more than 123 registers. |
| ReadPlanner.Coalesce | xedge/drivers/modbus/planner.py:112-150 | The coalescing loop produces the greedy split of the sorted tags. |
| ReadPlanner.PlanOneFunctionCode | xedge/drivers/modbus/planner.py:112-166 | The blocks of one function code are those of the sorted, split tags, each with its extent and offsets. |
| ReadPlanner.GroupByFunction | xedge/drivers/modbus/planner.py:96-99 | The first loop collects each function code's tags in configuration order; spans are taken on the way, so it fails exactly on an unknown data type. |
| ReadPlanner.PlanReadBlocks | xedge/drivers/modbus/planner.py:74-109 | Planning succeeds if and only if every data type is known, and returns the blocks of the specified plan. |
| ReadPlanLaws.PlanIsValid | xedge/drivers/modbus/planner.py:74-150 | The plan partitions the tags into blocks of one function code, within the limit unless a lone tag is wider, without gaps over the tolerance. |
| ReadPlanLaws.AllowedIff | xedge/drivers/modbus/planner.py:102-105 | The planner's limit is the protocol's 2000 bits or 125 registers and the configured size, but never less than one. |
| ReadPlanOrder.PlanInOrder | xedge/drivers/modbus/planner.py:93-109 | Read in plan order, the tags come by function code, then by address. |
| ReadPlanLaws.PlanLeadersApart | xedge/drivers/modbus/planner.py:123-150 | No valid block can hold the first tags of two planned blocks. |
| ReadPlanLaws.LowerBound | xedge/drivers/modbus/planner.py:112-150 | Every valid partition needs a block per wide tag and as many as the plan of the narrow tags. |
| ReadPlanOptimal.StretchesOfGroups | xedge/drivers/modbus/planner.py:128-150 | In sorted order the loop spends one block on each tag wider than the limit, and on the others what the stretches between the wide ones need one by one. |
| ReadPlanOptimal.OptimalIff | xedge/drivers/modbus/planner.py:112-150 | The plan is smallest if and only if, for every function code, cutting the sorted fitting tags wherever a wider tag sorts among them costs no block. |
| ReadPlanOptimal.BetweenBlocksOptimal | xedge/drivers/modbus/planner.py:112-150 | It is smallest in particular when no wide tag sorts strictly inside a block of the plan without the wide tags. |
| ReadPlanLaws.NarrowOptimal | xedge/drivers/modbus/planner.py:112-150 | With every tag within the limit no valid partition has fewer blocks. |
| ReadPlanLaws.WideTagCounterexample | xedge/drivers/modbus/planner.py:136-150 | A four-register tag between two adjacent ones, under a limit of two, costs a third block. |
| ReadPlanLaws.BlockQuantity | xedge/drivers/modbus/planner.py:102-150 | A block of several tags asks for at most the effective limit, which is within the protocol ceiling; a block of one tag asks for exactly its span. |
| ReadPlanLaws.PlanRequestableIff | xedge/drivers/modbus/codec.py:139-152 | No request of the plan is refused by the encoder if and only if every tag lies in the 16-bit address space. |
| Connectivity.DownAfterSuccess | xedge/core/connectivity.py:112-122 | A success ends an outage exactly when it completes a recovery run. |
| Connectivity.DownAfterFailure | xedge/core/connectivity.py:124-138 | A failure starts an outage exactly when it completes a failure run, and never ends one. |
| Connectivity.TransitionTable | xedge/core/connectivity.py:49-69 | The documented transition table follows from the declarative meaning of histories. |
| Connectivity.TrackedMeaning | xedge/core/connectivity.py:112-144 | The tracker's fields after any history are its declarative meaning and its final streaks. |
| Connectivity.StateIsMeaning | xedge/core/connectivity.py:112-144 | NOT_CONNECTED if and only if some failure run is followed by no recovery run; otherwise the last result decides. |
| Connectivity.ConnectivityTracker.RecordSuccess | xedge/core/connectivity.py:112-122 | Extends the history by a success, keeps the fields in step with it, and moves the change time only on a change. |
| Connectivity.ConnectivityTracker.RecordFailure | xedge/core/connectivity.py:124-138 | Extends the history by a failure, keeps the fields in step with it, and records the reason. |
| Connectivity.MakeTracker | xedge/core/connectivity.py:71-86 | Construction succeeds if and only if both thresholds are at least one, and starts unknown. |
| Polling.SliceMeansAlone | xedge/drivers/modbus/polling.py:634-666 | A tag sliced out of a block has the value it has alone, and differs only if it is refused alone. |
| Polling.BitAlone | xedge/drivers/modbus/polling.py:634-645 | A coil or discrete input reads as whether the device's cell at the tag's own address is nonzero. |
| Polling.BitInBlock | xedge/drivers/modbus/polling.py:634-645 | So it does in a block, at whatever offset. |
| Polling.GoodIffRead | xedge/drivers/modbus/polling.py:667-691 | A tag is good exactly if the device reads it; otherwise it is zero, bad, and carries the exception code. |
| Polling.BlockMeansAloneIff | xedge/drivers/modbus/polling.py:496-622 | A block's updates are those of its tags read alone if and only if the device refuses the block or reads each tag alone. |
| Polling.CountersMatchUpdates | xedge/drivers/modbus/polling.py:496-566 | The counters agree with the updates: one read per good update, one error before retries per bad one. |
| PollingCounters.RetriesCounted | xedge/drivers/modbus/polling.py:496-606 | With retries, errors are one per bad update and the retry count for every refused transaction. |
| PollingCounters.TransactionsOf | xedge/drivers/modbus/polling.py:496-622 | The tracker sees the block's transaction and, if that is refused and the block holds several tags, one for each of them. |
| Polling.PollingDriver.ReadBlockWithRetries | xedge/drivers/modbus/polling.py:568-606 | Whatever the line does, the loop stops at the first attempt that is answered or not worth another (a lost message always is, a refusal when configured), or with the retries used up, and counts one error per retry. |
| Polling.PollingDriver.Ask | xedge/drivers/modbus/polling.py:568-606 | On a device whose answer stays the same, the answer is the device's and every retry of a refusal is counted in vain. |
| Polling.PollingDriver.ReadOneBlock | xedge/drivers/modbus/polling.py:496-566 | The updates, the connectivity history and the counters of a block, fallback included; the recursion ends. |
| Polling.PollingDriver.ReadBlockTagByTag | xedge/drivers/modbus/polling.py:608-622 | The fallback emits each tag once, as it reads alone. |
| Polling.PollingDriver.ReadAndPublish | xedge/drivers/modbus/polling.py:405-413 | A scan emits the updates of all blocks in plan order. |
| PollingLaws.BatchedMeansNaive | xedge/drivers/modbus/polling.py:496-666 | For any device that reads sub-ranges of what it reads, planning, slicing, decoding and fallback give every tag exactly once what reading it alone gives. |
| PollingLaws.BlockWellFormed | xedge/drivers/modbus/planner.py:153-166 | A planned block holds each of its tags at the recorded offset and span. |
| PollTiming.DueClosedForm | xedge/drivers/modbus/polling.py:454-494 | The k-th deadline is the latest of the schedules counted from each late cycle. |
| PollTiming.NeverEarly | xedge/drivers/modbus/polling.py:454-494 | The k-th deadline is at least t0 + k * interval. |
| PollTiming.OnScheduleIff | xedge/drivers/modbus/polling.py:454-494 | It is exactly that if and only if no earlier cycle finished after its share of the schedule. |
| PollTiming.PollContinuously | xedge/drivers/modbus/polling.py:454-494 | The loop starts every cycle exactly at its deadline plus the lateness of its sleep, for any durations. |
| WriteBack.WriteThenRead | xedge/drivers/modbus/polling.py:272-346 | Reading back a written tag returns the rounded raw value, whose scaled value is within half a scale step of the one written. |
| WriteBack.ScaledWithinHalf | xedge/core/pipeline.py:98-99 | Forward scaling of the rounded inverse is within half the scale's magnitude. |
| WriteBack.ScaleMeans | xedge/core/pipeline.py:98-99 | Scaling sends raw zero to the offset and a raw step to a scale step. |
| WriteBack.WriteOfRead | xedge/drivers/modbus/polling.py:127-140 | Writing the engineering value of a raw value is accepted exactly when the type holds the raw value, stores exactly its registers, and the tag then reads as that raw value. |
| WriteBack.WriteAcceptedIff | xedge/drivers/modbus/polling.py:287-334 | A write is accepted exactly for a writable tag that is a coil, or a holding register whose scaling is invertible and whose data type holds the rounded value. |
| WriteBack.CoilWriteThenRead | xedge/drivers/modbus/polling.py:307-314 | A coil reads back as whether the written value was nonzero. |
| WriteBack.RoundIff | xedge/drivers/modbus/polling.py:331 | Rounding gives the nearest integer, and of two equally near ones the even one. |
| WriteBack.WrittenRegisters | xedge/drivers/modbus/polling.py:322-346 | A successful write stores the encoding of the rounded raw value. |
| WriteBack.WriteElsewhere | xedge/drivers/modbus/polling.py:272-346 | A write, to a coil or to registers, leaves every tag it does not overlap as it was. |
| RequestScheduler.SubmitKeeps | xedge/drivers/modbus/scheduler.py:100-117 | Submitting keeps the trace invariant: numbers in order, nothing overtaken, at most one in flight. |
| RequestScheduler.TakeKeeps | xedge/drivers/modbus/scheduler.py:119-123 | Taking the least queued request keeps it. |
| RequestScheduler.LandKeeps | xedge/drivers/modbus/scheduler.py:124-131 | Finishing, failing or losing the consumer keeps it and empties the connection. |
| RequestScheduler.OneInFlight | xedge/drivers/modbus/scheduler.py:100-131 | Between two starts the first request finished or the consumer ended. |
| RequestScheduler.StartsOnce | xedge/drivers/modbus/scheduler.py:119-131 | No request starts twice. |
| RequestScheduler.NothingOvertakes | xedge/drivers/modbus/scheduler.py:100-123 | Only requests ahead in queue order start between a request's submission and its start; for a write, only earlier writes. |
| RequestScheduler.SamePriorityInOrder | xedge/drivers/modbus/scheduler.py:53-62 | Requests of one priority start in submission order. |
| RequestScheduler.Least | xedge/drivers/modbus/scheduler.py:119-121 | The request dequeued comes before every other one in queue order. |
| RequestScheduler.Drive | xedge/drivers/modbus/scheduler.py:79-131 | Over any run of calls an abandoned future never changes unless its caller cancels it, and once the consumer task has died nothing is started or dequeued until a stop, however often it is started again. |
| RequestScheduler.Scheduler.Submit | xedge/drivers/modbus/scheduler.py:100-117 | Queues the next number with a pending future and keeps the invariant. |
| RequestScheduler.Scheduler.Take | xedge/drivers/modbus/scheduler.py:119-123 | Removes the first request in queue order and starts it, unless it was cancelled. |
| RequestScheduler.Scheduler.Finish | xedge/drivers/modbus/scheduler.py:124-131 | Resolves the future unless it is already done, and frees the connection. |
| RequestScheduler.Scheduler.Stop | xedge/drivers/modbus/scheduler.py:85-98 | The queue is empty and every queued future that was pending has failed; a future is pending afterwards if and only if it was pending and its request was in flight, or abandoned in flight earlier. |
| RequestScheduler.StopStrandsCaller | xedge/drivers/modbus/scheduler.py:85-98 | Stopping with a request in flight leaves its caller waiting, whatever calls follow. |
| RingBuffers.AfterIsPush | xedge/store/ring_buffer.py:54-65 | The buffer object's push is the push of the stream model. |
| RingBuffers.DrainIsDrainAll | xedge/store/ring_buffer.py:116-121 | A gather in the stream model leaves in the buffer what `drain_all` leaves and makes live what it returns for the stream. |
| RingBuffers.GatheredAll | xedge/store/ring_buffer.py:116-121 | Without a limit `drain_all` returns everything, stream after stream. |
| RingBuffers.RingBuffer.Push | xedge/store/ring_buffer.py:54-65 | Stores, evicts the oldest, or refuses with backpressure; what was pushed is what was removed followed by the contents. |
| RingBuffers.RingBuffer.Drain | xedge/store/ring_buffer.py:67-70 | Takes the oldest samples in order, up to the limit. |
| RingBuffers.RingBufferManager.Push | xedge/store/ring_buffer.py:98-108 | Creates the stream's buffer on first use, changes only that buffer, and extends its history by exactly the accepted sample. |
| RingBuffers.RingBufferManager.DrainAll | xedge/store/ring_buffer.py:116-121 | Returns all streams in insertion order, each oldest first, and leaves the rest. |
| RingBuffers.RingBufferManager.PushUntilStored | xedge/core/main.py:245-262 | The endless retry loop, once the dispatcher gathers at all, inserts the sample exactly once: at once if there is room, else right after the first sleep with a gathering. |
| RingBuffers.RingBufferManager.PushWithRetry | xedge/core/main.py:245-262 | After any finite number of sleeps the sample is in exactly once if there was room or the dispatcher gathered in between, and otherwise not at all. |
| StreamStore.PushSound | xedge/store/ring_buffer.py:54-65 | A push keeps conservation, order, bounds and row fates of its stream. |
| StreamStore.RefusedIff | xedge/store/ring_buffer.py:54-65 | A push is refused exactly by a full alarm-tier buffer, and then changes nothing. |
| StreamStore.PushEffect | xedge/store/ring_buffer.py:54-65 | Any other push makes the sample the newest; a full buffer gives up its oldest, which becomes the newest cold row unless its tag is suppressed. |
| StreamStore.DrainSound | xedge/store/ring_buffer.py:116-121 | Draining keeps them, empties the buffer, and makes what it held live. |
| StreamStore.PurgeSound | xedge/store/sqlite_store.py:266-272 | Purging keeps them. |
| StreamStore.PurgeIff | xedge/store/sqlite_store.py:266-272 | Exactly the rows from before the cutoff are deleted. |
| StreamStore.PeekFlying | xedge/store/sqlite_store.py:231-243 | A peeked batch is the oldest rows, as many as the batch size allows, after everything published. |
| StreamStore.ConfirmSound | xedge/store/sqlite_store.py:245-253 | Deleting a published batch by id deletes exactly its rows and keeps row fates and publish order. |
| StoreForward.StepKeeps | xedge/northbound/dispatcher.py:82-163 | Every step of pipeline, purge loop, asset filter and dispatcher keeps the invariant. |
| StoreForward.EverySampleAccounted | xedge/northbound/dispatcher.py:99-163 | In every run, per stream: removed samples followed by the buffer are the pushed samples in order, each sample is in exactly one place, and alarm streams never evict. |
| StoreForwardLaws.PushedIsAccepted | xedge/core/main.py:245-262 | A stream's pushed history is exactly the accepted pushes in order; refused ones leave no trace. |
| StoreForwardLaws.RowsLeaveOnly | xedge/northbound/dispatcher.py:139-163 | A row leaves the cold store only when purged, or after a delivered publish that contained it. |
| StoreForwardLaws.SpillFollowsFilter | xedge/core/assets.py:169-175 | Only samples of suppressed tags are kept out of the cold store at eviction, and they always are. |
| StoreForwardRuns.ReconnectsFirst | xedge/northbound/dispatcher.py:82-163 | In every run, after a failed publish the dispatcher replays, publishes or waits connected again only once it has connected again, which begins with a replay. |
| StoreForwardRuns.GatherEmpties | xedge/northbound/dispatcher.py:99-106 | A gather empties every buffer into the live batch, which held nothing. |
| StoreForwardRuns.GatheredThenAnswered | xedge/northbound/dispatcher.py:99-118 | In every run, what a buffer held at a gather is added to the sent samples if the next answer says delivered and to the failed ones otherwise, with multiplicity. |
| StoreForwardPhases.ConnectedIff | xedge/northbound/dispatcher.py:82-118 | In every run, the dispatcher is connected exactly if it has connected and nothing has failed since. |
| StoreForwardPhases.ReplayCovers | xedge/northbound/dispatcher.py:120-163 | A replay without failures ends only after every stream that had rows or a cold table was looked at in its turn and found empty. |
| StoreForwardPhases.FailedReplayGathers | xedge/northbound/dispatcher.py:92-106 | After a failed replay the dispatcher gathers live data before it does anything else. |
| StoreForwardPhases.RaisedEndsDispatcher | xedge/northbound/dispatcher.py:110-118 | After an exception from a live publish it never does anything again. |
| StoreForwardPhases.PublishesSomething | xedge/northbound/dispatcher.py:106-108 | In every run, no empty live batch is published, and a gather that finds anything publishes it. |
| StoreForwardLaws.ReplayedInOrder | xedge/northbound/dispatcher.py:120-163 | In every run rows are published in row order, each at most once, and every spilled row is stored, purged or published. |
| StoreForwardRuns.ExactlyOneIff | xedge/store/sqlite_store.py:266-272 | Every spilled row is in exactly one of stored, purged and published if and only if no batch of the stream is delivered after a purge that came while it was in flight, with a cutoff past one of its rows. |
| StoreForwardLaws.IntactUntilHit | xedge/store/sqlite_store.py:266-272 | A batch in flight loses a row if and only if a purge of its stream has a cutoff past one of its rows. |
| StoreForwardLaws.PurgedWhilePublished | xedge/store/sqlite_store.py:280-309 | For every row there is a run that purges it while it is being published and then confirms it. |
| Replay.ReplayLoop.Replay | xedge/northbound/dispatcher.py:120-163 | Undisturbed replay ends with every stream empty or at the first publish not delivered, and then published rows followed by remaining ones are what was there. |
| Replay.ReplayLoop.ReplayStream | xedge/northbound/dispatcher.py:139-163 | The same for one stream, in full batches; other streams are untouched and the loop terminates. |
| Replay.BatchesFewest | xedge/northbound/dispatcher.py:139-163 | The number of publishes of a replayed stream is the fewest that batches of that size allow. |
| AssetFilter.ComputeSuppressedTagIds | xedge/core/assets.py:132-152 | A tag is suppressed if and only if some parameter declines to store it and none asks to. |
| FleetProtocol.QueueKeeps | xedge/fleet/registry.py:390-419 | Queueing keeps the delivery invariant: the new version follows the history. |
| FleetProtocol.RecordKeeps | xedge/fleet/registry.py:349-388 | Recording a late, repeated or current heartbeat keeps it, whatever happened in between. |
| FleetProtocol.TakeKeeps | xedge/fleet/registry.py:421-434 | Taking the pending config keeps it: the version is newer than all handed out before. |
| FleetProtocol.ReceiveKeeps | xedge/fleet/agent.py:291-304 | Handling a response, with a good or failing file write, keeps it: in particular a success is only reported of a config that is in the file. |
| Fleet.DeliveryLaws | xedge/fleet/agent.py:237-308 | In every run, for every device: versions are 1..n, verdicts are the validator's on the row's own config, versions are handed out and handled in increasing order at most once across crashes, the newest one waits exactly until it is handed out, and no report is dropped while the agent lives. |
| FleetFiles.FileFollows | xedge/fleet/agent.py:379-398 | In every run: the config file holds the config of the largest handled version that is valid, if its write worked, and rejected configs leave it alone; while a success waits to be reported, the file holds exactly that version's config. |
| FleetFiles.HeartbeatDelivers | xedge/fleet/agent.py:270-304 | An undisturbed heartbeat files the waiting report and delivers the pending config: a valid one is written and its success is then waiting to be reported. |
| FleetFiles.LostAnswerRetried | xedge/fleet/agent.py:268-308 | When an answer never comes, the report is sent again and the next undisturbed heartbeat files it; a config in that answer is lost. |
| FleetFiles.ReceiveOutcome | xedge/fleet/agent.py:284-308 | A delivered valid config is in the file and reported; after a failed write nothing is reported; an invalid one is only reported. |
| FleetFiles.MadeIsDue | xedge/fleet/agent.py:284-308 | In every run, the reports made since the last start are those due for the configs received since. |
| FleetFiles.HistoryIsPushed | xedge/fleet/registry.py:390-419 | In every run, a device's history is exactly what operators of its own tenant pushed to it, in order. |
| Fleet.TenantsFixed | xedge/fleet/registry.py:293-340 | No run moves a device to another tenant or forgets it. |
| DeviceRegistry.FindRow | xedge/fleet/registry.py:377-384 | Finds the one row of a version, none, or reports an ambiguity exactly when there are two. |
| DeviceRegistry.Registry.Register | xedge/fleet/registry.py:293-340 | Refused exactly for another tenant's device; otherwise the token opens the device, and no device's tenant, first date or delivery state, nor anything of another device, changes. |
| DeviceRegistry.Registry.Heartbeat | xedge/fleet/registry.py:349-388 | The report lands on the row of its own version and on no other, and the lookup never finds two. |
| DeviceRegistry.Registry.QueueConfig | xedge/fleet/registry.py:390-419 | Fails exactly for unknown or foreign devices; otherwise the new version is one past the history. |
| DeviceRegistry.Registry.TakePendingConfig | xedge/fleet/registry.py:421-434 | Returns the pending config once and clears it. |
| DriverConfig.FindDuplicateSerialSlaveIds | xedge/core/driver_config.py:71-100 | Exactly the slaves claimed by more than one enabled serial entry, with their claimants in order. |
| DriverConfig.ConflictingSerialInstanceIds | xedge/core/driver_config.py:103-110 | Exactly the instances among those claimants. |
| DriverConfig.ConflictIff | xedge/core/driver_config.py:71-110 | An instance conflicts if and only if one of its entries names the port and unit of another entry, both enabled and of serial types. |
| HotReload.Supervisor.Start | xedge/core/supervisor.py:156-169 | Refused exactly when the instance has a task; otherwise it runs the entry, and no other instance changes. |
| HotReload.Supervisor.Stop | xedge/core/supervisor.py:171-182 | Ends the task and marks the status only if there was one. |
| HotReload.Supervisor.Disable | xedge/core/supervisor.py:188-195 | Ends the task and marks the status disabled even if nothing ran. |
| Reconcile.ApplyDriverChanges | xedge/core/hot_reload.py:50-115 | What reconciliation does to every instance and tracks for it; it raises exactly when a start meets a running task. |
| ReconcileLaws.NeverRaises | xedge/core/hot_reload.py:110-112 | For distinct ids and an agreeing tracking map, "already running" cannot happen. |
| ReconcileLaws.AgreementRestored | xedge/core/hot_reload.py:50-115 | For distinct ids the returned map agrees with the supervisor again. |
| ReconcileLaws.ListedOutcome | xedge/core/hot_reload.py:50-115 | A disabled entry does not run; an enabled one runs if it was tracked already, or is valid and collides with no other; any other leaves its instance and its tracking as they were. |
| ReconcileLaws.ListedStatus | xedge/core/hot_reload.py:50-115 | The status of a listed instance: starting if started, disabled if newly so, otherwise as before. |
| ReconcileLaws.UnlistedGone | xedge/core/hot_reload.py:57-62 | An instance that is no longer listed does not run, is marked stopped if it ran, and is not tracked. |
| ReconcileLaws.AlwaysAgrees | xedge/core/hot_reload.py:50-115 | So it does along any sequence of configurations. |
| ReconcileLaws.UnchangedLeftAlone | xedge/core/hot_reload.py:69-77 | An instance whose entry is unchanged is never stopped, disabled or started. |
| ReconcileLaws.SecondApplicationIdle | xedge/core/hot_reload.py:50-115 | Applying the same list again calls nothing and tracks the same. |
| ReconcileLaws.StartedAlone | xedge/core/hot_reload.py:75-112 | Whatever is started is valid and collides with no other entry of the new list. |
| ReconcileLaws.TwiceListedIff | xedge/core/hot_reload.py:50-73 | For an id listed enabled and disabled, agreement survives if and only if the enabled entry was tracked, or it is refused and nothing ran. |
| ReconcileLaws.TwiceListedDisagrees | xedge/core/hot_reload.py:50-73 | A new id listed enabled then disabled is started yet tracked as disabled. |
| ReconcileLaws.CollisionIff | xedge/core/hot_reload.py:71-112 | Two instances run on one slave after a reload if and only if one was refused and the other is started onto the entry it keeps, or both stay and did so before. |
| ReconcileLaws.SeparateIff | xedge/core/hot_reload.py:71-112 | A reload keeps a bus free of collisions if and only if it starts no instance onto a slave that a refused one keeps. |
| ReconcileLaws.RefusalCanCollide | xedge/core/hot_reload.py:78-92 | A refused move leaves an instance on an address another one is started on. |
| TagPipeline.SuppressedIsClose | xedge/core/pipeline.py:139-162 | A suppressed sample has the last published quality and alarm flag, and a value equal to or within the deadband of its value. |
| TagPipeline.SameValueMeans | xedge/core/pipeline.py:150-151 | Values compare across types: numbers by value, a boolean as 0 or 1, texts and bytes only with their own kind. |
| TagPipeline.PublishIff | xedge/core/pipeline.py:139-162 | After a published sample another is published exactly if its quality or flag differs, its value is not close, or the limit is zero or less and suppresses no number. |
| TagPipeline.DeadbandFilter.Filter | xedge/core/pipeline.py:132-137 | The filter publishes exactly a first sample, a new quality or flag, or a value not within the deadband, and keeps, for every tag, the published story equal to the evaluated one. |
| Alarms.AlarmEngine.Evaluate | xedge/core/alarms.py:85-112 | A sample is flagged if and only if its rule's condition holds given the previous numeric sample, and it is not shelved. |
| Alarms.QuietIff | xedge/core/alarms.py:114-155 | A numeric sample meets no condition if and only if it is strictly inside every limit and changed no faster than allowed. |
| Alarms.WorstIff | xedge/core/alarms.py:114-155 | The condition reported is the worst of those the sample meets, thresholds before rate of change. |
| Alarms.AlarmEngine.CheckConditions | xedge/core/alarms.py:114-135 | The worst condition met, thresholds before rate of change. |
| Alarms.AlarmEngine.CheckRateOfChange | xedge/core/alarms.py:137-155 | The rate condition against the previous sample, which it replaces. |
| Alarms.AlarmEngine.Ack | xedge/core/alarms.py:157-166 | Succeeds if and only if the newest sample met a condition and no acknowledgement came since the tag was normal. |
| Alarms.AlarmEngine.ShelveTag | xedge/core/alarms.py:168-175 | Shelves until now plus the duration and keeps the engine in step with the event history. |
| Alarms.AlarmEngine.UnshelveTag | xedge/core/alarms.py:177-182 | Succeeds if and only if the last shelve event of the tag was a shelve. |
| Alarms.StateSnoc | xedge/core/alarms.py:98-108 | The declarative state over histories moves exactly as the three-state machine. |
| Alarms.AcksInvisible | xedge/core/alarms.py:110-112 | No acknowledgement ever changes a flag. |
| PublishedStream.StoryPreserved | xedge/core/pipeline.py:119-162 | For every stream and tag, the destuttered sequence of quality and alarm flag is the same before and after the filter. |
| PublishedStream.NewestFollowed | xedge/core/pipeline.py:139-162 | After every sample the last published value equals it or is within the absolute or percentage deadband. |
| PublishedStream.PublishedApart | xedge/core/pipeline.py:139-162 | Two successive published samples of a tag with one quality and flag are at least the deadband apart. |
| PublishedStream.AcksLeaveNoTrace | xedge/core/alarms.py:157-166 | Removing all acknowledgements from a run leaves the flagged stream the same. |
| PublishedStream.Run | xedge/core/main.py:298-316 | Engine and filter together publish exactly the specified stream, for any run of updates, acknowledgements, shelves and unshelves. |
| AuditLog.VerifyChain | xedge/observability/audit_log.py:106-130 | True if and only if every entry names the hash before it and carries the right hash. |
| AuditLog.Log.Append | xedge/observability/audit_log.py:56-73 | The chain verifies afterwards if and only if it did before, and so with the numbering. |
| AuditLog.Run | xedge/observability/audit_log.py:38-73 | After any run of appends and restarts the chain verifies, numbered from one, with the appended contents in order. |
| AuditLog.SameHeadSameLog | xedge/observability/audit_log.py:106-130 | Under a collision-free hash, two verifying logs of one length with the same last hash are identical. |
| AuditLog.LastHashDetermines | xedge/observability/audit_log.py:106-130 | If the hash also never yields the genesis digest, the last hash alone determines the log. |
| AuditLog.TruncationUndetected | xedge/observability/audit_log.py:106-109 | Every prefix of a verifying log verifies. |
| AuditLog.RearrangedIff | xedge/observability/audit_log.py:106-109 | Whatever is made of a verifying log's own entries, by leaving out, repeating or moving any, verifies if and only if it is a prefix of the log. |

## Left out

- IEEE arithmetic: floats are reals, so rounding, overflow, infinities and NaN are not captured; float register types are outside the register round trips.
- Transport failures of the Modbus connection: the retry loop meets lost messages, but a message lost for good, which restarts the driver instance, is not followed further; the block, fallback and counter results are for a device that answers or refuses.
- Timestamps, latency and batching metadata of updates, and the other fields of a sample: `normalize` is represented by its scaling only.
- Serial bus manager, RTU inter-frame delay, OPC UA, BACnet, EtherNet/IP and SNMP drivers, MQTT connectors: thin layers over foreign libraries.
- SQL isolation: each registry method is one atomic transaction; two concurrent transactions on one row are not interleaved inside.
- A pushed config is compared and validated as one value; YAML and JSON text, and a validator that raises anything but its own error, are not modelled.
- Certificates, join tokens and token checks of the fleet API: foreign cryptography.
- Several northbound dispatchers on one store, a dispatcher without a cold store, and a process crash that loses ring-buffer contents are not steps of the store-and-forward machine; a restart begins from any cold tables.
- StreamStore.PurgeSound: purging is a step of one stream; the loop that picks the cutoff per tier is not modelled.
- Replay.ReplayLoop.Replay: the order in which the cold store lists its streams (sorted) is a parameter.
- RingBuffers.RingBufferManager.PushUntilStored: that the dispatcher gathers at some point is a hypothesis; without it the loop retries forever.
- RequestScheduler.Scheduler.Stop: a coroutine that swallows its cancellation, so that stopping never returns, is not modelled.
- HotReload.Supervisor.Start: the supervised task's own restart and backoff loop is not modelled; a task is what start created and stop removed.
- Blank and half-written lines of the audit file, and the text form of entries: an entry is a value, and the hash a function of it.
- AuditLog.SameHeadSameLog: that SHA-256 is collision-free is a hypothesis.
- REST routes, web UI, CLI, logging, tracing, metrics export, user accounts and CSV import: plumbing.
