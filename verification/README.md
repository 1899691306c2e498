# Verified model of dmaplane

dmaplane moves bytes between buffers over RDMA: a kernel driver that owns buffers, rings and
queue pairs, and a pair of Python servers that stream a transformer's key/value cache from a
prefill machine to a decode machine.  This project models the parts of it where work in flight
is bounded and order matters, and proves what their code keeps over every run.  It verifies with
`dafny verify dfyconfig.toml` (Dafny 4.11).

| file | what it models |
|---|---|
| `Wire.dfy` | bytes, the 4-byte length prefix, the 32-bit immediate |
| `KvPacking.dfy` | consolidating cache layers into one byte range and viewing them again through the manifest |
| `KvTransfer.dfy` | prefill and decode as one transition system: both programs' communication steps, two TCP byte streams, the in-order RDMA channel, posted receives, completions, destination memory |
| `KvInvariant.dfy` | the invariant of that system, action by action |
| `KvSession.dfy` | what it gives for every reachable state: delivery, framing, receives |
| `KvProgress.dfy` | which configurations are served to the end, a bound on the length of every run, what decode ends up with |
| `KvChunks.dfy` | which chunks prefill writes and which completions decode polls, in which order |
| `Rings.dfy`, `Channels.dfy` | the driver's index-wrapping rings and a channel with many submitters, one worker and many consumers |
| `FlowControl.dfy` | credits with watermark hysteresis and the sustained streaming loop |
| `Streaming.dfy` | the pipelined loop shared by the streaming benchmark and the queue-depth sweep |
| `Histogram.dfy` | the lock-free latency histogram, one atomic operation per step |
| `LayerBitmap.dfy`, `Loopback.dfy` | the C loopback sender: credits, stall loop, bitmap, drain |
| `Buffers.dfy` | the buffer table, its pages, and the VMAs and dma-bufs that point into it |
| `RdmaEngine.dfy` | setup, peer, memory regions and teardown, with any acquisition failing |
| `GpuWalk.dfy` | the page-by-page copies over a pinned GPU buffer |
| `Arithmetic.dfy`, `Wrappers.dfy` | machine words, powers of two, indices that wrap at 2^32; optional values and results |

Programs that are a loop over shared state are methods and classes in the form of the source,
proved against functions of the state.  Where several parties interleave (the two servers, the
channel's threads, the histogram's recorders) the model is a transition system whose steps are
the atomic steps of the source, and the theorems quantify over every list of steps.

The environment: TCP delivers bytes in order and may split reads anywhere.  An RC queue pair
delivers writes in order, each RDMA WRITE with immediate consumes one posted receive (section
9.4.3 of the InfiniBand Architecture Specification Volume 1), and send completions arrive in
order.  Queue pairs move as in section 10.3.1 of that volume, and a failed `ib_modify_qp`
changes nothing.  A full receive queue refuses a post, and a full completion queue fails the write
that would add to it; how many entries each holds is part of the configuration.  Atomic operations
are sequentially consistent.  Clocks, poll results,
allocation failures and the choice of pages are parameters, arbitrary ones.

Where the code and its comments or its intent differ, the model follows the code:

- The header of the histogram lists bucket 0 as [0, 1) us; the code puts [0, 2) us there
  (driver/dmaplane_histogram.h:9-16, driver/dmaplane_histogram.c:61-72).
- The sustained loop compares `recv_posted` with `sent + qdepth` in 32 bits, and `recv_posted`
  itself never gets past 2^32 - 1, so send number 2^32 has no receive (driver/flow_control.c:430).
- The streaming benchmark doubles the queue depth in 32 bits; from 2^31 on, the pre-post can be
  smaller than the first burst (driver/benchmark.c:382-385).
- The sweep ignores a failed replenish (driver/flow_control.c:697-703); each one costs a receive
  for good, and depth + 1 of them leave a send without one as soon as there are more iterations
  than twice the depth.
- Buffer handles are documented as never reused (driver/dmaplane.h:288-290); the counter wraps to
  1, so they are distinct for the first 2^32 - 1 draws and repeat with that period.
- The bitmap is documented for 64 chunks a layer (examples/kvcache/kvcache_common.h:717-720); the
  shift that tests 64 chunks is undefined in C, so the model stops at 63.
- An empty prompt is framed exactly like the shutdown message, so a session's prompts are
  non-empty (examples/kvcache/decode_server.py:166-168, examples/kvcache/prefill_server.py:164-167).
- Decode posts credit_window + 1 receives up front (examples/kvcache/decode_server.py:154-156) on a
  queue pair made for 64 (driver/rdma_engine.c:1162), and `--credit-window` has no upper bound.  A
  session is served exactly if they fit, and each prompt's cache can be rebuilt.
- The loopback sender asks for a completion queue of 256 whatever its window
  (examples/kvcache/kvcache_sender.c:196-198); an iteration completes exactly if a full window, or
  every chunk, and the sentinel fit.
- Reconstruction reinterprets a slice of bytes as the tensor's dtype, which needs the slice to
  start at a multiple of the element size (examples/kvcache/kvcache_inference.py:144-153);
  consolidation packs without padding, so layers of different dtypes may not come back.
- Deregistering a memory region unmaps its pages before `ib_dereg_mr`, the reverse of the error path
  of registration (driver/rdma_engine.c:905-919): for remote access the mapping goes while the region
  built on it is live.
- The automatic configuration puts the high watermark at one and a half times the queue depth it is
  made for (driver/flow_control.c:186-208), so a run at that depth never pauses, except at depth 1.
- A peer connect that fails between RTR and RTS leaves the queue pair in RTR, from which no later
  connect succeeds until the peer is torn down and initialised again (driver/rdma_engine.c:1250-1270).
- The fit of a cache is asserted against the size asked for, before it is rounded up to 64 KB
  (examples/kvcache/prefill_server.py:92-93, 191); bufSize stands for that unrounded limit, and
  the servers' buffers for their first bufSize bytes.

## Model

| member | source | states |
|---|---|---|
| Wire.BigEndianRoundTrip | examples/kvcache/dmaplane_py.py:534-546 | the 4-byte length prefix decodes to the length it encodes, for every length below 2^32 |
| Wire.BigEndianOrders | examples/kvcache/dmaplane_py.py:534-546 | the most significant byte of the prefix comes first: prefixes compare byte by byte as their lengths do |
| Wire.ImmRoundTrip | include/kvcache_proto.h:23-33 | an immediate decodes to its layer and chunk exactly when each fits 16 bits, and equals the sentinel exactly when both halves are all ones |
| Wire.ImmOrders | include/kvcache_proto.h:23-33 | the layer is in the upper half: immediates of pairs in range compare by layer, then by chunk |
| KvPacking.RowMajorInBounds | examples/kvcache/kvcache_inference.py:131-141 | the row-major position of an index of a 4-dimensional shape is a position of the flat element list |
| KvPacking.RowMajorInjective | examples/kvcache/kvcache_inference.py:131-141 | two different indices never share a position |
| KvPacking.RowMajorOrders | examples/kvcache/kvcache_inference.py:131-141 | elements lie in the order of their indices, the head dimension varying fastest and the batch slowest |
| KvPacking.SizeFromLayers | examples/kvcache/kvcache_inference.py:191-197 | the size loop returns exactly the number of bytes that packing produces |
| KvPacking.Consolidate | examples/kvcache/kvcache_inference.py:67-98 | the staging buffer holds K then V of every layer in order from offset 0, the rest of it is untouched, and the returned total and manifest are those of the layers |
| KvPacking.ManifestTiles | examples/kvcache/kvcache_inference.py:70-98 | manifest regions follow one another without gap, from 0 to the total |
| KvPacking.ManifestDisjoint | examples/kvcache/kvcache_inference.py:70-98 | regions of different layers do not overlap |
| KvPacking.Reconstruct | examples/kvcache/kvcache_inference.py:125-155 | one pair of views per manifest entry, each the view at that entry's offsets; an error exactly when some entry's slice does not divide into elements, starts off an element boundary, or has strides that leave the buffer |
| KvPacking.StridesAreRowMajor | examples/kvcache/kvcache_inference.py:131-141 | the strides handed to as_strided address the row-major position of every index |
| KvPacking.ReconstructionRecovers | examples/kvcache/kvcache_inference.py:67-155 | from any buffer that begins with the packed bytes, the view of a layer's K shows every element of K exactly when K starts at a multiple of its element size; V's view shows V exactly when V does too and has K's shape and dtype |
| KvPacking.RecoversAllIff | examples/kvcache/kvcache_inference.py:67-155 | the whole round trip gives back every element exactly for layers whose K and V share shape and dtype and all start at multiples of their element size |
| KvPacking.OneDtypeAligns | examples/kvcache/kvcache_inference.py:67-98 | one dtype in all layers puts every tensor at a multiple of its element size |
| KvPacking.TwoDtypesMisalign | examples/kvcache/kvcache_inference.py:70-153 | two layers, uniform in themselves, one int8 and one float32 element each, do not come back |
| KvPacking.RebuildsIff | examples/kvcache/kvcache_inference.py:125-155 | reconstruction of the packed bytes raises nothing exactly when they are non-empty and, by sizes alone, every entry is aligned, divides into elements and leaves room for K's shape at V's offset |
| KvPacking.TruncationRaises | examples/kvcache/kvcache_inference.py:125-155 | a landing buffer that ends before the end of a non-empty V makes reconstruction raise |
| KvSession.EmptyPromptIsShutdown | examples/kvcache/decode_server.py:166-168 | a prompt's frame is the shutdown frame exactly when the prompt is empty |
| KvSession.JobCovers | examples/kvcache/prefill_server.py:214 | chunk i of a prompt starts at i * chunk_size, where chunk i - 1 ended, is chunk_size bytes or what is left and never empty, and announces layer 0 and chunk i in 16 bits; the last ends at the total |
| KvInvariant.DeliverKeeps | examples/kvcache/prefill_server.py:276-288 | landing any write, at any moment, keeps the system invariant; the sentinel's four bytes rewrite what is already there |
| KvInvariant.DrainKeeps | examples/kvcache/prefill_server.py:254-274 | a non-blocking credit read of any size up to 64 takes only bytes that were sent as credits and keeps the invariant |
| KvInvariant.PartialReadKeeps | examples/kvcache/dmaplane_py.py:481-491 | a read that does not yet complete what prefill waits for keeps the invariant, whatever it waits for |
| KvInvariant.FinalReadKeeps | examples/kvcache/prefill_server.py:293-295 | the read that completes the final read keeps the invariant |
| KvInvariant.SendCreditKeeps | examples/kvcache/decode_server.py:213-215 | replenish and credit keep credits held, credits in transit, unpolled completions and posted receives in balance with window + 1 |
| KvSession.RunKeeps | examples/kvcache/prefill_server.py:157-295 | every run of any length and interleaving, from any contents of both buffers, keeps the invariant |
| KvSession.SentinelMeansDelivered | examples/kvcache/decode_server.py:193-237 | once decode has polled the sentinel, and until it has copied, bytes [0, total) of its buffer are the packed source of this prompt and its manifest is theirs |
| KvSession.NothingWritesBeforeCopy | examples/kvcache/decode_server.py:217-237 | in that interval no step of either side or of the fabric changes the buffer, and no write is in flight |
| KvSession.EveryByteInItsRole | examples/kvcache/prefill_server.py:157-295 | every byte prefill takes from decode's stream, in pieces of any size, was sent in the role it is taken in: ready, header, prompt, credit or done |
| KvSession.FinalReadEmptiesPrompt | examples/kvcache/prefill_server.py:290-295 | the final read always asks for at least one byte and leaves nothing of this prompt on the stream |
| KvSession.PromptStartsClean | examples/kvcache/prefill_server.py:242-246 | every prompt starts with window credits, window + 1 posted receives, and no leftover byte, write or completion |
| KvSession.ReceivePostedAtWrite | examples/kvcache/prefill_server.py:246-288 | at every data write and at the unconditional sentinel decode has a posted receive beyond those the writes in flight will take |
| KvSession.QueuesBounded | examples/kvcache/decode_server.py:154-156 | posted receives plus unpolled completions never exceed window + 1, and never fall short of the writes in flight |
| KvChunks.NextCompletion | examples/kvcache/decode_server.py:193-205 | in every reachable state a completion decode is about to poll is the sentinel, or decodes to layer 0 and the number of chunks decode has counted so far, in 16 bits |
| KvChunks.ChunksInOrder | examples/kvcache/decode_server.py:193-215 | in every run the completions polled for a prompt are chunks 0, 1, 2, ... of layer 0, exactly while a chunk begins before the total, and then the sentinel; a completed prompt has polled all of them |
| KvChunks.ChunkNumbersFit | examples/kvcache/decode_server.py:203-204 | with at most 2^16 chunks completion i of a prompt is the number i itself |
| KvChunks.ChunkWritten | examples/kvcache/prefill_server.py:276-283 | write i of a prompt is min(chunk_size, rest) bytes at offset i * chunk_size, announced as chunk i |
| KvChunks.SentinelWritten | examples/kvcache/prefill_server.py:285-288 | the sentinel is written only when the chunks reach the total, four bytes at offset 0 |
| KvProgress.NeverStuck | examples/kvcache/prefill_server.py:161-295 | if the receive queue holds window + 1 receives and every cache can be rebuilt, every reachable state that is not finished has a step; and a posted write can always land |
| KvProgress.AnyPiece | examples/kvcache/dmaplane_py.py:481-491 | no piece size is excluded: from every reachable state a blocking read of either server can get any part of what is in transit and wanted, and a credit drain, also one after a blocking read, any part up to 64 bytes |
| KvProgress.StepDecreases | examples/kvcache/prefill_server.py:161-295 | every possible step of either side or of the fabric decreases one measure |
| KvProgress.RunBounded | examples/kvcache/decode_server.py:163-237 | no run is longer than the measure of its start |
| KvProgress.MaximalRunsFinishIff | examples/kvcache/decode_server.py:163-237 | a run that cannot continue is a finished session if and only if the receive queue holds window + 1 receives and every cache can be rebuilt; it has then served every prompt and left both streams and the fabric empty |
| KvProgress.ShallowQueueServesNothing | examples/kvcache/decode_server.py:154-161 | with fewer receives than window + 1 decode never gets past posting them: no run sends a prompt |
| KvProgress.CompletedPromptsRecovered | examples/kvcache/decode_server.py:232-240 | for every prompt decode has completed, in any run, its copy and manifest are those of the cache the model computed for that prompt, and show every K and V element exactly when the layers are uniform and aligned |
| KvProgress.OrdinarySessionsRecover | examples/kvcache/decode_server.py:154-240 | if every prompt's cache is non-empty, has K and V of one shape per layer and one dtype throughout, and the receive queue holds window + 1 receives, then every run that cannot continue has finished, with every K and V element of every prompt recovered |
| KvProgress.RunSession | examples/kvcache/decode_server.py:163-240 | under any scheduler the session ends within the bound, finished if and only if the receive queue holds window + 1 receives and every cache can be rebuilt; the prompts completed have their packed bytes and manifest delivered, in prompt order |
| Rings.SlotsDistinct | driver/dmaplane.h:616-629 | any 1024 consecutive indices use different slots, also across the 32-bit wrap |
| Rings.Ring.CountsAreLengths | driver/dmaplane.h:616-629 | full, empty and count, computed on wrapped indices, are those of the queue the ring stands for |
| Rings.Ring.Push | driver/main.c:509-518 | a push appends to that queue, or refuses exactly when it holds 1024 entries |
| Rings.Ring.Pop | driver/main.c:569-580 | a pop removes the oldest entry, or reports empty |
| Channels.EveryInterleaving | driver/main.c:165-265 | in every interleaving of submitters, worker, consumers and shutdown: dequeued, completion ring and the entry in the worker's hand (or dropped from it at shutdown), end to end, are the first accepted submissions in lock order, each with its payload one higher modulo 2^64 and its flags unchanged, and the submission ring is the rest, untouched; at most 2049 accepted entries are not dequeued |
| Channels.WatermarkIsPeak | driver/main.c:517-524 | after every run the high watermark is the greatest number of entries the submission ring has held |
| Channels.LossNeedsStop | driver/main.c:234-250 | the worker abandons an entry only if a stop was requested |
| Channels.ExitNeedsStop | driver/main.c:180-190 | the worker ends only if a stop was requested, and then nothing more passes it |
| Channels.RunKeeps | driver/main.c:165-265 | every run from every state with the invariant keeps it |
| Channels.Channel.Submit | driver/main.c:492-540 | the submit lock region is the abstract submit step, high-water mark included |
| Channels.Channel.WorkerTake | driver/main.c:192-217 | the worker's first lock region and the processing are the abstract take step; the entry in hand is the oldest submission with its payload one higher modulo 2^64 |
| Channels.Channel.WorkerPush | driver/main.c:234-250 | the second lock region is the abstract push step; a full ring changes nothing |
| Channels.Channel.Complete | driver/main.c:556-588 | the complete lock region is the abstract complete step |
| Channels.Channel.WorkerAbandon | driver/main.c:247-248 | leaving the full-ring wait on stop is the abstract abandon step |
| FlowControl.AutoConfiguredIsGood | driver/flow_control.c:186-208 | for every queue depth the automatic configuration leaves room between its watermarks, stays within the CQ depth, and starts with every credit |
| FlowControl.Flow.Configure | driver/flow_control.c:64-102 | a configuration is accepted exactly when its four constraints hold, and then leaves every credit available and the sender unpaused; a refused one changes nothing |
| FlowControl.Flow.AutoConfigure | driver/flow_control.c:186-208 | the imperative clamping produces the specified configuration; for depths 1 to 64 the credits are twice the depth, the watermarks three quarters and one quarter of that rounded down |
| FlowControl.Flow.TrySend | driver/flow_control.c:119-148 | while paused a send is let through, and the pause ended, exactly when what is in flight is down to the low watermark; otherwise it is refused exactly at the high watermark, which pauses, or without a credit; event counters as specified |
| FlowControl.CanSendIsSafe | driver/flow_control.c:119-148 | permission means a credit and room below the high watermark; refusal means something is in flight, so backpressure never stalls an idle sender |
| FlowControl.RunKeeps | driver/flow_control.c:347-454 | whatever every turn of the loop meets, the run invariant holds |
| FlowControl.CreditsConserved | driver/flow_control.c:347-454 | credits plus outstanding is max_credits after every turn, and outstanding stays within queue depth and high watermark |
| FlowControl.CompletionsReadTheirSend | driver/flow_control.c:375-418 | completion k reads the timestamp send k wrote; ts_head - ts_tail in 32 bits is the number outstanding, at most 64, so no unread slot of the 128 is overwritten however often the indices wrap |
| FlowControl.ReceivesSuffice | driver/flow_control.c:323-440 | send n finds a posted receive of its own while n + qdepth is at most 2^32; posted and unconsumed receives never exceed twice the depth |
| FlowControl.SendTwoToThe32Starves | driver/flow_control.c:430-439 | in every run that gets there, send number 2^32 has no receive |
| FlowControl.LastSendsStarveIff | driver/flow_control.c:430-439 | from send 2^32 - qdepth on no receive is posted: every later send up to number 2^32 has one exactly if its number is within those posted by then, at least 2^32 - qdepth and fewer than 2^32 |
| FlowControl.StarvedRun | driver/flow_control.c:430-439 | such a run exists, under an accepted configuration at queue depth 1 |
| FlowControl.MarksAlternate | driver/flow_control.c:127-147 | watermark events alternate, and the first is a pause |
| FlowControl.PauseLasts | driver/flow_control.c:130-138 | between a pause and its resume nothing is sent and at least high - low completions arrive |
| FlowControl.ResumeLasts | driver/flow_control.c:140-147 | between a resume and the next pause at least high - low sends are posted |
| FlowControl.RunsArePaced | driver/flow_control.c:372-419 | the events of every run satisfy the premise of those three laws |
| FlowControl.ShallowNeverPauses | driver/flow_control.c:372-375 | with a queue depth below the high watermark no run ever pauses |
| FlowControl.DefaultMarks | driver/flow_control.c:186-208 | under the automatic configuration for depth d, every pause comes at 3d/2 in flight, rounded down, and every resume at d/2 or less |
| FlowControl.DefaultDistances | driver/flow_control.c:186-208 | its pauses last at least d completions, and at least d sends lie between a resume and the next pause |
| FlowControl.DefaultPausesIff | driver/flow_control.c:186-208 | a run at the depth it was configured for never pauses for d >= 2; for d = 1 the first silence after a send does |
| FlowControl.FillsWindow | driver/flow_control.c:372-388 | while nothing completes, exactly min(queue depth, high watermark) sends are posted |
| FlowControl.PostedUpFront | driver/flow_control.c:323-335 | until the first completion exactly min(2 * depth, credits) receives are posted |
| FlowControl.FailuresStop | driver/flow_control.c:375-454 | a failed poll or a failed first send ends every run; a run in which nothing fails goes on |
| FlowControl.FailedSendStops | driver/flow_control.c:375-384 | a failing send ends the run exactly in those states in which it would have been posted |
| FlowControl.MainLoop | driver/flow_control.c:315-468 | the loop on its variables and the timestamp array computes the run the theorems are about |
| FlowControl.SustainedStream | driver/flow_control.c:263-471 | accepted exactly for an initialised device, 1 to 600 s, depth 1 to 64, a region that exists and a message that fits, each refusal exactly when its input is at fault; then the flow state is that of the run, configured by hand or automatically |
| Streaming.BurstKeeps | driver/benchmark.c:401-414 | a send burst goes up to the depth or the iterations, and sends without a receive exactly when that is past the receives posted |
| Streaming.EveryPollHasASend | driver/benchmark.c:399-417 | whenever the loop polls, a send is outstanding |
| Streaming.ReceivesTrackCompletions | driver/benchmark.c:382-462 | after every turn recv_posted is min(iterations, pre_post + completed), less the replenishes that failed; outstanding sends and unconsumed receives stay within the depth and twice the depth |
| Streaming.StreamingStarvesIff | driver/benchmark.c:382-462 | no run of the benchmark sends without a receive if the first burst fits the pre-post; otherwise its first full burst does |
| Streaming.NeverStarvesWhen | driver/benchmark.c:382-385 | that condition in the caller's terms: depth below 2^31, or iterations within what is left of the doubled depth |
| Streaming.BenchmarkNeverStarvesWhen | driver/benchmark.c:372-385 | the same for the queue depth the caller passes, the default of 16 included |
| Streaming.BenchmarkStreaming | driver/benchmark.c:321-489 | each refusal exactly when its input is at fault; otherwise the run at the caller's depth d, or 16 for 0: a failure in the first turn shows a first burst of min(d, iterations) after a pre-post of min(2d in 32 bits, iterations); a run without error sends, completes and posts a receive for every iteration, with exactly min(d, iterations) in flight at most |
| Streaming.SlackPreventsStarving | driver/flow_control.c:630-703 | a sweep run whose failed replenishes fit the slack of its pre-post never sends without a receive |
| Streaming.NoSlackStarves | driver/flow_control.c:630-703 | past that slack the next full burst does |
| Streaming.SweepStarvesIff | driver/flow_control.c:630-703 | some run at a depth of the sweep sends without a receive exactly if there are more iterations than twice the depth: depth + 1 failed replenishes and one more turn do it, and otherwise nothing does |
| Streaming.PipelinedRun | driver/benchmark.c:370-462 | the nested loops on their 32-bit counters compute the run the theorems are about, and without error complete exactly the iterations asked for |
| Streaming.QdepthSweep | driver/flow_control.c:559-717 | accepted exactly for an initialised device, 1 <= min <= max <= 64, a step and iterations of at least 1, a region that exists and a message that fits; one run at each depth min + k * step until the depth passes max, 32 points are done, or a run fails, which failed replenishes alone never make it do |
| Streaming.PointInRange | driver/flow_control.c:580-582 | the number of points counts exactly the depths that do not pass max |
| Histogram.BucketBelowBound | driver/dmaplane_histogram.c:61-72 | a sample is in one of the first i + 1 buckets exactly when it is below the bound summarize reports for bucket i |
| Histogram.BoundsAre | driver/dmaplane_histogram.c:149-158 | the bounds reported are 2, 4, ..., 32768 us and, for the overflow bucket, U64_MAX |
| Histogram.RunKeeps | driver/dmaplane_histogram.c:58-89 | every interleaving of record calls and a summarize, operation by operation, keeps the invariant |
| Histogram.TotalsLeadCount | driver/dmaplane_histogram.c:74-76 | at every moment the buckets together hold at least count samples |
| Histogram.SummariesComplete | driver/dmaplane_histogram.c:129-172 | a summarize that reads a count above zero finds all three percentiles, in order, while recording goes on |
| Histogram.ReturnedIsExact | driver/dmaplane_histogram.c:58-89 | once all calls have returned, bucket totals, count and sum are exact and the compare-and-swap loops have left the true minimum and maximum |
| Histogram.WorkDecreases | driver/dmaplane_histogram.c:78-88 | every operation of a record call uses up a measure: a failed compare-and-swap is paid for by the call that moved the value |
| Histogram.RecordsTerminate | driver/dmaplane_histogram.c:58-89 | n concurrent calls take at most 7 n (n + 1) atomic operations between them, in any interleaving |
| Histogram.PercentilesAreLeast | driver/dmaplane_histogram.c:149-172 | on a quiescent non-empty histogram each percentile is the least boundary strictly above its fraction of the samples, or U64_MAX when only the overflow bucket reaches it; count, minimum and maximum are exact, and sum and average are those of the 64-bit sum |
| Histogram.NothingToSummarise | driver/dmaplane_histogram.c:138-147 | without samples count, sum, average, minimum and maximum are 0 and there is no percentile |
| Histogram.RecordedRepresents | driver/dmaplane_histogram.c:58-89 | recording one more sample keeps the histogram exact for the longer list |
| Histogram.LatencyHistogram.constructor | driver/dmaplane_histogram.c:34-44 | an initialised histogram represents no samples |
| Histogram.LatencyHistogram.Record | driver/dmaplane_histogram.c:58-89 | the in-place updates of an uncontended call |
| Histogram.LatencyHistogram.Reset | driver/dmaplane_histogram.c:99-109 | a reset histogram represents no samples |
| Histogram.LatencyHistogram.Summarize | driver/dmaplane_histogram.c:129-173 | the cumulative scan returns the summary the percentile theorem is about, average included |
| LayerBitmap.SetBit | examples/kvcache/kvcache_common.h:735-739 | setting a chunk's bit sets that bit of the 64-bit word and no other |
| LayerBitmap.MaskMeansAll | examples/kvcache/kvcache_common.h:741-746 | (bits & expected) == expected says that every chunk's bit is set |
| LayerBitmap.Bitmap.Set | examples/kvcache/kvcache_common.h:735-739 | exactly the given position is added; out of range positions are ignored |
| LayerBitmap.Bitmap.LayerComplete | examples/kvcache/kvcache_common.h:741-746 | true exactly when all chunks of the layer are set |
| LayerBitmap.Bitmap.AllComplete | examples/kvcache/kvcache_common.h:748-754 | true exactly when all chunks of all layers are set |
| Loopback.CompleteMeansDone | examples/kvcache/kvcache_common.h:748-754 | the bitmap is complete exactly when every chunk of the layer by chunk set has been polled |
| Loopback.ImmDecodes | examples/kvcache/kvcache_sender.c:390 | within 1024 layers of 63 chunks every immediate decodes to its pair and is not the sentinel |
| Loopback.PollAndTrack | examples/kvcache/kvcache_common.h:773-797 | a polled chunk is marked, and only it; the sentinel is reported and marks nothing |
| Loopback.Stall | examples/kvcache/kvcache_sender.c:402-426 | from no credit, polling and replenishing ends with at least one, credits still equal to posted receives, and every poll finds a completion |
| Loopback.SendChunk | examples/kvcache/kvcache_sender.c:427-436 | with a credit there is a posted receive; the write succeeds exactly if the completion queue has room, lands at its own offset, and leaves credits equal to posted receives |
| Loopback.Drain | examples/kvcache/kvcache_sender.c:477-492 | the drain ends with the bitmap complete and exactly the sentinel completion left |
| Loopback.RunIteration | examples/kvcache/kvcache_sender.c:370-499 | one iteration succeeds exactly when a full window (or every chunk) and the sentinel fit the completion queue; then the destination equals the source, the bitmap is complete and no completion is unpolled; it ends with credit 0 if the window exceeds the number of chunks, and -1 otherwise |
| Buffers.SameHandleIff | driver/dmabuf_rdma.c:108-111 | two draws give the same handle exactly when a multiple of 2^32 - 1 lies between them |
| Buffers.NeededHold | driver/dmabuf_rdma.c:175 | the page count is the one number of 4096-byte pages that hold the size where one less would not |
| Buffers.LiveHandles | driver/dmabuf_rdma.c:108-111 | live handles are nonzero and, within the first 2^32 - 1 draws, distinct; after that they coincide exactly by that rule |
| Buffers.PagesConserved | driver/dmabuf_rdma.c:56-278 | owned plus free pages is the whole machine in every state: nothing leaks on any failure path, nothing is freed twice |
| Buffers.LivePagesDisjoint | driver/dmabuf_rdma.c:56-278 | live buffers own disjoint pages, none of them free |
| Buffers.PointersFindTheirBuffer | driver/main.c:635-655 | a VMA's or dma-buf's raw pointer is the slot its handle finds, and its pages are that buffer's |
| Buffers.Device.FindBuffer | driver/dmabuf_rdma.c:359-370 | the first live slot with the handle, or none exactly when no live buffer has it |
| Buffers.Device.AllocPages | driver/dmabuf_rdma.c:180-202 | succeeds exactly when n pages are free and every allocation is granted; then n distinct free pages are taken, otherwise after unwinding exactly the free pages of before are free |
| Buffers.Device.Create | driver/dmabuf_rdma.c:56-278 | succeeds exactly for a size from 1 byte to 1 GB on a valid node, with a dead slot, enough free pages and every allocation granted; the new buffer takes the first dead slot, the next handle and its own pages, as many as hold the size and no more; any failure leaves every live slot and the free pages unchanged, and draws a handle exactly if there was a dead slot |
| Buffers.Device.Destroy | driver/dmabuf_rdma.c:292-349 | refused exactly while some VMA or dma-buf points at the slot; otherwise all its pages are free again |
| Buffers.Device.Mmap | driver/main.c:679-771 | which errors occur; a success adds one VMA on that slot, showing as many of its first pages as hold the size and no more |
| Buffers.Device.VmaOpen | driver/main.c:648-654 | a second VMA on the same slot is counted |
| Buffers.Device.VmaClose | driver/main.c:635-641 | the pointer still denotes the buffer it was made for, and its count goes down by one |
| Buffers.Device.Export | driver/dmabuf_export.c:332-411 | each error exactly when: no such page buffer, already exported, or a failed allocation; a success adds the only dma-buf on that slot, with all its pages |
| Buffers.Device.Release | driver/dmabuf_export.c:184-206 | the pointer still denotes the buffer it was made for, which can be destroyed again |
| Buffers.Run | driver/dmabuf_rdma.c:56-349 | any sequence of these calls keeps page conservation and every pointer meaningful |
| RdmaEngine.InvCloses | driver/rdma_engine.c:651-697 | in every state, what a live object was created on is live |
| RdmaEngine.StandsOn | driver/rdma_engine.c:633-649 | a live object keeps what it was created on from being released |
| RdmaEngine.LegalStages | driver/rdma_engine.c:219-301 | a transition towards sending never skips a state and never goes back |
| RdmaEngine.RtsThroughRtr | driver/rdma_engine.c:219-301 | a queue pair in RTS has been through INIT and RTR |
| RdmaEngine.PeerLast | driver/rdma_engine.c:1087-1098 | nothing stands on the peer queue pair, and only it on the peer completion queue |
| RdmaEngine.PulledIff | driver/rdma_engine.c:905-919 | the mapping a slot gives up is the page list of a live region exactly if the slot was registered for remote access |
| RdmaEngine.ConnectPair | driver/rdma_engine.c:219-301 | succeeds exactly when the address and all six transitions are granted; in every case each queue pair ends as far as its transitions were granted, and nothing else changes |
| RdmaEngine.Setup | driver/rdma_engine.c:491-630 | succeeds exactly when nothing is refused, with the full hierarchy and both queue pairs in RTS; otherwise nothing is live, and the answer is the one of the refusal |
| RdmaEngine.Engine.SetupRdma | driver/rdma_engine.c:491-630 | busy exactly when initialised, no device exactly when none is found, success exactly when every acquisition and all six transitions are granted; then everything, otherwise nothing |
| RdmaEngine.Engine.InitPeer | driver/rdma_engine.c:1128-1217 | succeeds exactly when initialised without a peer and all four grants are given; exactly one completion queue and one queue pair in INIT are added, or nothing |
| RdmaEngine.Engine.ConnectPeer | driver/rdma_engine.c:1238-1274 | succeeds exactly from INIT with all grants; refused before RTR nothing changes, refused after it the queue pair is in RTR, connected it is in RTS; no other object changes |
| RdmaEngine.ConnectAll | driver/rdma_engine.c:1238-1274 | of any list of connects, attempt k succeeds exactly if the queue pair was in INIT, attempt k is fully granted and no earlier attempt got as far as RTR |
| RdmaEngine.Reconnect | driver/rdma_engine.c:1078-1274 | after any connects whatever, teardown and a new init make a granted connect succeed |
| RdmaEngine.Engine.TeardownPeer | driver/rdma_engine.c:1078-1101 | exactly the peer's two objects go, queue pair first, and that from the error state unless the move there is refused |
| RdmaEngine.Engine.RegisterMr | driver/rdma_engine.c:713-878 | each answer exactly when: not initialised or not page-backed, no such buffer, a refusal or no free slot, success; on success the first free slot gets the id counter, which then steps and skips 0, its mapping and, for remote access, its fast-reg MR; otherwise nothing changes |
| RdmaEngine.Engine.DeregisterMr | driver/rdma_engine.c:886-926 | exactly the objects of the first slot with that id go; a mapping is released under a live region exactly if that slot was for remote access |
| RdmaEngine.RegisterOnce | driver/rdma_engine.c:713-926 | setup, one registration and its deregistration, all granted: a mapping is released under a live region exactly for remote access |
| RdmaEngine.Engine.TeardownRdma | driver/main.c:1066-1083 | every MR, the peer and the pair go, nothing is left live, even if two MRs share an id; a mapping is released under a live region exactly if some slot was for remote access |
| RdmaEngine.RunThenTeardown | driver/rdma_engine.c:491-697 | after any sequence of calls with any failures, teardown leaves nothing live; on the way a mapping was released under a live region exactly if some registration for remote access succeeded |
| GpuWalk.AddressesDistinct | driver/gpu_p2p.c:681-683 | different bytes of a pinned buffer have different addresses, all in the aperture |
| GpuWalk.FlatIs | driver/gpu_p2p.c:681-683 | byte o of 64 KB page j of the buffer is at the address of page j plus o |
| GpuWalk.MemcpyFromIo | driver/gpu_p2p.c:673-695 | the host range becomes the flat range of the buffer, every step stays in one 64 KB page, nothing else of the host buffer changes |
| GpuWalk.MemcpyToIo | driver/gpu_p2p.c:709-730 | the flat range of the buffer becomes the host range and no other byte of the aperture changes |
| GpuWalk.ThereAndBack | driver/gpu_p2p.c:673-730 | host to GPU and back is the identity on the range, in whichever host buffer the bytes come back to |
| GpuWalk.ScanContiguous | driver/gpu_p2p.c:424-436 | the scan succeeds exactly when every page is at its place behind the first |
| GpuWalk.SingleMappingIff | driver/gpu_p2p.c:404-454 | one mapping from the first page addresses every byte as the walk does exactly when the scan succeeds |
| GpuWalk.SingleMappingReads | driver/gpu_p2p.c:438-442 | a read through that mapping returns what the walk would copy |

## Left out

- Peer mode of the C sender and receiver: its sentinel has no reserved receive and its done read shares the stream with credit bytes.
- Loopback.RunIteration: one iteration only; the bitmap is initialised once, outside the iteration loop.  A failing ioctl, which ends the transfer, is not modelled.
- KvTransfer: `write_imm` returns before the write lands; the driver's waiting for the send completion is the special case in which delivery follows at once.  A send appends its bytes to the stream in one step; partial sends are invisible to the reader, who may read them in any pieces.
- KvTransfer: the model, tokenizer, tensor library and JSON text are parameters; that JSON decodes what it encoded is a premise about the configured prompts only.  Connection set-up, poll errors and timeouts, closed connections and greedy decoding are not modelled.
- KvTransfer: decode's completion queue is taken to hold whatever its receive queue does (the driver asks for 128 entries and 64).
- KvSession.ReceivePostedAtWrite: the sentinel rewrites four bytes at offset 0, so both buffers must hold at least four bytes.
- Channels: the in-flight counter, the submission and completion totals and the reference counts are not modelled; wake-ups are not either, so the worker may take a step at any moment.
- FlowControl.SustainedStream: throughput windows, statistics and the draining after the main loop are not modelled, nor is a failing pre-post or timestamp allocation; a send completion is polled only while a send is outstanding.
- FlowControl: reconfiguration during a run is documented as unsupported.
- Streaming.PipelinedRun: latency samples, throughput figures and negative poll results are not modelled; a failing pre-post ends the run before its first send.
- Streaming.QdepthSweep: throughput, percentiles and the saturation search after the loop are not modelled.
- Histogram: a reset concurrent with recording is documented as inconsistent; weaker memory orderings than sequential consistency are not modelled.
- Buffers: NUMA placement and its counters, and that a coherent buffer is physically contiguous.  Exports end with a granted file descriptor: its failure path depends on when the kernel runs the release callback.  A failed mmap is taken not to call the close callback.
- Buffers: whether a registered memory region still refers to a destroyed buffer; destroy checks only mappings and exports.
- RdmaEngine: calls are taken one after another; peer init and connect hold the semaphore for reading only.  Asynchronous errors that move a queue pair to the error state, GID selection, GPU memory regions and copy failures to user space are not modelled.
- GpuWalk: physical addresses are unbounded numbers, ranges are in bounds of the pinned buffer as true sums, and revocation during a copy is not modelled.
- debugfs, tracepoints, NUMA topology, GPU RDMA, netshare and the terminal interface: I/O or foreign calls.
