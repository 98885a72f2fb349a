# Verified model of iroh-doctor's test protocols

iroh-doctor measures connections between nodes. Two nodes run small test protocols over QUIC
streams and report what they measured. This project models those protocols and their
bookkeeping, and proves what a user of the reports relies on: a test always ends, its byte
counts are what was asked for, the messages mean the same on both sides, the statistics are
consistent, and every test is accounted for once - and where the code falls short of one of
these, exactly when.

- `Postcard`, `Protocol`: the wire format. Integers follow the sections "Varint Encoded
  Integers", "Maximum Encoded Length" and "Canonicalization" of the postcard wire format
  specification; the framed header, the ping and pong, and the padded doctor request are built on them.
- `Chunking`: the two ways the program cuts data into blocks, the split over streams, and the
  configuration that feeds them.
- `Streams`: a receiving and a sending half of a stream as objects (ordered bytes in arbitrary
  non-empty fragments, writes that may start to fail at any time), and the transfer loops over them.
- `ThroughputStream`, `ThroughputTest`: the swarm throughput test as a step system. The client
  writes its header, uploads, finishes, waits until the peer has everything, then drains; the
  server drains and sends concurrently. Any number of streams share the windows of one
  connection, which the client closes as soon as its own streams are done. `ThroughputShortfall`:
  what the servers may not have received then. `ThroughputExchange`: that the client and the
  server of the step system are the client and the stream handler of `Swarm`.
- `Doctor`, `DoctorSession`: the handlers of a doctor connection, and a whole session of
  drain, send and echo tests on successive streams as a step system.
- `Swarm`: header reading and writing, the stream handlers of a node, and the ping loop.
- `RealStats`, `ThroughputReport`, `LatencyStats`: the arithmetic of the reports, over reals.
- `Progress`: the progress writer and its lossy one-slot channel.
- `Accept`: the accept command's ticket counter. `Runner`: the runner's tasks and counters.

In the step systems a byte channel is an ordered queue with a positive window and a finish
flag, as in sections 2.2, 3.1 and 4.1 of RFC 9000; reads and writes move any positive number of
bytes. Waiting for the peer to stop a stream may succeed at any time after the finish when
safety is proved, and is only relied on once the peer has drained everything when progress is
proved. A run is any sequence of enabled steps from the initial state.

Some results are negative; each names an input and states exactly when the code behaves.

- The block sender of the doctor protocol ends exactly when the block size is positive or nothing is to be sent.
- The ping client reads once and takes what it gets, so a ping counts exactly when its pong arrives in one piece.
- A latency test that is asked for no pings divides by their number and panics; the runner then counts
  it nowhere. The runner's accounts are complete exactly as long as no test has panicked.
- When a throughput test is reported as a success, its servers may lack data, and lose it when
  the client closes: some of it exactly when there is any data, m bytes exactly when m bytes fit
  the windows of the streams and of the connection, and all of it exactly when each stream's
  share fits its window and the data size fits the connection's.
- The last progress total is received exactly when it finds the slot free and the receiver
  alive and the receiver next receives.
- Live tests of the accept command have an owner of the user interface exactly as long as the
  task that came first is live.

Where the documentation in the code disagrees with the code, the code is followed: the comments
on the configuration types speak of chunks of 16 to 512 KB with a default of 64 KB, and of a
ping timeout of 1000 ms; the code clamps to 1 KB to 16 MB with a default of 1 MB, and waits 3000 ms.

## Model

| member | source | states |
|---|---|---|
| Postcard.CapacityOfWidths | src/swarm/tests/protocol.rs:46-51 | five varint bytes hold exactly the u32 values and ten exactly the u64 values |
| Postcard.TakenFits | src/swarm/tests/protocol.rs:39-41 | a decoded integer fits its type and decoding consumes a non-empty prefix no longer than the type allows |
| Postcard.VarintRoundTrip | src/swarm/tests/protocol.rs:35-41 | decoding an encoded integer followed by anything gives it back and leaves exactly what followed |
| Postcard.VarintPrefixIsBad | src/swarm/tests/protocol.rs:39-41 | no strict prefix of an encoded integer decodes |
| Postcard.VarintCanonicalIff | src/swarm/tests/protocol.rs:35-41 | re-encoding a decoded integer gives the bytes read if and only if they did not end in a zero group, and is never longer |
| Postcard.PaddedZeroDecodes | src/swarm/tests/protocol.rs:39-41 | a concrete pair of different byte strings that decode to the same integer, so decoding is not injective |
| Postcard.VarintGroups | src/swarm/tests/protocol.rs:35-37 | byte k of an encoded integer is its k-th group of seven bits, least significant first, with the top bit set on all bytes but the last, and no group is missing |
| Postcard.VarintExamples | src/swarm/tests/protocol.rs:35-37 | the encodings of the boundary values that the wire format specification lists |
| Protocol.HeaderRoundTrip | src/swarm/tests/protocol.rs:44-51 | every header decodes to itself before any trailing bytes, and its body has 4 to 33 bytes |
| Protocol.FrameLengthIsExact | src/swarm/tests/protocol.rs:77-86 | the two length bytes alone tell a reader the exact end of the frame, so the cast to u16 loses nothing |
| Protocol.FrameRoundTrip | src/swarm/tests/protocol.rs:77-104 | reading a written header returns it and leaves exactly the trailing bytes |
| Protocol.FramePrefixIsBad | src/swarm/tests/protocol.rs:88-104 | a header cut short anywhere is an error, never another header |
| Protocol.LatencyPrefixDecodes | src/swarm/tests/protocol.rs:21-41 | a beginning of an encoded ping or pong decodes if and only if it is the whole message, and then to that message |
| Protocol.RequestRoundTrip | src/doctor.rs:217-222 | every request decodes to itself before any trailing bytes and fits the maximum size |
| Protocol.PaddedRequestRoundTrip | src/doctor.rs:485-493 | the zero-padded buffer decodes to the request and only the zeros are left over |
| Protocol.LayoutOfHeader | src/swarm/tests/protocol.rs:10-51 | the bytes of every header: the type's tag, then the fields in declaration order, options as 0 or as 1 and a value |
| Protocol.TagsOfMessages | src/doctor.rs:217-222 | the first byte of every ping, pong and request is its tag in declaration order, followed by its fields |
| Protocol.LayoutOfFrame | src/swarm/tests/protocol.rs:77-86 | the body's length comes first, low byte before high byte, and then the body |
| Protocol.HeaderExamples | src/swarm/tests/protocol.rs:77-86 | two headers byte by byte |
| Protocol.MessageExamples | src/doctor.rs:485-493 | a ping, a pong and a padded request byte by byte |
| Protocol.LongestRequest | src/doctor.rs:258 | the buffer is exactly as long as the longest request, 16 bytes |
| Chunking.ChunkersAgree | src/swarm/transfer_utils.rs:75-95 | dividing into full chunks and a rest cuts the same blocks as repeatedly taking the minimum (src/doctor.rs:308-313) |
| Chunking.BlocksCoverTotal | src/doctor.rs:308-313 | the blocks are positive, sum to the total and are all full but possibly the last |
| Chunking.BlockCount | src/doctor.rs:308-313 | the number of blocks is the total divided by the block size, rounded up |
| Chunking.SendLoopEndsIff | src/doctor.rs:302-315 | the loop reaches zero remaining bytes if and only if the block size is positive or there is nothing to send |
| Chunking.SharesPartition | src/swarm/tests/throughput.rs:42-53 | stream sizes sum to the data size, all but the last are equal, and the last exceeds them by less than the stream count |
| Chunking.SplitAcrossStreams | src/swarm/tests/throughput.rs:42-60 | the spawning loop gives the streams exactly those sizes |
| Chunking.ResolvedConfigIsSafe | src/swarm/rpc.rs:262-284 | for every configuration the stream count is 1 to 16, the chunk 1 KB to 16 MB, the shares sum to the size, and both peers cut the same blocks |
| Chunking.RequestedConfigKeptIff | src/swarm/rpc.rs:262-284 | whatever the other setting is, a requested stream count or chunk size is used unchanged if and only if it is in the enforced range, one beyond it becomes the nearest end of the range, and an absent one is its default |
| Streams.DrainStream | src/swarm/transfer_utils.rs:12-65 | it fails exactly when the stream breaks; otherwise it counts every byte, and its read count is the number of fragments, or up to 32 times fewer when read in batches |
| Streams.SumLengths | src/swarm/transfer_utils.rs:59 | the sum over the first n buffers ignores the stale ones behind them |
| Streams.SendDataOnStream | src/swarm/transfer_utils.rs:70-104 | it writes the clamped blocks in order, a beginning of them when the network fails, and succeeds only when all are written, finished and stopped |
| Streams.SentData | src/swarm/transfer_utils.rs:75-95 | these writes are the byte 0xAB as often as asked for, all of the chunk size brought between 1 KiB and 16 MiB but the last, which may be shorter |
| Streams.HandleBidirectionalTransfer | src/swarm/transfer_utils.rs:107-130 | whichever task is done first, the writes are those of the send task, it succeeds if and only if both tasks do, and then reports all bytes received and the requested size as sent |
| Streams.SendBlocks | src/doctor.rs:302-315 | for every block size: it never ends if and only if the block size is zero and there are bytes to send, writing nothing; otherwise it writes zero blocks in the order of the block list, or the beginning the network allows |
| ThroughputStream.PayloadIsFill | src/swarm/transfer_utils.rs:77-95 | the chunked payload is the fill byte repeated exactly as often as was asked for |
| ThroughputStream.StepInv | src/swarm/tests/throughput.rs:185-237 | every step of client, drain task and send task keeps conservation of bytes in both directions and the order of phases |
| ThroughputStream.HeaderParseResult | src/swarm/runner.rs:163-190 | whatever the fragmentation, the server parses exactly a throughput header with the client's size, one stream and the client's chunk, and serves that |
| ThroughputStream.MeasureDecreases | src/swarm/transfer_utils.rs:106-130 | every step of every schedule decreases a natural-number measure |
| ThroughputStream.NextMoveIsPossible | src/swarm/transfer_utils.rs:115-126 | a stream that is not done either has an enabled local step or only waits for credit to write |
| ThroughputStream.CreditMonotone | src/swarm/transfer_utils.rs:83-95 | more credit never disables or changes a step |
| ThroughputStream.FinalTotals | src/swarm/tests/throughput.rs:209-236 | when a stream is done each side has received exactly its size in fill bytes |
| ThroughputStream.SequentialServerNeverFinishes | src/swarm/transfer_utils.rs:115-121 | a server that sent before it drained would be stuck for ever with any data larger than both windows: the two concurrent tasks are needed |
| ThroughputStream.SequentialServerEndsIff | src/swarm/transfer_utils.rs:115-121 | such a server has a run that ends if and only if the data fits one of the two windows |
| ThroughputExchange.ClientIsAnswered | src/swarm/tests/throughput.rs:202-212 | for every stream, the client's bytes read as a throughput header and its payload, and a node's handler answers them, without a panic, with the client's own blocks |
| ThroughputExchange.ServerIsTheHandler | src/swarm/runner.rs:219-233 | in every state with the invariant, what the server of the step system has sent or will send is the handler's response to the client's bytes, and what it takes is what follows the header |
| ThroughputExchange.AssignedTestIsAnswered | src/swarm/rpc.rs:262-284 | for every configuration, nodes answer each stream with its share in blocks of the configured chunk size |
| ThroughputExchange.DoneClientHasResponses | src/swarm/tests/throughput.rs:209-222 | in every state of every run, a client that is done has received on its stream the handler's whole response to what it sent |
| ThroughputTest.NextInv | src/swarm/tests/throughput.rs:45-60 | a move of any stream keeps all streams' invariants and the shared windows of the connection |
| ThroughputTest.NextMeasure | src/swarm/tests/throughput.rs:45-60 | a move of any stream decreases the sum of the streams' measures |
| ThroughputTest.SomeStreamMoves | src/swarm/tests/throughput.rs:45-60 | unless all streams are done, one can move even under the connection-wide windows: no deadlock |
| ThroughputTest.WorldStepInv | src/swarm/execution.rs:93-106 | every step of a stream, the client's close, and every failure of a server task by it keep the invariant and decrease a natural-number measure |
| ThroughputTest.SomethingIsDue | src/swarm/execution.rs:93-106 | until the connection is closed and every server task has returned or failed, some step is due |
| ThroughputTest.EveryStateConserves | src/swarm/tests/throughput.rs:45-60 | in every state of every run each stream's bytes are unsent, in flight or received, and each step has used up some of the measure |
| ThroughputTest.ClientsDoneTotals | src/swarm/tests/throughput.rs:68-111 | in every state of every run in which the client's own streams are done, the client has received the requested size, and the servers all of it but what is still on the way; all of it if and only if nothing is on the way |
| ThroughputTest.EveryScheduleSucceeds | src/swarm/tests/throughput.rs:29-111 | every schedule is finite, and a maximal one ends with every client stream done, the requested size received, the connection closed, and every server task returned or failed by the close |
| ThroughputTest.StrictTransportServesAll | src/swarm/transfer_utils.rs:97-101 | if waiting for the peer ends only once the peer has read everything, the servers too have received the requested size when the client reports |
| ThroughputTest.StrictServersWait | src/swarm/transfer_utils.rs:97-103 | on such a transport no server's send task returns before its client is done |
| ThroughputShortfall.HeldMove | src/swarm/tests/throughput.rs:205-220 | a client can always go on while its server leaves its last bytes undrained, if these fit the window |
| ThroughputShortfall.UnreadIff | src/swarm/transfer_utils.rs:97-101 | for every test and every vector of amounts, one for each stream: some run reports success with exactly these bytes unread if and only if each is within its stream's share and window, and their sum within the connection's window |
| ThroughputShortfall.ServersMayBeShortIff | src/swarm/execution.rs:93-106 | for every test and every m: some run reports success with the servers lacking m bytes, and some run ends with these bytes lost by the close, if and only if m bytes fit on the way up |
| ThroughputShortfall.ReportsTooSoonIff | src/swarm/execution.rs:93-106 | for every test: some run reports success before the servers have everything, and some run never gives it to them, if and only if the data size is positive |
| ThroughputShortfall.EverythingMayBeMissedIff | src/swarm/execution.rs:93-106 | for every test: some run ends in success with the servers having received nothing if and only if every share fits the stream window and the data size fits the connection's window |
| Doctor.BlockBytesAreZeros | src/doctor.rs:302-315 | the blocks together are the requested number of zeros, whatever the block size |
| Doctor.Replies | src/doctor.rs:262-296 | the reply to every request: its upload for echo, nothing for drain, as many zeros as asked for, whatever the block size, for send |
| Doctor.SentRequestIsRead | src/doctor.rs:258-260 | a handler reads exactly the request that was sent and leaves exactly the upload |
| Doctor.SendTestRequest | src/doctor.rs:485-493 | one write of the padded request, or none if the stream is closed |
| Doctor.CopyStream | src/doctor.rs:263-268 | echoing writes what it reads in order, a beginning of it when the network fails, and reports the byte count |
| Doctor.CopyToSink | src/doctor.rs:274-279 | draining fails exactly when the stream breaks and otherwise reports the byte count |
| Doctor.SendAllBlocks | src/doctor.rs:285-290 | sending never ends for empty blocks and bytes to send; otherwise it writes exactly the block bytes, or a beginning of them when the network fails |
| Doctor.HandleTestRequest | src/doctor.rs:253-299 | for every byte sequence received: an unreadable request is an error without an answer; a request for bytes in empty blocks, and only that, is never done and never answered; otherwise the answer is the requested one, cut short only on failure, and the stream is finished exactly on success |
| DoctorSession.StepInv | src/doctor.rs:450-600 | every step of either side keeps the invariant that locates every byte of the current test; in particular no check fails and no request is unreadable |
| DoctorSession.MeasureDecreases | src/doctor.rs:450-600 | every step of every schedule decreases a natural-number measure over the remaining tests, bytes and phases |
| DoctorSession.SomeStepEnabled | src/doctor.rs:496-600 | every state but the final one has an enabled step: no deadlock for any size, windows and copy buffer |
| DoctorSession.RunInv | src/doctor.rs:450-600 | every state of every run satisfies the invariant, and the measure bounds the run's length |
| DoctorSession.EverySessionSucceeds | src/doctor.rs:450-482 | no run ever fails a check, meets an unreadable request or a request that is never answered; every run is finite, and a maximal one ends with all three tests of every iteration joined and served |
| DoctorSession.EnsuredIff | src/doctor.rs:511 | the active side's check of a test passes if and only if the count is that of the bytes it is owed |
| DoctorSession.EveryJoinedTestIsAnswered | src/doctor.rs:510-564 | a joined test has received, in order: nothing as first of an iteration, as many zeros as the session has data as second, the data itself as third |
| DoctorSession.EveryRequestIsDecoded | src/doctor.rs:253-262 | the passive side, which takes the streams from a queue, decodes on them in turn a request to drain, to send in blocks of 1 MiB and to echo, each for the size of the data, and none that is never answered |
| DoctorSession.EveryRequestIsServed | src/doctor.rs:262-296 | and then sets out to drain, to send that many zeros, or to echo |
| DoctorSession.EveryDrainIsComplete | src/doctor.rs:274-283 | a passive side that is done draining has received, in order, all that the active side sent |
| DoctorSession.NothingIsLeftBehind | src/doctor.rs:571-586 | in every state of every run the streams of earlier tests are empty and finished in both directions, so no byte is taken for another test's |
| DoctorSession.CloseIsGraceful | src/doctor.rs:475-479 | whenever the active side closes, every handler is done, the passive side is back at accepting and nothing is left on any stream |
| DoctorSession.AnswerIsReply | src/doctor.rs:262-296 | the handler can be done with every request of the active side, and what the active side waits for is what the handler owes for the bytes it is sent |
| DoctorSession.LazySessionEndsIff | src/doctor.rs:504-510 | an active side that drained an echo only after sending has a run that ends if and only if the data fits the two windows and the copy buffer (or there are no tests): with more, every run is stuck before the first echo is over |
| RealStats.MeanWithin | src/swarm/types.rs:223-224 | the mean lies between any bounds of the values |
| RealStats.VarianceWithinSpread | src/swarm/types.rs:226-235 | variance is at most (max - mean)(mean - min) |
| RealStats.VarianceWithinRange | src/swarm/types.rs:226-235 | variance is at most a quarter of the squared range |
| RealStats.VarianceWithinBalance | src/swarm/types.rs:226-243 | for non-negative values variance is at most (n - 1) times the squared mean |
| RealStats.VarianceZeroIff | src/swarm/types.rs:237-239 | variance is never negative, and zero if and only if all values are equal |
| RealStats.VarianceByMoments | src/swarm/types.rs:223-235 | the mean times the count is the sum, and the variance times the count is the sum of squares less the count times the squared mean |
| ThroughputReport.VarianceOfStreams | src/swarm/types.rs:226-235 | the reported variance, zero by a separate branch for one stream, is the variance of the rates for every stream count |
| ThroughputReport.StatisticsAreConsistent | src/swarm/types.rs:194-261 | minimum and maximum are attained bounds with the mean between them, the aggregate is the sum, and the variance keeps both spread bounds |
| ThroughputReport.CvPresentIff | src/swarm/types.rs:240-250 | the balance score has a coefficient of variation if and only if there are several streams and their mean is positive, and its square times the squared mean is the variance |
| ThroughputReport.BalanceIsBounded | src/swarm/types.rs:237-250 | for non-negative rates the squared coefficient of variation behind the balance score is in [0, n - 1], and zero if and only if all streams are equally fast |
| ThroughputReport.ReportedBalanceIsBounded | src/swarm/tests/throughput.rs:76-138 | the same for every report, whatever its streams did |
| ThroughputReport.JoinStreams | src/swarm/tests/throughput.rs:62-138 | it fails if and only if some stream failed; otherwise its totals are the sums modulo 2^64, its times are attained and bound those of the streams, each rate times its own direction's time is that total in bits, and the streams follow in order with their own results and rates |
| ThroughputReport.ReportDescribes | src/swarm/tests/throughput.rs:62-138 | the same of the report as a function of the streams' results |
| ThroughputReport.ReportedRatesAreTrue | src/swarm/tests/throughput.rs:113-123 | as long as no total wraps, each reported rate times the longest time of its direction is the true number of bits, and zero for no time |
| ThroughputReport.WrapSumIsSum | src/swarm/tests/throughput.rs:71-72 | the accumulated u64 total is the true total modulo 2^64 |
| ThroughputReport.TotalsAreRequestedSize | src/swarm/tests/throughput.rs:42-111 | in whatever state of whatever run the client reports, both reported totals equal the requested size |
| ThroughputReport.StreamRateIsTrueIff | src/swarm/tests/throughput.rs:76-83 | a stream's rate times its time is its true number of bits if and only if it took no time or sent plus received does not wrap |
| ThroughputReport.AggregateCoversReportedRates | src/swarm/tests/throughput.rs:113-123 | the aggregate over the streams is never below the smaller of the reported upload and download rates |
| ThroughputReport.ReportedRatesWithinStreamRates | src/swarm/tests/throughput.rs:113-123 | each reported direction rate, total bytes over the longest stream time, is never above the sum of the streams' rates in that direction |
| LatencyStats.AverageBetween | src/swarm/tests/latency.rs:90-97 | minimum and maximum are attained, and the truncated average still lies between them |
| LatencyStats.SummaryDescribes | src/swarm/tests/latency.rs:90-123 | every sample lies between the reported extremes, both are samples, the reported average is between them and less than a nanosecond below the mean, the reported variance less than a squared nanosecond above the true one, and the ping count is that of the samples |
| LatencyStats.VarianceExcess | src/swarm/tests/latency.rs:95-105 | the variance around the truncated average exceeds the true one by at least 0 and less than one squared nanosecond |
| Swarm.ToBytes | src/swarm/tests/protocol.rs:77-86 | the written bytes read back as the header before any trailing bytes, in at most 35 bytes |
| Swarm.ReadFrom | src/swarm/tests/protocol.rs:88-104 | for every byte sequence however fragmented: the header and exactly the rest, or an error |
| Swarm.HandleLatencyTest | src/swarm/runner.rs:193-217 | it panics before it reads if and only if the announced size is beyond any buffer; otherwise it answers a whole ping with its pong and nothing else, and always tries to finish the stream |
| Swarm.HandleIncomingTestStream | src/swarm/runner.rs:163-190 | the writes on a stream are the response to its bytes, or the beginning the network allows, whichever of a throughput test's tasks is done first; it panics exactly for such a latency header |
| Swarm.ThroughputIsAnswered | src/swarm/runner.rs:219-233 | for every throughput header and whatever follows, the response is the byte 0xAB exactly as often as announced, in writes of the announced chunk size, clamped, or of 1 MiB |
| Swarm.LatencyIsAnsweredIff | src/swarm/runner.rs:193-217 | for every latency header and whatever follows, there is a response if and only if as many bytes as announced follow and are a ping, and it is the pong of the same number; the handler panics if and only if 2^63 bytes or more are announced |
| Swarm.PingIsAnswered | src/swarm/runner.rs:193-217 | the bytes the client sends for ping i are answered, without a panic, by exactly one write, an encoding of pong i |
| Swarm.PongAcceptedIffWhole | src/swarm/tests/latency.rs:64-77 | the client's single read accepts the pong if and only if it arrives in one fragment, and never as another message |
| Swarm.PingCountsIff | src/swarm/tests/latency.rs:53-77 | against an answering node a ping counts if and only if its writes succeed and the pong is in time and in one fragment |
| Swarm.PingOnce | src/swarm/tests/latency.rs:41-77 | exactly when one ping succeeds, and then which bytes it sent |
| Swarm.OpenAndPing | src/swarm/tests/latency.rs:41-77 | exactly when one ping counts, and then that it has sent the header and ping of its own number |
| Swarm.PingAll | src/swarm/tests/latency.rs:40-86 | the first ping that fails, if any, the times of exactly the pings before it, and that each of these sent its own number |
| Swarm.ExchangeCountsIff | src/swarm/tests/latency.rs:41-77 | against an answering node a ping counts if and only if its stream opens, its writes succeed and the pong is in time and in one fragment |
| Swarm.RunLatencyTest | src/swarm/tests/latency.rs:40-123 | a panic if and only if no pings are asked for, the first ping that failed, or a summary of all measured times that describes them as `LatencyStats.SummaryDescribes` says |
| Progress.TrackingWriter.PollWrite | src/progress.rs:91-103 | the same call and result as the inner writer's, and the total grows, saturating, by what was accepted |
| Progress.Slot.TrySend | src/progress.rs:45-47 | a value is queued exactly when the receiver is alive and the slot is free |
| Progress.ProgressWriter.constructor | src/progress.rs:19-28 | a new progress writer starts at the initial view |
| Progress.ProgressWriter.PollWrite | src/progress.rs:38-49 | the inner writer sees the same call and result as without progress, and the view moves by one write event |
| Progress.UpdatesAreRunningTotals | src/progress.rs:8-49 | over every run of writes, receives and a dropped receiver, what is delivered is a non-decreasing subsequence of the running totals and never exceeds the bytes accepted so far |
| Progress.WrittenIsExact | src/progress.rs:99-101 | after every run the total is what the inner writer has accepted, and from 2^64 on the largest total |
| Progress.TotalsAreExact | src/progress.rs:45-47 | there is one running total for each accepted write, and it is what had been accepted up to that write |
| Progress.LastTotalReceivedIff | src/progress.rs:45-47 | over every whole run, the last write's total is received if and only if the write finds the receiver alive and the slot free and the receiver's next act is to receive |
| Progress.LastTotalMayBeDropped | src/progress.rs:45-47 | two concrete runs whose last total is never received: the slot is still taken, or the receiver goes away with the total queued |
| Progress.ReceiveUpdate | src/doctor.rs:242-246 | taking an update from the channel is the receive event of the writer's view |
| Progress.DropReceivingEnd | src/doctor.rs:247-249 | dropping the receiver is the drop event of the writer's view |
| Accept.StepInv | src/commands/accept.rs:56-88 | every step keeps the counter equal to the live tasks with at most one first ticket, and never underflows |
| Accept.CounterCountsLiveTasks | src/commands/accept.rs:43-88 | in every state of every run the counter is the number of tasks between their add and their subtract, and no enabled step underflows |
| Accept.OneGuiOwner | src/commands/accept.rs:57-66 | at no time do two tasks own the user interface |
| Accept.GuiTicketIff | src/commands/accept.rs:57-60 | a task gets the first ticket if and only if no other task is live when it takes one |
| Accept.OwnerIffFirstIsLive | src/commands/accept.rs:57-87 | since the counter last left zero, some live task holds the first ticket if and only if the task that took it then is still live |
| Accept.TestsWithoutOwner | src/commands/accept.rs:57-87 | a concrete run with two live tests and no owner |
| Runner.SwarmStats.IncrementCompleted | src/swarm/types.rs:277-279 | only the completed counter moves, by one |
| Runner.SwarmStats.IncrementFailed | src/swarm/types.rs:281-283 | only the failed counter moves, by one |
| Runner.ExecuteLatencyTest | src/swarm/execution.rs:169-204 | a latency assignment panics if and only if it gets a connection and asks for zero pings, and is done if and only if there are pings and all succeed |
| Runner.FinishTest | src/swarm/runner.rs:107-146 | a panicked test is not reported and a failed one as an error result; if the submission succeeds a done latency, throughput or fingerprint test moves the completed counter and an error or failed one the failed counter, by one |
| Runner.StepInv | src/swarm/runner.rs:73-160 | every step of any number of tasks, with a shutdown or a panic at any point, keeps the accounts balanced |
| Runner.AccountsBalance | src/swarm/runner.rs:73-160 | in every state of every run, spawned tests are live, completed, failed, failed to submit, shut down or crashed, and the counters count theirs |
| Runner.AccountedIffNoPanic | src/swarm/runner.rs:326-328 | in every state of every run, spawned tests are accounted for without the crashed ones if and only if no performed assignment has panicked |
| Runner.NoPingsIsLost | src/swarm/runner.rs:326-328 | a concrete run in which a latency assignment with zero pings is spawned and then neither live, counted, refused nor shut down |
| Runner.AccountedUnlessNoPings | src/swarm/execution.rs:169-204 | in every run with any mix of assignments, as long as none handed out asks for no pings all spawned tests are accounted for |
| Runner.LostIffAsksForNoPings | src/swarm/execution.rs:169-204 | for every set of assignments a runner may be given: it can lose a test if and only if the set holds a latency test that asks for zero pings |
| Runner.CountersAreAcceptedReports | src/swarm/rpc.rs:386-390 | once no test is live, the completed counter is the number of accepted reports whose success flag is set and the failed counter the rest; all other spawned tests failed to submit, were shut down or crashed |
| Runner.RecordingWasSubmitted | src/swarm/runner.rs:132-146 | a result about to be counted was accepted by an earlier submission of that very task |
| Runner.CountedAtMostOnce | src/swarm/runner.rs:132-146 | in a whole run a test is counted at most once, and only after its submission succeeded |
| Runner.CountedByResult | src/swarm/runner.rs:118-146 | in every run, a recorded test was performed earlier, and what it came to decides which counter moves, by one |
| Runner.ShutdownStopsNoPerformed | src/swarm/runner.rs:110-151 | in every run, a shutdown stops no test that has been performed; unless it panicked it ends counted or refused by the coordinator |

## Left out

- The internals of QUIC, iroh endpoints, relays, DNS and TLS; a stream is an ordered byte channel with windows and a finish flag. postcard and serde are not part of this repository; the encoding follows the postcard wire format specification.
- Failures of the transport in the step systems: they model connections that stay up until a side closes them. The methods over `RecvStream` and `SendStream` do cover failing reads and writes.
- Clocks, sleeps, timeouts and measured durations: parameters of the methods, or steps that may happen at any time.
- `exp` and `sqrt`, hence the balance score and the standard deviation themselves: the facts are about variance and the squared coefficient of variation they are computed from.
- Floating-point rounding and NaN: rates and statistics are over reals.
- `usize` is taken as 64 bits wide. Byte counters of the drain loop, the ticket counter and the runner's counters do not wrap at 2^64; the totals of the throughput report do.
- Allocation failures below the largest size a buffer can have; a larger announced ping size is modelled as the panic it is.
- Logging, metrics, the `Gui` and progress bars, configuration loading, keys, port mapping, the report command and the NAT classifier.
- The coordinator and the RPC calls to it are not part of this model beyond whether a submission succeeds; nothing is claimed about the same assignment being handed out twice.
- The branches of src/swarm/execution.rs that build results, and the connection statistics copied into a report.
- Flushing and shutting down the progress writers, which only forward to the inner writer.
- Streams.DrainStream: of batched reads it bounds the count by 32 fragments each and does not fix it, because how many fragments a read finds waiting is up to the network. The time to the first byte is not modelled.
- Streams.HandleBidirectionalTransfer: runs one of the two tasks to its end and then the other, in either order; they touch different halves of the stream, and their step-by-step interleaving under windows is modelled in `ThroughputStream`.
- Swarm.PingOnce: accepts any message that decodes, as the source does; it does not compare the pong's number with the ping's.
- LatencyStats.AverageBetween: needs at least one sample; for none the source divides by zero, and `Summarize` has no result.
- Chunking.SplitAcrossStreams: requires at least one stream, which the source's callers ensure by clamping (`Chunking.ResolvedConfigIsSafe`).
- ThroughputReport.AggregateCoversReportedRates: requires that no byte count wraps and that a stream that moved bytes took time; the source reports a rate of zero for a stream with no duration.
- ThroughputReport.ReportedRatesWithinStreamRates: requires that no total wraps and that a stream that moved bytes in a direction took time for it, for the same reason.
- DoctorSession.EverySessionSucceeds: the uploaded bytes are arbitrary, of which the source's zeros are one case; an absent iteration count is the largest u64. That a handler has finished its stream and that it is back at accepting is one step.
- ThroughputTest.EveryScheduleSucceeds: the time limit around a throughput test is not among the steps; a test that it ends is reported as an error.
- Runner.LostIffAsksForNoPings: counts the division by the number of pings as the only panic. The conversion of the selected path's address also panics for addresses that are neither IP nor relay (src/swarm/execution.rs:29-37); `Runner.AccountedIffNoPanic` covers a panic of any test for any reason.
- Runner.FinishTest: a fingerprint result that carries an error counts as a success, as in the source.
