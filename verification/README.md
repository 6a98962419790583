# Tick-Storm, verified

A Dafny 4.11 model of the Tick-Storm TCP tick server, with proofs about its framed protocol, its
asynchronous write queue, its connection sessions and its admission control. The command
`dafny verify dfyconfig.toml` checks the whole project.

What is modelled, and how:

* **Frames** (`Crc32c`, `Frames`, `FrameStream`, `FrameErrors`, `FrameIntegrity`, `FrameIo`). CRC32C as the
  bit-reflected shift register of section 12.1 of RFC 3720, the frame printer, the whole-buffer parser
  and the streaming parser. `FrameIo` holds the mutable `Frame`, `FrameReader` and `FrameWriter`
  objects; the other modules hold the functions they are proved against. Main results: both parsers
  accept exactly the encodings of well-formed frames, and each of their errors is given exactly by the
  bytes that cause it; a stream can be cut into frames in one way only;
  and a corruption inside any four-byte window is rejected except in exactly two windows, which
  straddle the border between payload and checksum.
* **The write queue** (`WriteQueue`, `WriteQueueProofs`, `WriteQueueCalls`, `WriteQueuePanic`). Producers, the
  bounded channel, the writer loop, the atomic length counter and `Close`, as one step per load, add, channel operation and write,
  so that every interleaving is a run. `WriteQueueCalls` says what each single call comes to, whatever
  the others do meanwhile. A send on the closed channel panics and ends the run; this can
  happen, and `WriteQueuePanic.PanicExactly` says from which states.
* **Sessions** (`Session`, `SessionProofs`, `SessionTheorems`, `SessionConduct`, `SessionTicks`,
  `ExpiredAcknowledgement`, `FlushOverlap`, `EndToEnd`). The goroutine of one connection, the tick generator, the data channel and the
  delivery loop, on top of the write queue. Client frames carry the verdict of the checks they go
  through; timers fire at any moment. Main results, for every run: the order of the conversation,
  conservation of ticks from the generator to the queue and to the wire, one mode per connection,
  answers in the order of requests, and (`SessionConduct`) which frames are served, which end the
  conversation and with how many error replies, told from the frames received alone. One expectation fails: an acknowledgement that waits in the queue
  past its deadline is dropped there, and later frames still go out. `SessionTheorems.WireOrder` and
  `SessionTheorems.MissedExactly` say exactly when, `ExpiredAcknowledgement` gives the run.
  `flushBatch` is one uninterrupted activity in `Session`; the source also calls it from a timer
  without a lock, and `FlushOverlap` says exactly which interleavings of any number of flushes and the
  loop's appends, each append a load and a store, keep the ticks. `EndToEnd` puts the codec under the session: what a client reads off
  the bytes.
* **Admission** (`RateLimiter`, `RateLimiterProofs`, `ConnectionLimiter`, `ConnectionLimiterProofs`).
  The authentication limiter and the per-address connection limiter, on a clock that does not go back,
  with cleanups at any moment. The comment in the source calls the connection limit "per second"; the
  code counts it per `connectionRateWindow`, one minute, and so does the model. Main results: the
  tight bounds on what each limiter lets through in any stretch of one window, and the windows for
  which evicting idle connection logs after an hour changes nothing, exactly.
* **Sessions of the server** (`ServerSessions`, `ServerSessionsProofs`, `ServerSessionsOutcomes`). All
  connections at once: registration, the steps of `Authenticate`, the session table and the
  authentication counters; what becomes of each connection is told from the actions of the run alone.
* **Degradation and pool** (`BreachHandler`, `GoroutinePool`, `GoroutinePoolProofs`,
  `GoroutinePoolCalls`, `GoroutinePoolOvershoot`, `GoroutinePoolUndershoot`). The breach handler against
  the history of its samples; the pool's workers and callers as atomic steps, with what each call comes
  to and the exact overrun of both its limits.
* **Metrics** (`LatencyMean`). The running mean in 64-bit arithmetic and its accumulated rounding error.

`Bounds`, `Counting` and `Options` hold what several modules share. Code that runs concurrently in the source is
modelled as a state machine over its atomic steps; objects that are updated under one lock, or by one
goroutine, are classes. Clocks, the network, the limiter's answer inside `ServerSessions` and the
verdicts of protobuf parsing and validation are parameters.

## Model

| member | source | states |
|---|---|---|
| `Crc32c.CheckValue` | internal/protocol/frame.go:94-129 | the checksum is CRC32C: the digits 1 to 9 give the published check value |
| `Crc32c.ChecksumDifference` | internal/protocol/frame.go:94-129 | two equally long messages' checksums differ by the residue of their difference, whatever the messages |
| `Crc32c.ShiftInjective` | internal/protocol/frame.go:94-129 | clocking the register merges no two states, for any number of clocks |
| `Crc32c.ShortDifferenceResidue` | internal/protocol/frame.go:94-129 | a difference confined to four bytes anywhere in a message of any length changes the checksum |
| `Crc32c.ThreeBytesNeverClear` | internal/protocol/frame.go:94-129 | no difference in three bytes leaves the checksum's other three bytes unchanged |
| `Crc32c.OneByteNeverClearsTwo` | internal/protocol/frame.go:94-129 | no difference in one byte leaves two checksum bytes unchanged |
| `Frames.DecodeExactly` | internal/protocol/frame.go:132-177 | `Unmarshal` accepts a buffer with a message if and only if the message is well formed and the buffer is its encoding |
| `Frames.FieldsDetermineBytes` | internal/protocol/frame.go:94-177 | a buffer whose magic, length and checksum fields check out is the encoding of the fields it carries |
| `Frames.EncodedFields` | internal/protocol/frame.go:94-129 | where each field of an encoding stands, the length by the value of its four bytes, most significant first, and that it reads back as what was put in |
| `Frames.LengthValue` | internal/protocol/frame.go:113-114 | a length is read most significant byte first |
| `Frames.SampleFrame` | internal/protocol/frame.go:94-129 | all thirteen bytes of one heartbeat frame, its checksum included |
| `FrameErrors.DecodeErrors` | internal/protocol/frame.go:132-177 | each error of `Unmarshal` if and only if the bytes are such and such, in the order of the checks |
| `FrameErrors.HeaderErrors` | internal/protocol/frame.go:197-219 | each error `ReadFrame` finds in the first eight bytes, exactly, and that these eight are consumed |
| `FrameErrors.EndErrors` | internal/protocol/frame.go:197-226 | when the end of the stream is clean and when it is unexpected, exactly, for every limit at which the 32-bit length cannot wrap |
| `FrameErrors.ChecksumErrors` | internal/protocol/frame.go:221-246 | a whole announced frame is refused for its checksum if and only if it is no encoding, and it is consumed either way |
| `FrameStream.ReadExactly` | internal/protocol/frame.go:197-246 | `ReadFrame` returns a message and a rest if and only if the stream is the message's encoding followed by that rest |
| `FrameStream.PrefixFree` | internal/protocol/frame.go:94-246 | no encoding is a proper prefix of another |
| `FrameStream.ParsersAgree` | internal/protocol/frame.go:132-246 | under the default limit the stream reader succeeds exactly when some prefix is accepted by the buffer parser, with the same message, and leaves what follows that prefix |
| `FrameStream.AcceptedPrefixUnique` | internal/protocol/frame.go:132-177 | at most one prefix of a stream is accepted |
| `FrameStream.CutExactly` | internal/protocol/frame.go:197-246 | exactness of any parser for one item carries over to streams of any length |
| `FrameStream.StreamExactly` | internal/protocol/frame.go:197-246 | repeated `ReadFrame` returns a list of messages if and only if the stream is their encodings in order, and consumes exactly those |
| `FrameStream.PanicExactly` | internal/protocol/frame.go:215-226 | some input makes `ReadFrame` panic if and only if the configured limit lets the 32-bit length arithmetic wrap |
| `FrameIntegrity.AcceptedExactly` | internal/protocol/frame.go:132-177 | which buffers of the same length as a frame are accepted |
| `FrameIntegrity.OneSidedWindow` | internal/protocol/frame.go:94-177 | a change within four bytes on one side of the checksum border never passes |
| `FrameIntegrity.ThreeDataBytes` | internal/protocol/frame.go:94-177 | nor does one in the last three covered bytes and the first checksum byte |
| `FrameIntegrity.OneDataByteSlips` | internal/protocol/frame.go:94-177 | for every frame with a payload some change of its last byte and three checksum bytes passes |
| `FrameIntegrity.TwoDataBytesSlip` | internal/protocol/frame.go:94-177 | and with two payload bytes some change of both and two checksum bytes |
| `FrameIntegrity.WindowDetectedExactly` | internal/protocol/frame.go:94-177 | for every frame and every four-byte window, an undetected change inside it exists if and only if the window is one of those two |
| `FrameIntegrity.SingleByteDetected` | internal/protocol/frame.go:132-177 | every single corrupted byte anywhere is rejected |
| `FrameIo.Frame.Marshal` | internal/protocol/frame.go:94-129 | appending field by field yields the encoding, whose bytes `EncodedFields` and `SampleFrame` give, or the size error exactly above 65536 bytes |
| `FrameIo.Frame.Unmarshal` | internal/protocol/frame.go:132-177 | verdict and error of every input, and what a failed parse leaves in the frame |
| `FrameIo.OverwrittenMeaning` | internal/protocol/frame.go:132-177 | success replaces the whole frame; after each error exactly which fields are overwritten, and with what |
| `FrameIo.FrameReader.ReadFrame` | internal/protocol/frame.go:197-246 | outcome and remaining input, for every input and limit |
| `FrameIo.FrameReader.ReadRemainder` | internal/protocol/frame.go:221-246 | the same for the part after the header |
| `FrameIo.FrameWriter.WriteFrame` | internal/protocol/frame.go:263-278 | success exactly when the frame fits and all bytes are taken; the sink stays the encodings written plus a torn tail |
| `FrameIo.WrittenIsRead` | internal/protocol/frame.go:197-278 | what a writer wrote a reader gets back, the same messages in order and then only the torn tail |
| `WriteQueueProofs.CounterMeaning` | internal/server/connection.go:334-446 | in every reachable state the counter is the queue plus unsettled calls plus the writer's item, so it is never negative and bounded |
| `WriteQueueProofs.OneFate` | internal/server/connection.go:334-446 | every enqueued item is in exactly one of waiting, held or handled, and is handled once |
| `WriteQueueProofs.WireOrder` | internal/server/connection.go:334-420 | the wire is a subsequence of the enqueue order and holds exactly the items whose fate is written |
| `WriteQueueProofs.NothingAfterFailure` | internal/server/connection.go:360-386 | after a failed write nothing is ever written |
| `WriteQueueProofs.SignalledOnce` | internal/server/connection.go:334-446 | a completion channel is signalled once, and exactly when its item is handled |
| `WriteQueueProofs.SynchronousResult` | internal/server/connection.go:423-446 | a synchronous write that gets its completion reports success exactly when its frame is on the wire |
| `WriteQueueProofs.GivenUpNeverWritten` | internal/server/connection.go:412-446 | a call that times out at the queue, or finds it full, never has its frame enqueued or on the wire, then or later |
| `WriteQueueProofs.CloseBound` | internal/server/connection.go:334-458 | at most one frame is written after the closed flag is set |
| `WriteQueueProofs.AfterClose` | internal/server/connection.go:334-458 | once `Close` has returned the wire is final, and unless a write failed every enqueued item was handled |
| `WriteQueueProofs.QuietNeverPanics` | internal/server/connection.go:390-458 | without a call that checked before the flag was set no send on the closed channel can happen |
| `WriteQueueCalls.AsynchronousCall` | internal/server/connection.go:390-420 | in every interleaving an asynchronous call returns success if and only if it put its own frame into the channel, once, with a deadline one timeout after a moment of the call |
| `WriteQueueCalls.SynchronousCall` | internal/server/connection.go:423-446 | a synchronous call returns success if and only if the frame it put into the channel is on the wire; it fails without having put it there only when the connection is closed or its timeout is over |
| `WriteQueueCalls.UninterruptedCall` | internal/server/connection.go:390-420 | an asynchronous call nobody interrupts succeeds if and only if the connection is open and the frames waiting, being sent and being written are fewer than the capacity |
| `WriteQueueCalls.CallEnds` | internal/server/connection.go:390-446 | a call takes at most six steps and its next one is possible at once, except for a synchronous call waiting for room until its deadline or for the writer |
| `WriteQueueCalls.LateNeverWritten` | internal/server/connection.go:349-358 | an item that has not passed the deadline test when its deadline is over is never written |
| `WriteQueueCalls.ExpiredLate` | internal/server/connection.go:349-446 | a frame is dropped as expired only when more than the timeout has passed since its call |
| `WriteQueuePanic.PanicExactly` | internal/server/connection.go:390-458 | from a reachable state some continuation sends on the closed channel if and only if the connection is not closed yet, or a call is past its checks, or a call is about to load a counter that can still fall below the capacity: not without a buffer, and not behind a full queue whose writer has stopped |
| `WriteQueuePanic.LateSenderPanics` | internal/server/connection.go:405-458 | once the flag is set, every call past its checks can be the one that panics |
| `WriteQueuePanic.OpenCallPanics` | internal/server/connection.go:334-420 | a call about to load the counter can panic once the queue has drained |
| `WriteQueuePanic.SafeRun` | internal/server/connection.go:390-458 | outside these states no continuation ever panics |
| `WriteQueuePanic.PanicReachable` | internal/server/connection.go:423-458 | a reachable panicked state, for every capacity |
| `Session.FilterTicks` | internal/server/delivery_loop.go:127-143 | the filtering loop keeps exactly the ticks of the subscribed mode, in order, and nothing without a subscription |
| `SessionTicks.FilteredExactly` | internal/server/delivery_loop.go:127-143 | the ticks of the subscribed mode, and no others, are kept, each as often as it occurs and in order |
| `SessionTicks.GeneratedExactly` | internal/server/handler.go:440-472 | in every run the data channel holds at most a hundred batches, and exactly the ticks that find it full are dropped |
| `SessionTheorems.HeardMeaning` | internal/server/handler.go:83-213 | what a legal conversation looks like: one authentication acknowledgement, first; at most one subscription acknowledgement |
| `SessionTheorems.ReplyOrder` | internal/server/server.go:623-691 | in every run no pong, acknowledgement or batch enters the queue before the authentication acknowledgement and no batch before the subscription acknowledgement, and neither acknowledgement twice |
| `SessionTheorems.WireOrder` | internal/server/connection.go:334-420 | the same order on the wire, unless that acknowledgement waited in the queue past its deadline |
| `SessionTheorems.MissedExactly` | internal/server/connection.go:349-358 | an acknowledgement is on the wire or missed its deadline, never both, so the exception is exact |
| `ExpiredAcknowledgement.AcknowledgementCanExpire` | internal/server/connection.go:349-358 | a reachable state whose wire is a pong without the authentication acknowledgement |
| `SessionTheorems.TicksConserved` | internal/server/delivery_loop.go:33-143 | batches accepted, then the pending batch, then the data channel, are ticks 0, 1, 2, ... without loss, repetition or gap, whatever was dropped at a full channel and whichever sends failed; the first two are the matching ticks taken |
| `SessionTheorems.WireTicks` | internal/server/connection.go:305-420 | the ticks on the wire appear in generation order, each at most once |
| `SessionTheorems.OneMode` | internal/server/delivery_loop.go:127-143 | every tick of every batch carries the connection's mode and was generated |
| `SessionTheorems.SubscriptionFixed` | internal/server/connection.go:124-134 | a subscription once set never changes |
| `SessionTheorems.NothingAfterFailure` | internal/server/handler.go:83-185 | after the first frame whose processing fails no client frame is processed |
| `SessionTheorems.AnsweredInOrder` | internal/server/handler.go:188-414 | pongs and acknowledgements are, in order and one for one, the replies that the verdicts on the client's frames call for, all but possibly the last |
| `SessionConduct.AnsweredServed` | internal/server/handler.go:188-414 | the i-th answer belongs to the i-th frame, which was one to be served: right credentials first, then valid heartbeats and one valid subscription |
| `SessionConduct.AcknowledgedCredentials` | internal/server/server.go:623-691 | an authentication acknowledgement is sent only if the first frame carried credentials that were accepted |
| `SessionConduct.ServedExactly` | internal/server/server.go:623-691 | every frame before the last was one to be served, and the conversation ends for a rejected frame if and only if the last was not |
| `SessionConduct.SubscribedAsAsked` | internal/server/handler.go:301-414 | the connection is subscribed in a mode if and only if the first valid request after authentication asked for it |
| `SessionConduct.ErrorsExactly` | internal/server/handler.go:83-414 | when the conversation is over, the error replies taken and refused are exactly as many as its end calls for: two for a rejected subscription, none for an unreadable first frame, a refused authentication acknowledgement or an end of reading, one otherwise |
| `SessionConduct.CauseRun` | internal/server/handler.go:83-185 | in every run the conversation ends for a timeout if and only if one of its timers fired, and for an end of reading if and only if reading stopped |
| `FlushOverlap.OverlapExactly` | internal/server/delivery_loop.go:38-124 | for every interleaving of the loads and stores of appends and of the reads, sends and clears of any number of flushes: whenever none is between acceptance and clearing, the ticks are conserved if and only if no flush that went through was interrupted between its read and its clearing, by a stored append or another's acceptance or clearing, and no flush cleared between an append's load and its store |
| `FlushOverlap.FlushedTwice` | internal/server/delivery_loop.go:108-124 | two flushes that half overlap send the batch twice |
| `FlushOverlap.AppendLost` | internal/server/delivery_loop.go:38-124 | ticks appended between a callback's read and its clearing are never sent |
| `FlushOverlap.StoredAgain` | internal/server/delivery_loop.go:47-58 | a whole flush between an append's load and its store, itself undisturbed, leaves its batch pending again |
| `EndToEnd.ClientSees` | internal/protocol/frame.go:197-278 | whatever undoable payload format is used, a client reading the connection's bytes gets exactly the frames on the wire, in order, and then the torn tail |
| `EndToEnd.ClientTicks` | internal/server/connection.go:305-420 | in every run the ticks it reads are in generation order, each at most once |
| `EndToEnd.ClientOrder` | internal/server/connection.go:334-420 | in every run the replies it reads come after their acknowledgements, unless those missed their deadline |
| `RateLimiter.Limiter.Allow` | internal/auth/ratelimiter.go:41-84 | decision and new table, for known and unknown clients |
| `RateLimiter.Limiter.RecordFailure` | internal/auth/ratelimiter.go:87-101 | a failure at the limit blocks for three windows; otherwise nothing changes |
| `RateLimiter.Limiter.Reset` | internal/auth/ratelimiter.go:104-109 | the client's record is gone and the others are kept |
| `RateLimiter.Limiter.Cleanup` | internal/auth/ratelimiter.go:112-129 | exactly the records idle for more than ten windows are dropped |
| `RateLimiter.Independent` | internal/auth/ratelimiter.go:41-129 | clients do not influence each other |
| `RateLimiterProofs.SlidingBound` | internal/auth/ratelimiter.go:41-129 | between resets any closed interval of one window holds at most 2 * maxAttempts - 1 grants, with anything interleaved |
| `RateLimiterProofs.SlidingBoundReached` | internal/auth/ratelimiter.go:41-84 | for every limit and window some run reaches that number |
| `RateLimiterProofs.FailingBound` | internal/auth/ratelimiter.go:41-129 | if every grant is followed by a failure, at most max(maxAttempts, 2 * maxAttempts - 2) |
| `RateLimiterProofs.FailingBoundReached` | internal/auth/ratelimiter.go:41-101 | for every limit above one and every window some such run reaches it |
| `RateLimiterProofs.BlockHolds` | internal/auth/ratelimiter.go:58-129 | while a block lasts nothing is granted and the record stays, through any events |
| `RateLimiterProofs.BlockEnds` | internal/auth/ratelimiter.go:58-84 | the first attempt after a block is granted and opens a fresh window |
| `RateLimiterProofs.OverLimitExactly` | internal/auth/ratelimiter.go:57-84 | an attempt over the limit is refused and blocks for exactly two windows: with no failure recorded meanwhile the next attempt is granted if and only if it comes two windows later or after |
| `RateLimiterProofs.FailureBlocksExactly` | internal/auth/ratelimiter.go:87-101 | a failure at the limit blocks for exactly three windows, if it came within seven windows and one time unit of the last counted attempt |
| `RateLimiterProofs.ErasedExactly` | internal/auth/ratelimiter.go:87-129 | some moment of a block lets a cleanup drop its record if and only if the failure came more than seven windows and one time unit after the last counted attempt |
| `RateLimiterProofs.BlockErasedExactly` | internal/auth/ratelimiter.go:41-129 | after any run, some continuation without a reset gets the client a grant before its block is over if and only if that is so |
| `RateLimiterProofs.GrantedInsideBlock` | internal/auth/ratelimiter.go:41-129 | for every limit and window a run from an empty table that leads there |
| `ConnectionLimiter.Configured` | internal/server/ddos_protection.go:138-144 | limit and window are kept, and the spacing is the largest whole number of nanoseconds that fits into one second `limit` times |
| `ConnectionLimiter.Limiter.CheckConnectionRate` | internal/server/ddos_protection.go:107-152 | decision and new table; the pruning loop keeps exactly the entries inside the window |
| `ConnectionLimiter.Limiter.Cleanup` | internal/server/ddos_protection.go:237-250 | exactly the trackers idle for more than an hour are dropped |
| `ConnectionLimiterProofs.TracksRun` | internal/server/ddos_protection.go:107-152 | in every run a tracker is a suffix of the address's admissions, and what it forgot was old or followed by an hour of silence |
| `ConnectionLimiterProofs.Faithful` | internal/server/ddos_protection.go:107-152 | in a roomy window every decision is the one a limiter that never forgets would take |
| `ConnectionLimiterProofs.FaithfulExactly` | internal/server/ddos_protection.go:107-250 | and only in those: window <= one hour + 1 ns + (limit - 1) * spacing, or no positive limit |
| `ConnectionLimiterProofs.EvictionTransparent` | internal/server/ddos_protection.go:237-250 | inserting cleanups anywhere in a run changes no decision |
| `ConnectionLimiterProofs.FaithfulWithoutCleanups` | internal/server/ddos_protection.go:107-152 | without cleanups every decision is the one on the full log, for every window |
| `ConnectionLimiterProofs.TransparentExactly` | internal/server/ddos_protection.go:107-250 | cleanups change no decision in any run exactly for the roomy windows |
| `ConnectionLimiterProofs.WindowBound` | internal/server/ddos_protection.go:107-152 | every half-open interval of one window holds at most the limit of admissions per address |
| `ConnectionLimiterProofs.WindowBoundExactly` | internal/server/ddos_protection.go:107-250 | this holds in every run exactly for the roomy windows |
| `ConnectionLimiterProofs.AdmissionsSpaced` | internal/server/ddos_protection.go:132-149 | admissions of one address are at least the spacing or a window apart, for every configuration |
| `ConnectionLimiterProofs.ConfiguredSpacing` | internal/server/ddos_protection.go:138-144 | for a limiter built from a limit and a window: admissions `d` apart satisfy (d + 1) * limit > 10^9, or d >= window when the window is shorter than a second |
| `ConnectionLimiterProofs.ConfiguredDecision` | internal/server/ddos_protection.go:107-152 | in every run of such a limiter, with any cleanups if its window is roomy: a connection is admitted if and only if fewer than `limit` admissions lie in the window ending now and the latest of them, if any, is a second's share old |
| `ConnectionLimiterProofs.ConfiguredBound` | internal/server/ddos_protection.go:107-250 | the windows, in numbers of nanoseconds, in which such a limiter never admits more than its limit in any run, exactly |
| `ConnectionLimiterProofs.TrackedAfterCleanup` | internal/server/ddos_protection.go:237-250 | after a cleanup exactly the addresses admitted in the past hour are tracked |
| `ConnectionLimiterProofs.AttemptsCounted` | internal/server/ddos_protection.go:146-149 | without cleanups a tracker's count is the number of its address's admissions |
| `ConnectionLimiterProofs.Overadmitted` | internal/server/ddos_protection.go:107-250 | for every other window a run that admits one more than the limit |
| `ServerSessionsProofs.CountersAddUp` | internal/server/server.go:558-691 | successes, failures, rate limits and undecided requests add up to the first frames read plus the answered repetitions; the active count is the number of handlers |
| `ServerSessionsProofs.SessionsRegistered` | internal/server/server.go:694-710 | whenever the server's lock is free every session belongs to a registered connection |
| `ServerSessionsProofs.AlreadyAuthenticated` | internal/auth/auth.go:112-162 | that refusal needs another live connection from the same address that holds a session |
| `ServerSessionsProofs.NeverAlreadyAuthenticated` | internal/auth/auth.go:112-179 | with distinct addresses it never arises |
| `ServerSessionsProofs.SessionsExactly` | internal/auth/auth.go:112-179 | with distinct addresses the sessions are exactly those of connections in a phase between storing and removing one; `SessionsEarnedExactly` says which these are |
| `ServerSessionsOutcomes.CredentialsDecide` | internal/auth/auth.go:112-162 | in every run a connection stores its session, or is about to, if and only if the limiter let it through, the lookup let it on to the judgement and the one frame it read first was an AUTH with the right credentials |
| `ServerSessionsOutcomes.RightAreStored` | internal/auth/auth.go:138-158 | right credentials that pass the lookup are stored by the next two steps |
| `ServerSessionsOutcomes.StoredExactly` | internal/auth/auth.go:112-179 | a connection holds a session exactly between its store and its removal, and only after right credentials and the limiter's consent |
| `ServerSessionsOutcomes.SessionsEarned` | internal/auth/auth.go:112-179 | in every run an address has a session only because of a connection from it that showed the right credentials and has not removed its session |
| `ServerSessionsOutcomes.SessionsEarnedExactly` | internal/auth/auth.go:112-179 | with distinct addresses if and only if there is such a connection |
| `ServerSessionsOutcomes.RegisteredExactly` | internal/server/server.go:694-710 | the connections in the server's map are exactly those registered and not unregistered |
| `ServerSessionsOutcomes.CountersExactly` | internal/server/server.go:645-680 | each counter by itself: successes are the stored sessions, rate limited ones the limiter's refusals, failures the other first frames and repetitions, each less those whose handler has not counted yet; active connections are those accepted and not finished |
| `ServerSessionsProofs.SharedAddressRefused` | internal/auth/auth.go:124-130 | with a shared address a client with the right credentials is refused |
| `ServerSessionsProofs.SessionsLatest` | internal/auth/auth.go:112-179 | in every run an address has a session if and only if the latest store or removal at it is a store |
| `ServerSessionsProofs.RefusedExactly` | internal/auth/auth.go:124-130 | exactly then a lookup is refused as already authenticated |
| `ServerSessionsProofs.SharedSessionLost` | internal/server/server.go:701-710 | with a shared address a refused connection that ends takes the session of one that is still authenticated |
| `ServerSessionsProofs.ThirdPasses` | internal/auth/auth.go:124-130 | a third connection from the address is then let past the lookup |
| `BreachHandler.Handler.CheckResourceLimits` | internal/server/resource_breach_handler.go:48-90 | after every check the flags, the refusal and the event count are those the samples so far call for; without a monitor nothing changes |
| `BreachHandler.Handler.CheckSignal` | internal/server/resource_breach_handler.go:55-62 | one signal's flag follows its thresholds, counts its rising edge and leaves the others alone |
| `BreachHandler.FlagMeaning` | internal/server/resource_breach_handler.go:48-90 | a flag is on if and only if the signal's latest sample outside its dead band was above it |
| `BreachHandler.BreachInNumbers` | internal/server/resource_breach_handler.go:54-89 | the same in numbers: above 90 percent of memory or descriptors, 50000 goroutines or 95000 connections, and since then never below 80 percent, 40000 or 90000 |
| `BreachHandler.Handler.ShouldRejectConnection` | internal/server/resource_breach_handler.go:93-95 | connections are refused if and only if that holds for some signal |
| `BreachHandler.EndsBelow` | internal/server/resource_breach_handler.go:48-90 | a breach ends only with a sample below the lower threshold |
| `GoroutinePoolProofs.CounterMeaning` | internal/server/goroutine_pool.go:63-148 | in every interleaving: tasks put into the queue are queued, in work or completed, and taken in order; the queue counter and both worker counters |
| `GoroutinePoolCalls.SubmitExactly` | internal/server/goroutine_pool.go:63-88 | in every interleaving a call of `Submit` returns true if and only if it put its own task into the queue, and it does so at most once |
| `GoroutinePoolCalls.CallsAnswered` | internal/server/goroutine_pool.go:63-88 | in every run the accepted tasks are as many as the calls that returned true and those about to, and every call is accepted, refused or under way |
| `GoroutinePoolCalls.OneWorkerPerCall` | internal/server/goroutine_pool.go:63-97 | no call starts more than one worker |
| `GoroutinePoolCalls.GrowsAfterSend` | internal/server/goroutine_pool.go:151-157 | a caller adds a worker after its send if and only if the workers it counted are below the maximum and the queue counter it reads later, after any steps of others, exceeds twice their number |
| `GoroutinePoolCalls.GrowsOnSurvey` | internal/server/goroutine_pool.go:196-204 | the manager if and only if it exceeds three times their number |
| `GoroutinePoolCalls.RefusedWhenFull` | internal/server/goroutine_pool.go:75-88 | a call that finds two tasks queued for each possible worker is refused at once if and only if no worker may be added |
| `GoroutinePoolCalls.ShrinksWhenIdle` | internal/server/goroutine_pool.go:130-166 | an idle worker leaves if and only if the workers it counted are more than the minimum and four times the queue counter it reads later, plus four, is at most their number |
| `GoroutinePoolProofs.Overshoot` | internal/server/goroutine_pool.go:91-97 | with at most k callers between check and add, workers <= maxWorkers + k - 1 |
| `GoroutinePoolOvershoot.OvershootReached` | internal/server/goroutine_pool.go:63-97 | for every pool that can grow and every k some run reaches that number |
| `GoroutinePoolProofs.FixedPool` | internal/server/goroutine_pool.go:91-175 | with equal limits the number of workers never changes until the pool is stopped |
| `GoroutinePoolProofs.Undershoot` | internal/server/goroutine_pool.go:130-166 | with at most k workers between the decision to leave and leaving, workers >= minWorkers + 1 - k until the pool is stopped |
| `GoroutinePoolUndershoot.UndershootReached` | internal/server/goroutine_pool.go:105-166 | for every pool that can grow and every k up to all its workers some run reaches that number; the test of the queue counter prevents none, because the counter can be negative |
| `LatencyMean.PerformanceMetrics.RecordWriteLatency` | internal/server/metrics.go:94-102 | count and mean for every latency in wrapping 64-bit arithmetic, the panic when the count wraps to zero, and the recurrence itself while the count and the sum fit |
| `LatencyMean.Wrap` | internal/server/metrics.go:94-102 | the wrapped value differs from the exact one by a multiple of 2^64, and is the exact one whenever that fits |
| `LatencyMean.QuotTruncates` | internal/server/metrics.go:94-102 | the division truncates toward zero: the remainder is smaller than the divisor and has the sign of the dividend |
| `LatencyMean.MeanError` | internal/server/metrics.go:94-102 | n * avg <= sum <= n * avg + n(n-1)/2 for every sequence of n samples |
| `LatencyMean.TriangleValue` | internal/server/metrics.go:94-102 | the closed form of that error term |
| `LatencyMean.MeanErrorReached` | internal/server/metrics.go:94-102 | the error is reached for every n |
| `LatencyMean.MeanBetween` | internal/server/metrics.go:94-102 | the mean lies between any bounds of the samples |
| `LatencyMean.DividendFits` | internal/server/metrics.go:94-102 | the dividend never exceeds the sum |

## Left out

- LatencyMean.PerformanceMetrics.RecordWriteLatency: does not model two goroutines recording at once.
- WriteQueueProofs.CounterMeaning: the counter is an unbounded integer; its bound shows that 32 bits suffice for any realistic number of callers.
- The mutable objects of `connection.go`, `handler.go`, `server.go`, `auth.go` and `goroutine_pool.go` are values in state machines, because several goroutines work on them; slice aliasing and data races on plain fields are not captured, except the unlocked pending batch. There a batch is read by value, so an append that overwrites the array of a batch another flush still holds is not captured, and the test that the batch is not empty is one step with the read.
- The session's timers are over-approximated: heartbeat, batch and authentication timers may fire at any moment, a flush may start whenever something is pending, and the flush at a full batch is one of these. No bound on the batch size and no liveness of heartbeats is claimed; the source gives neither.
- The generator's exit after one second of silence sits in a selection that never waits, so it is never taken, and the model has no such exit.
- Completion of `WriteFrameSync`: an item left in the queue after a failed write is never signalled.
- The price, volume and time of a tick, batch sequence numbers, and which error code a reply carries.
- The rate limiter inside `ServerSessions`: its answer is a free choice there.
- Connection ids are taken as unique; the source builds them from address and time.
- `Stop` of the goroutine pool closes its queue, and a submission after that panics; the model only cancels the workers. Normalisation of the pool's limits is left out too.
- A strict maximum of active connections, and completion of shutdown: the check and the increment are separate steps and the wait group is not balanced in the source.
- The port-scan detector, the IP filter, version tables, message validators and `SanitizeString`: the session takes their verdicts as given, and none of the results here depends on how they are reached.
- Protobuf encoding, sockets, TLS, HTTP endpoints, Prometheus, logging, environment variables and operating system limits.
- Network monitor, health checks, autoscaling advice and TLS metrics: placeholders and plain threshold reads.
