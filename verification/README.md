# go-p2p-forge: a verified model of its core

A Dafny model of the five parts of go-p2p-forge, a libp2p server framework, whose correctness
does not show from reading one function: the per-peer rate limiters, the frame codec with its
buffer pool and response writer, the middleware pipeline, the handling of a stream, and the
join/leave protocol for topics. `dafny verify dfyconfig.toml` checks everything.

## How it is organised

| file | models |
|---|---|
| `Prelude.dfy` | options, peers, minimum and maximum |
| `PeerRuns.dfy` | sharding, runs of atomic limiter steps, admission logs |
| `TokenBucket.dfy`, `TokenBucketProofs.dfy`, `TokenBucketImpl.dfy` | `middleware/tokenbucket.go`: step machine, theorems, objects |
| `SlidingWindow.dfy`, `SlidingWindowImpl.dfy` | `middleware/ratelimit.go`: step machine and theorems, shards on mutable slices |
| `Frames.dfy` | the wire format |
| `TimedRead.dfy`, `FrameReader.dfy` | `codec/frame.go`, reading: under deadlines, and as loops over buffers |
| `BufferPool.dfy`, `PoolProtocol.dfy` | `codec/pool.go`: on arrays, and under concurrency |
| `ResponseWriter.dfy` | frame writing, `SliceIterator`, the response middleware |
| `Middleware.dfy` | `Pipeline.run`, `Chain`, `OperationRouter`, `Recovery` |
| `StreamHandling.dfy` | `Pipeline.HandleStream` with its deadline and reset hook |
| `Topics.dfy`, `TopicAnswers.dfy` | `JoinTopic`, `LeaveTopic`, `Publish`, `Subscribe`: the protocol and its invariants, then what each call answers and achieves |

**Token bucket.** Time is in nanoseconds and a level in units of 1/window token, so refilling
for dt adds exactly dt * rate and a request for n costs exactly n * window. A run is a sequence
of atomic steps: requests, with the clock read under the shard's lock, and per-shard eviction
passes, with the clock read before any lock. All that is asked of the clock is `WellTimed`: a
request sees at least the values earlier steps on its own shard used. The hash is any function
from peers to numbers. `Granted` is what the machine grants a peer in a run, read off its verdicts;
the theorems are about it. The specification, `LogOf` with `Fits`, knows only an admission log, and
`GrantedIsLog` shows that it describes the machine.

**Sliding window.** The same runs, with a log that is never pruned as the specification. The
shard object keeps its histories in arrays that are compacted while they are read; that no two
peers share an array is part of its invariant.

**Frames.** `ReadOne` and `ReadAll` parse whole byte strings. `TimedRead` adds the time at
which each byte arrives and the deadline armed before the prefix and before each 64 KiB chunk.
`FrameReader` has the loops. Both readers are proved against the same function, so the pooled
one refines the plain one.

**Middleware.** A middleware body is a command that may transform the context in any way, call
`next` any number of times, branch, loop, panic and recover. `next` is a function, as in the
source; congruence lemmas replace equality of functions.

**Protocols.** The buffer pool, stream handling and topics are transition systems over any
number of goroutines or streams, one step per atomic operation, and the theorems are about
every state of every behaviour. A stream runs the instructions of `HandleStream` with a stack of
deferred calls that a return or a panic unwinds; how the middleware ends, and which buffer it leaves
in the context, is what `Middleware.Run` says.

### Where the code and its documentation differ

- `refillWait` is documented to round up to the millisecond (`middleware/tokenbucket.go:178-181`);
  the code rounds to the nearest millisecond and adds one. `RefillWaitBounds` gives the exact margins.
- The writer accepts an empty payload that the reader refuses. `StreamRoundTrip` says exactly which
  lists survive the trip.
- Chains are documented as composition (`middleware/router.go:69-71`). Nesting is not always the same as
  flattening: `FlattensIff` gives the exact condition and `FlatteningCanFail` an instance where it fails.
- A join whose Subscribe fails leaves the topic open in pubsub, so a retry calls Join on an open
  topic: `RetryAfterFailedSubscribe` is such a run and `DoubleJoinIffLeftOpen` the exact condition.
- JoinTopic's fast path returns nil once the topic is stored, which is before its subscription is.
  Subscribe may then return nil: `SubscribeCanMiss` is such a run without any LeaveTopic, and
  `SubscribeFindsUnlessStoring` the exact condition.
- The reset hook is described as the deadline's (`pipeline.go:69-72`). A panic between arming it and
  deferring the cleanup also sets it off, and skips Close: `ResetExactly` says when, and
  `ResetWithoutDeadline` is such a run.

## Model

| member | source | states |
|---|---|---|
| `TokenBucketProofs.EnvelopeExact` | middleware/tokenbucket.go:139-176 | In every run, for any hash and with or without eviction, a request is admitted if and only if its n is zero or less, or n is at most burst and, from every grant the machine made that peer earlier, everything it granted since plus n is at most burst + rate * elapsed / window |
| `TokenBucketProofs.GrantedIsLog` | middleware/tokenbucket.go:139-176 | What the sharded, evicting machine grants a peer over a whole run is exactly what the rate envelope alone would admit |
| `TokenBucketProofs.LevelIsEnvelope` | middleware/tokenbucket.go:163-175 | The level a lazily refilled bucket holds is the minimum of the rate envelope over all suffixes of the admission log |
| `TokenBucketProofs.AvailableIsLevel` | middleware/tokenbucket.go:157-175 | After any run, the two numbers kept for a peer, or their absence, stand for exactly the level its whole log implies, at every instant a later request can see |
| `TokenBucketProofs.RefillComposes` | middleware/tokenbucket.go:164-168 | Refilling for a and then b equals refilling for a + b under the cap |
| `TokenBucketProofs.SweepKeepsAvailable` | middleware/tokenbucket.go:233-248 | An entry that passes the eviction test at a possibly stale clock is indistinguishable from no entry at every instant from that clock on |
| `TokenBucketProofs.EvictionInvisible` | middleware/tokenbucket.go:233-251 | Eviction changes no decision and no reported wait, although passes use a clock read before any lock and interleave freely with requests |
| `TokenBucketProofs.IdlePeersForgotten` | middleware/tokenbucket.go:236-251 | A pass forgets every peer of its shard whose requests all lie a full idle time and a full refill back |
| `TokenBucketProofs.OnlyIdleForgotten` | middleware/tokenbucket.go:241-247 | A pass forgets a peer only if every request that touched its bucket is two windows past and the bucket is full again |
| `TokenBucketProofs.NonInterference` | middleware/tokenbucket.go:152-162 | A peer is told what a private bucket under any other hash tells it when fed only its own requests |
| `TokenBucketProofs.RejectionsStutter` | middleware/tokenbucket.go:124-126 | Deleting a rejected request from a run changes no other decision and no other wait |
| `TokenBucketProofs.IntervalBound` | middleware/tokenbucket.go:60-68 | Over any closed interval of any run the machine grants a peer at most burst + rate * length / window, with or without eviction |
| `TokenBucketProofs.RefillWaitBounds` | middleware/tokenbucket.go:178-191 | The wait is a whole number of milliseconds and exceeds the exact refill time by more than 0.5 ms and at most 1.5 ms |
| `TokenBucketProofs.RefillWaitUnique` | middleware/tokenbucket.go:190 | Only one whole number of milliseconds lies within those margins, so they determine the wait |
| `TokenBucketProofs.RefillWaitZero` | middleware/tokenbucket.go:182-185 | No wait is reported if and only if nothing is missing or nothing is refilled |
| `TokenBucketProofs.WaitMonotoneInCost` | middleware/tokenbucket.go:171-173 | A larger affordable request is also rejected and never told a shorter wait |
| `TokenBucketProofs.RetryAdviceSound` | middleware/tokenbucket.go:132-176 | Repeating a rejected request after its reported wait is admitted, whatever evictions, other peers' requests and rejected requests of the same peer come in between |
| `TokenBucketProofs.RetryAdviceTight` | middleware/tokenbucket.go:171-191 | Given what the machine has granted, the request fits from half a millisecond before the advised instant on and at no instant more than 1.5 ms before it |
| `TokenBucketProofs.ZeroWaitIffHopeless` | middleware/tokenbucket.go:143-150 | A rejection reports 0 if and only if no later instant could admit the request, if and only if it costs more than burst |
| `TokenBucketProofs.DualSidesIndependent` | middleware/tokenbucket.go:279-287 | Each side of a dual limiter is in the state of a single bucket that saw only that side's events |
| `TokenBucketProofs.ErrorIsHonest` | middleware/ratelimit_middleware.go:11-20 | The plain sentinel is returned only when waiting cannot help; an error that names a wait names the verdict's own, after which the request fits |
| `TokenBucketImpl.Bucket.constructor` | middleware/tokenbucket.go:92-117 | A rate of zero or less is unlimited; a missing window is a minute, a missing burst is the rate |
| `TokenBucketImpl.Bucket.AllowNWithRetry` | middleware/tokenbucket.go:139-176 | The object takes the machine's request step and reports its verdict; an unlimited bucket admits everything and keeps no state |
| `TokenBucketImpl.Bucket.EvictShard` | middleware/tokenbucket.go:239-249 | Deleting while ranging over a shard performs the machine's sweep step |
| `TokenBucketImpl.Bucket.EvictIdle` | middleware/tokenbucket.go:236-251 | One undisturbed pass sweeps every shard with the same clock value |
| `TokenBucketImpl.Bucket.TrackedPeers` | middleware/tokenbucket.go:195-207 | The sum of the shard sizes is the number of peers in the flat map the shards represent; zero when unlimited |
| `TokenBucketImpl.DualBucket.constructor` | middleware/tokenbucket.go:261-266 | Two distinct, empty buckets under the same hash, each with its own rate and burst |
| `TokenBucketImpl.DualBucket.AllowNWithRetry` | middleware/tokenbucket.go:282-287 | The side named by isWrite takes the step and reports its own wait; the other side is not touched |
| `SlidingWindow.WindowExact` | middleware/ratelimit.go:53-85 | In every run, for any hash and with or without stale prunings, n units are allowed if and only if n is zero or less or at most max - n of the units the machine has allowed that peer are younger than the window |
| `SlidingWindow.GrantedIsLog` | middleware/ratelimit.go:53-85 | What the pruned, sharded machine allows a peer over a whole run is exactly what counting a never pruned log would allow |
| `SlidingWindow.HistoryMatchesLog` | middleware/ratelimit.go:64-84 | The pruned history and the full log agree on what every window a later request can see still holds |
| `SlidingWindow.NonInterference` | middleware/ratelimit.go:59-67 | A decision is that of a private, never pruned limiter under any hash, fed only that peer's requests |
| `SlidingWindow.WindowBound` | middleware/ratelimit.go:32-33 | In every half-open interval one window long of any run the machine allows a peer at most max units |
| `SlidingWindow.HistoryTrimmed` | middleware/ratelimit.go:64-84 | After a request is decided, the history is exactly what the window still held of everything allowed, plus what was just allowed; nothing older survives, allowed or not |
| `SlidingWindow.HistoryBound` | middleware/ratelimit.go:75-84 | No history ever holds more than max timestamps, however the clock runs |
| `SlidingWindow.KeptIffRecent` | middleware/ratelimit.go:114-128 | A cleanup pass keeps a peer if and only if it was allowed something within the window that ends at the pass's clock |
| `SlidingWindowImpl.Compact` | middleware/ratelimit.go:67-73 | Filtering a slice into the array it is read from equals a pure filter of its old contents |
| `SlidingWindowImpl.AppendCopies` | middleware/ratelimit.go:80-82 | Appending n timestamps, in place or into a new array, extends the contents by exactly n copies |
| `SlidingWindowImpl.ServeSlice` | middleware/ratelimit.go:68-84 | Compacting, deciding and appending all n or none, in place, computes the pure decision and history |
| `SlidingWindowImpl.WindowShard.AllowN` | middleware/ratelimit.go:55-85 | The shard's contents and the answer are those of the machine's step; no other peer's history changes |
| `SlidingWindowImpl.WindowShard.Cleanup` | middleware/ratelimit.go:114-128 | The pass prunes every history in its own array and deletes exactly the keys left empty |
| `Frames.Uint32RoundTrip` | codec/frame.go:78 | Reading a written length gives it back |
| `Frames.PutUint32RoundTrip` | codec/frame.go:137 | Writing a length read from four bytes gives those bytes back |
| `Frames.Uint32Denotes` | codec/frame.go:137 | A length is the number its four bytes denote in base 256, the first byte weighing most |
| `Frames.PutUint32Ordered` | codec/frame.go:78 | Greater lengths have lexicographically greater encodings |
| `Frames.FrameLayout` | codec/frame.go:72-93 | A frame is four bytes that denote the payload's length, at most 10 MiB, and then the payload |
| `Frames.FrameRoundTrip` | codec/frame.go:72-93 | A written payload is read back whatever follows it, except that the empty payload is refused |
| `Frames.ReadIsInverse` | codec/frame.go:130-145 | The bytes consumed by a successful read are the encoding of its result, whose length is 1 to 10 MiB |
| `Frames.ReadClassifies` | codec/frame.go:130-176 | For every stream: the frame read is the one the stream starts with, and each error names the reason there is none |
| `Frames.ReadIsDetermined` | codec/frame.go:130-176 | Conversely a stream that starts with a frame, is a cut frame or declares a refused length yields exactly that outcome |
| `Frames.CutFrame` | codec/frame.go:130-176 | A frame cut anywhere yields an error and no frame |
| `Frames.StreamRoundTrip` | codec/frame.go:55-93 | Any list of payloads is read back up to the first empty one, and in full if and only if none is empty |
| `Frames.TruncatedStream` | codec/frame.go:130-176 | A truncated stream yields exactly the frames wholly inside it and then an end-of-stream error |
| `TimedRead.TimedReadIsSound` | codec/frame.go:55-61 | Whatever the timing, a frame that is read is the one the bytes spell |
| `TimedRead.UntimedReadIsExact` | codec/frame.go:44-61 | Without a deadline, the result, the error and the bytes consumed are those of parsing the whole stream |
| `TimedRead.FailedRead` | codec/frame.go:149-158 | A read that fails gives up when the stream ends or its deadline passes, and has consumed exactly the bytes asked for that had arrived |
| `TimedRead.ChunkCount` | codec/frame.go:149-176 | A body is read in its length over 64 KiB, rounded up, chunks |
| `TimedRead.IdleTimeBound` | codec/frame.go:50-61 | With an idle timeout a read ends within idle * (1 + number of 64 KiB chunks), so within 161 * idle, in success and in failure |
| `TimedRead.ServedIffPunctual` | codec/frame.go:50-54 | A frame is read if and only if the prefix arrives within idle and each chunk within idle of the one before it |
| `FrameReader.Conn.ArmRead` | codec/frame.go:178-185 | The deadline is refreshed only for a positive idle and a reader that supports it |
| `FrameReader.Conn.ReadFrameLength` | codec/frame.go:130-145 | Reads the prefix and refuses zero and oversized lengths, as the timed specification says |
| `FrameReader.Conn.ReadBodyInto` | codec/frame.go:149-158 | The chunk loop fills the buffer with exactly the next bytes of the stream or fails where the specification fails |
| `FrameReader.Conn.ReadLargeBody` | codec/frame.go:163-176 | The growing buffer ends up holding exactly the next bytes of the stream, or fails likewise |
| `FrameReader.Conn.ReadFrameWithTimeout` | codec/frame.go:55-61 | Equals the timed specification in result, error and stream position |
| `FrameReader.ReadFramePooled` | codec/frame.go:95-128 | Succeeds on the same streams as the plain read with the same payload and position, whatever recycled buffers held; on success the caller and nobody else holds a buffer of the payload's tier and can release it; on failure no buffer stays out and every pooled array is pooled again; a hit is counted exactly for lengths that fit a tier |
| `FrameReader.ReadUnpooledBody` | codec/frame.go:114-120 | A frame above the largest tier is read into an array of its own; the pool's bags do not change |
| `FrameReader.ReadPooledBody` | codec/frame.go:122-127 | The pooled part alone: same bytes as the plain body loop, buffer released on failure |
| `BufferPool.TierFor` | codec/pool.go:85-106 | The chosen tier is the smallest that fits; none if and only if the size exceeds the largest |
| `BufferPool.Pool.Get` | codec/pool.go:81-109 | A buffer of exactly the requested size whose array nobody else holds, recycled when the tier offers one; counts a hit or a miss |
| `BufferPool.Pool.Release` | codec/pool.go:61-77 | The first release returns the array to its tier, later ones do nothing |
| `BufferPool.Pool.Lose` | codec/pool.go:18-26 | Losing a pooled array keeps the invariant |
| `PoolProtocol.OwnershipSafe` | codec/pool.go:47-109 | In every interleaving of gets, concurrent repeated releases and losses: unreleased buffers never share an array, an unreleased buffer's array is not pooled, arrays are pooled once and only in the tier of their size, and no buffer returns its array twice |
| `PoolProtocol.ArraysConserved` | codec/pool.go:47-109 | In every interleaving an array of a tier's size that the runtime has not dropped is in a bag or owned by one buffer, never both; a release under way can always be finished |
| `PoolProtocol.ArrayRecycled` | codec/pool.go:81-109 | A run in which a released array serves the next buffer |
| `ResponseWriter.Writer.WriteFrame` | codec/frame.go:72-93 | On any failing stream the chunk loop sends the longest prefix of the encoding the stream accepts; an oversized payload sends nothing |
| `ResponseWriter.SliceIterator.Next` | codec_middleware.go:68-78 | Yields the marshalled item at the index and moves on, failed items included, and then the end |
| `ResponseWriter.ScriptItems` | codec_middleware.go:68-78 | The iterator's results are its items, marshalled one by one and in order |
| `ResponseWriter.WriteResponse` | codec_iface.go:57-77 | The loop sends what the response specification says and leaves the error it says, and terminates on the items remaining |
| `ResponseWriter.WriteSingle` | codec_iface.go:79-90 | One result puts on the stream what a one-result script would, and no failure sets Err |
| `ResponseWriter.ResponseWire` | codec_iface.go:44-48 | The bytes sent encode the frames before the first failure, plus a proper prefix of one more only if the stream failed inside it; an iterator failure or an oversized frame N leaves exactly frames 0 to N-1 |
| `ResponseWriter.ClientDecodes` | codec_iface.go:44-48 | Of a list of items a client reads, in order, exactly the marshalled payloads sent in full before the first empty one, and the response ends early only because an item fails to marshal, is too large or no longer fits the stream |
| `ResponseWriter.ScriptDecodes` | codec_iface.go:44-48 | The same for any iterator, by its results |
| `Middleware.BuildChain` | middleware/router.go:72-87 | The closure built backwards in a loop means the guarded run of the middleware in order |
| `Middleware.RunIsChain` | pipeline.go:104-112 | Running by index equals the chain of the middleware with an empty next |
| `Middleware.PipelineFlattens` | middleware/router.go:69-87 | In a pipeline, a Chain can always be replaced by its middleware, for all bodies and contexts |
| `Middleware.FlattensIff` | middleware/router.go:78-83 | A nested Chain flattens for all contexts if and only if it or what follows it is not empty, or the outer continuation is guarded by Err |
| `Middleware.FlatteningCanFail` | middleware/router.go:78-83 | A concrete continuation and context for which an empty nested Chain does not flatten |
| `Middleware.ErrGuardsEveryBody` | pipeline.go:104-112 | In every run no body, chained and routed ones included, is entered while Err is set, and bodies entered inside a body are left before it |
| `Middleware.RecoveryContains` | middleware/recovery.go:12-24 | With Recovery outermost no panic escapes, and the pipeline ends as without it except that a panic becomes ErrPanic |
| `Middleware.WrapperRuns` | pipeline.go:104-112 | A body that works before and after next runs its first part, the rest of the pipeline, and its second part unless the rest panicked |
| `Middleware.BranchRuns` | pipeline.go:104-112 | A body that branches runs as the branch its context selects |
| `Middleware.PanicRuns` | pipeline.go:104-112 | A body that panics ends the pipeline there |
| `Middleware.RepeatRuns` | pipeline.go:104-112 | A body that calls next in a loop runs the rest of the pipeline that often, until a run panics |
| `Middleware.RouterIsSubstitution` | middleware/router.go:30-66 | A router anywhere in a pipeline, reached in any context, is the pipeline with the routed handler in its place, run between the router's own entry and exit with the operation recorded; without a route the error is set, nothing is recorded and nothing behind the router runs |
| `Middleware.RouterAtHead` | middleware/router.go:30-66 | The same for a router at the head of a pipeline |
| `Middleware.OperationBounded` | context.go:67-74 | The operation recorded is empty or a name of some routing table, however routers nest |
| `StreamHandling.CleanupComplete` | pipeline.go:60-93 | Unwinding the deferred calls of a finished stream counted it, released the buffer the middleware left, stopped the hook, closed, cancelled and reported done, once each and in that order, however the middleware ended; a stream that panicked when asked for its peer only cancelled and reported; a panic leaves HandleStream if and only if the middleware, RemotePeer or Close raised one |
| `StreamHandling.StartPromises` | pipeline.go:60-93 | The order of the effects follows from running the body and unwinding its stack of deferred calls innermost first |
| `StreamHandling.ResetExactly` | pipeline.go:69-91 | Reset is issued only if the deadline passed before the hook was stopped or RemotePeer panicked, and in a finished stream the hook has been set off exactly in those cases |
| `StreamHandling.NoTimeoutNoDeadline` | pipeline.go:97-102 | Without a request timeout no deadline passes and a stream is reset only if RemotePeer panicked |
| `StreamHandling.CanExpireIff` | pipeline.go:97-102 | The deadline can pass if and only if there is a request timeout, the context exists, and it is neither cancelled nor expired |
| `StreamHandling.BlockedStreamIsReset` | pipeline.go:69-73 | With a request timeout a stream whose middleware is blocked can always be reset without a step of its own |
| `StreamHandling.StreamFinishes` | pipeline.go:60-93 | From every state a stream finishes by its own steps alone, within a bound |
| `StreamHandling.RankAtStart` | pipeline.go:60-93 | That bound is 41 steps from the start |
| `StreamHandling.ResetWithoutDeadline` | pipeline.go:66-77 | A run without any deadline in which a panic before the cleanup is deferred resets the stream |
| `StreamHandling.RecoveredStreamReturns` | middleware/recovery.go:12-24 | With Recovery outermost and a sound stream no middleware makes HandleStream panic |
| `StreamHandling.WaitGroupCounts` | pipeline.go:61-64 | The WaitGroup is the number of streams in flight; a drain that sees zero sees only streams that have done nothing yet or all they will do |
| `Topics.MutualExclusion` | node/node.go:166-170 | At most one thread is in a topic's critical section, although every caller offers a mutex of its own |
| `Topics.MapsAgree` | node/node.go:156-216 | Whenever no thread is in a topic's critical section, the topic is in topics if and only if it is in subs, and pubsub has it open if and only if it is in topics or was left open by a failed Subscribe or Close |
| `Topics.DoubleJoinIffLeftOpen` | node/node.go:172-185 | Join is called on a topic pubsub has open if and only if an earlier step was a failing Subscribe or Close of it and no Join of it has succeeded since |
| `Topics.NoDoubleJoin` | node/node.go:172-188 | While Subscribe and Close of a topic succeed, Join is never called for it when it is open |
| `Topics.RetryAfterFailedSubscribe` | node/node.go:177-185 | A run in which a failed Subscribe makes the retry call Join on an open topic |
| `Topics.PublishFindsJoined` | node/node.go:218-226 | After a JoinTopic has returned nil, with no LeaveTopic of the name running since it began, Publish finds the topic |
| `TopicAnswers.LeavingLeaves` | node/node.go:198-216 | Once a LeaveTopic has returned and as long as no JoinTopic of the name runs, the topic is in neither map, and pubsub has it open if and only if a failed Subscribe or Close left it so |
| `TopicAnswers.LeaveClears` | node/node.go:204-211 | Whenever a LeaveTopic is about to unlock, the topic is in neither map, whatever else runs |
| `TopicAnswers.PublishAfterLeave` | node/node.go:218-222 | Publish then reports a topic that is not joined |
| `TopicAnswers.JoinThenLeave` | node/node.go:194-197 | A run in which LeaveTopic undoes JoinTopic |
| `TopicAnswers.JoinAnswers` | node/node.go:156-192 | JoinTopic returns an error if and only if the Join or Subscribe it made failed |
| `TopicAnswers.LeaveAnswers` | node/node.go:198-216 | LeaveTopic returns an error if and only if the Close it made failed |
| `TopicAnswers.PublishIffStands` | node/node.go:218-226 | Publish finds a topic if and only if a JoinTopic stored it and no LeaveTopic has removed it since |
| `TopicAnswers.SubscribeIffStands` | node/node.go:228-235 | Subscribe returns a subscription if and only if a JoinTopic stored it and no LeaveTopic has removed it since |
| `TopicAnswers.NoDeadlock` | node/node.go:166-170 | A thread inside a call can take its next step, whatever pubsub answers, or waits for a mutex whose holder can |
| `Topics.SubscribeFindsUnlessStoring` | node/node.go:228-235 | Under the same conditions Subscribe finds the subscription if and only if no thread is between storing the topic and storing the subscription |
| `Topics.SubscribeCanMiss` | node/node.go:187-188 | A run without any LeaveTopic in which JoinTopic has returned nil and Subscribe finds nothing |

## Left out

- Float64 rounding in the token bucket: levels are exact, and waits are assumed to fit a 64-bit duration.
- The hash function, `time.Now`, goroutine start-up, tickers and `Close` of the limiters: the hash is any function, clocks are parameters, passes may happen at any time.
- `SingleBucket` as 64 shard objects and `DualBucket`: the shard object is modelled; choosing a shard or a side adds only dispatch already proved for the token bucket.
- SlidingWindowImpl.AppendCopies: the growth policy of `append` is not modelled; the spare capacity of a new array is a parameter.
- FrameReader.Conn.ReadLargeBody: builds the growing buffer as a value, so its heap sizes are not modelled.
- Writers are modelled by how many bytes they accept before the first failure; write deadlines only decide when that is.
- A peer that never sends, never closes and is read without a deadline: reads end at the latest when the peer closes or resets.
- ResponseWriter.WriteResponse: iterators that never end are not modelled; any other iterator is a `SliceIterator` over its own results.
- Update in place of `HandleStream`, `JoinTopic` and `LeaveTopic`: they are transition systems on values, because what is proved of them is about interleavings.
- JSON parsing and marshalling: the router's parser and the iterator's codec are arbitrary functions.
- Deferred functions other than Recovery's in middleware bodies, goroutines started by a body, and panics inside recovery handlers.
- Panics in HandleStream other than those of the middleware, RemotePeer and Close, and a panic of the hook's own goroutine.
- A pooled buffer that middleware replaces in the context: only the buffer left there at the end is released by the cleanup.
- `FrameDecodeMiddleware`, `DeserializeMiddleware` and the rate-limit middleware themselves: they call modelled operations, set Err and call next.
- Joining without pubsub, the subscriptions' own contents, and `Node.Close`.
- `host/`, `service/`, `forge.go`, `config.go`, `registry.go`, `node/filter.go`: construction, option setters and short loops around code of other libraries.
