# oxide-http: a model of the request path

oxide-http is an HTTP server in Rust whose handlers run in JavaScript. Between the socket and
the handler sits a family of small state machines: a batched bridge between many Rust request
tasks and one JS thread, the JS lifecycle that must finish each request exactly once, an
overload limiter, a response cache, incremental parsers and readers, routing, an idle watchdog
and the folding of mounted sub-apps. This project models them and proves what they are for.

How the parts are modelled:

- **Concurrent parts** (`BridgeProtocol`, `LimiterProtocol`, `Lifecycle`, and `RequestPath`, which
  runs one lifecycle per ticket against the shared bridge) are step systems. An
  action is one atomic step of the code, a run is any finite sequence of enabled actions, and
  the theorems hold for every state of every run. User code is unconstrained: it may answer,
  throw, call `next` any number of times, take bodies or respond for arbitrary ids, or never
  settle. Clients may hang up at any moment.
- **Objects updated in place** (`BridgeCells.Bridge`, `LimiterCells.Limiter`,
  `ResponseCache.LeafCache`, `ResponseContext.OxideContext`, `ProxyProtocol.ByteStream` and
  `PrefixedIo`, `Multipart.BodyIo`, `IdleWatchdog.Activity`, `Mounts.Registry`) are classes.
  Each method is proved against the pure function that the step systems use for the same step.
- The rules that several results share (what a chain runs, what selects a cache entry, when a
  limit applies, what a handler's value becomes) are also stated in plain terms, without the
  functions that compute them.
- **Loops** (key building, body readers, decoder, multipart parser, `allowed_methods`,
  `watch_idle`, `#applyMounts`) are methods with invariants, proved against specifications that
  do not mention the loop.
- Everything outside is a parameter: the plan of read sizes of a connection, the frames of a
  body and which of them are late, the chunks the form parser yields, the route trees, the body
  hash, the clock readings, the order in which a hash map is walked, the entry an eviction picks.

Where the source does not keep a property on all inputs, the model keeps the code as it is and
states the exact condition:

- a wait dropped at the limiter's await is never subtracted from `queued`, so each one shrinks
  the usable queue for good (`DepthExactIff`, `QueueDies`, `DroppedWaitLeaks`);
- a request timeout does not bound the time to an answer: preSerialization and onSend hooks run
  outside the race (js/index.ts:1016-1017) and an onTimeout hook is awaited without bound
  (js/pipeline.ts:187), so one that hangs can leave the request unanswered (`AlwaysAnsweredIff`,
  with the runs `HangsAfterRace` and `HangsInRace`);
- a PROXY v1 line of 109 to 363 bytes is accepted or refused depending on how the reads split
  (`IndependentIff`, `LongV1Exists`);
- a handler answer whose only invalid header is its request-id header is answered 500 directly
  but 200 from the cache (`ReplayEqualsDirect`, `ReplayCanDiffer`);
- a middleware scope `/` matches only the root of its own app (and paths that start with `//`),
  but everything of the sub-app once mounted (`MountPreservesScopeIff`);
- a `maxFiles` or `maxFields` of 2^32 or more is cut to 32 bits (src/lib.rs:796), 2^32 files to
  none at all (`CountSettingKeptIff`);
- all part objects of a form read from one channel: one that is read after the iterator moved on
  gets the bytes of the part announced last (`ReadBelongsIff`, `Collect`, `StaleObjectReadsOther`);
- on the native `BodyIo`, the first part of a form is announced exactly if `next_part` is called
  before any `read_part`: reading first swallows it (`FirstPartAnnouncedIff`,
  `ReadFirstLosesPart`). The part iterator always announces first (js/context.ts:374-381);
- a request is overwritten in `pending` if its 32-bit id comes round again while it is still
  open (`InsertDropsIff`, `NothingDroppedWithoutWrap`, and the run `WrapDrops`); and code of a
  finished request that first asks for its body when its id is in use again takes the body of
  the other request (`LateTakeBody`, and the run `LateFetchTakesOther`).

The streamed body reader and the multipart parser saturate their byte counters at 2^64 - 1,
which would matter only for that very limit. It is out of reach: limits are set as signed 64-bit numbers (src/lib.rs:566, 795), and
`ReadersAgree` and `SettingsBound` hold under every setting.

Two comments in the source say more than the code does, and the model follows the code: the
limiter's counter is not the current queue depth (src/overload.rs:35) once a waiting future was
dropped, and a cache hit for `QUERY` (src/server.rs:1062-1064) shows only that an answer to a
body with the same 64-bit hash was stored.

## Model

| member | source | states |
|---|---|---|
| `BridgeProtocol.NoLostWakeup` | src/bridge.rs:118-135 | In every state of every interleaving of any number of producers with the drain loop, a non-empty queue means that some producer still owes a ring, a doorbell call is outstanding, or JS is inside the loop with a `takeBatch` to come |
| `BridgeProtocol.ExactlyOnceFifo` | src/bridge.rs:118-135 | The batches taken so far followed by the queue are exactly the pushes in order, and no ticket occurs twice |
| `BridgeProtocol.TicketConservation` | src/bridge.rs:111-160 | The pending ids are exactly the ids of the tickets registered and neither answered nor overwritten, whether or not their clients disconnected, and each entry belongs to its ticket; queued tickets were registered first; no body is handed out twice |
| `BridgeProtocol.RespondAnswersTicket` | src/bridge.rs:155-159 | In every state of every run a `respond` for the id of an open ticket completes that ticket and no other |
| `BridgeProtocol.ClientsReceive` | src/bridge.rs:153-159 | Every client receives exactly what its own ticket was completed with, and a client that received nothing of a completed ticket had disconnected |
| `BridgeProtocol.GoneReceiveNothing` | src/server.rs:1158-1184 | A client that disconnected before its answer never receives one, in any continuation of the run |
| `BridgeProtocol.LateTakeBody` | src/bridge.rs:138-151 | Asking for the body of a finished ticket changes nothing, unless its id is in use again with the body there: then it takes exactly that other ticket's body |
| `BridgeProtocol.LateFetchTakesOther` | src/bridge.rs:138-151 | A run in which a late fetch takes the body of the ticket that reuses the id |
| `BridgeProtocol.DecidedOnce` | src/bridge.rs:138-159 | Once a completion channel is decided its outcome never changes and its body is never handed out again, over the rest of the run |
| `BridgeProtocol.RespondIdempotent` | src/bridge.rs:153-159 | A second `respond` for the same id changes nothing, whatever it carries |
| `BridgeProtocol.InsertDropsIff` | src/bridge.rs:111-119 | Registering a ticket loses an open one exactly if that one is registered under the same truncated id |
| `BridgeProtocol.NothingDroppedWithoutWrap` | src/bridge.rs:111-119 | If no ticket stays open across a 2^32 id wrap, no ticket is ever lost |
| `BridgeProtocol.WrapDrops` | src/bridge.rs:111-119 | A run in which a ticket is lost: 2^32 + 1 tickets, of which the first and the last register |
| `BridgeProtocol.RankFalls` | js/index.ts:938-944 | Every delivering step lowers a rank over owed rings, doorbells, queue and batch; answering and hanging up leave it alone |
| `BridgeProtocol.StuckMeansDelivered` | js/index.ts:935-944 | When no delivering step is left, JS is idle, the queue is empty and every issued ticket was taken exactly once |
| `BridgeProtocol.DrainsWithoutArrivals` | js/index.ts:935-944 | Without arrivals every run makes at most rank many delivering steps, and one that cannot continue has delivered everything exactly once |
| `BridgeProtocol.PositiveRankMoves` | js/index.ts:935-944 | While the rank is positive some delivering step is enabled: the drain cannot stall |
| `BridgeCells.Bridge.NextReqId` | src/bridge.rs:111-113 | Returns the old counter and wraps at 2^32 |
| `BridgeCells.Bridge.Enqueue` | src/bridge.rs:118-130 | Insert, push, and a ring exactly if the queue was found empty: the composition of the three atomic steps of the protocol |
| `BridgeCells.Bridge.TakeBatch` | src/bridge.rs:133-135 | Returns the whole queue in order and leaves it empty |
| `BridgeCells.Bridge.TakeBodyParts` | src/bridge.rs:138-151 | Hands out the body of the entry's owner if it is still there, and marks it gone |
| `BridgeCells.Bridge.Complete` | src/bridge.rs:155-159 | Fires the owner's sender iff the id is pending, and removes the entry |
| `BridgeCells.Bridge.DrainBatch` | js/index.ts:938-944 | With arbitrary arrivals before each `takeBatch`, delivers the backlog and every arrival up to the first empty batch, in order, and leaves the queue empty |
| `Lifecycle.RespondsOnce` | js/index.ts:946-1039 | In every state of every run at most one `respond` has taken effect, exactly one once the dispatch is over, and a streamed answer had fetched its body bridge before |
| `Lifecycle.SendDelivers` | js/context.ts:846-861 | Sending always finds the body bridge; only values refused by the native layer lead to the last-resort 500, which is then still the one effective answer |
| `Lifecycle.LatchHolds` | js/pipeline.ts:170-198 | Once the context is fixed, no later core result, hook or stray mutation changes the draft, and what was or will be sent is that draft or the last resort |
| `Lifecycle.TimeoutAnswers504` | js/pipeline.ts:177-197 | A timeout that finds nothing finalized fixes the answer: whatever late code does, only the 504 text or the last resort is ever sent |
| `Lifecycle.LastResortMeansRefused` | js/index.ts:946-958 | The last-resort guard answers only after the native layer refused a response, never for want of a body bridge or after a failing hook |
| `Lifecycle.OnionDiscipline` | js/pipeline.ts:107-121 | For adversarial middleware the entered positions are 0, 1, ... in order, each at most once, the handler last, and a `next` is refused iff its position was entered |
| `Lifecycle.RankFalls` | js/pipeline.ts:129-198 | Every library step and every settling of awaited code lowers a rank; mutations, body fetches and `next` calls leave it alone |
| `Lifecycle.RestsAnsweredIff` | js/pipeline.ts:147-198 | With any kinds of user code hanging, a resting request has its one answer iff it is neither in the race nor at a hook after it; the race needs a hanging core and no timeout, or a hanging onTimeout hook as well |
| `Lifecycle.AlwaysAnsweredIff` | js/index.ts:1006-1030 | For a configuration and the kinds of code that may hang: every resting run is answered iff no hook after the race may hang and, if the core may, a timeout is configured whose hooks may not |
| `Lifecycle.HangsInRace` | js/pipeline.ts:177-197 | A run that rests unanswered in the race |
| `Lifecycle.HangsAfterRace` | js/index.ts:1006-1017 | A run that rests unanswered at a hook after the race, whatever the timeout |
| `Lifecycle.FinishedExactlyOnce` | js/index.ts:946-1039 | Every run makes at most rank many progress steps, and one that cannot progress has answered exactly once, unless hanging code can prevent it, and finished, unless an observer hangs |
| `Lifecycle.InvAlong` | js/pipeline.ts:129-198 | The combined invariant of coroutine positions, onion and answer holds along every run |
| `LifecycleAnswers.HandlerAnswers` | js/context.ts:837-843 | Over every run, what a handler returns with nothing answered before is what the client gets, or the last resort: a string as that text with the text content type, a stream as a stream, another value as its JSON text (stripped if its status has a schema) with the JSON content type, under the status and headers set before; only user mutations and a middleware's exception can change it, no timer, hook or late handler |
| `LifecycleAnswers.NothingChangesNothing` | js/context.ts:837-843 | A handler that returns nothing, or after something was answered, leaves the context as it is |
| `LifecycleAnswers.ErrorAnswers` | js/pipeline.ts:124-144 | A failure nobody handles, wherever thrown, is answered with the error's own status and message, or 500 and the internal error text, over every continuation without user mutations |
| `LifecycleAnswers.ErrorReachesHooks` | js/pipeline.ts:129-144 | With onError hooks a thrown error goes to the first one unanswered and from each that settles to the next |
| `LifecycleAnswers.HooksInOrder` | js/pipeline.ts:93-104 | In each of the five kinds of stage the hooks run in order, each at most once, none skipped and none before its stage; the handler or the onion is reached only after all "before" hooks |
| `LifecycleAnswers.AllHooksRan` | js/index.ts:1015-1039 | When the timeout closes, the response is sent or the dispatch ends, every hook of the stage that ends has run, unless one of them failed |
| `LifecycleAnswers.FirstAnswerStops` | js/pipeline.ts:94-99 | A "before" hook ends the chain iff something was answered by then; otherwise the next hook, the bare handler or the onion follows |
| `LifecycleAnswers.DecidedIsSent` | js/pipeline.ts:147-198 | An answer finalized past the handler is the one that is sent |
| `RequestPath.EveryRequestServed` | js/index.ts:938-1039 | Bridge and lifecycles together, any interleaving of producers, drain loop, all lifecycles and disconnects: if no id wraps round onto an open ticket and no late code asks for a body under a reused id, at rest every request issued was delivered to JS, answered once and completed with that very answer, which its client received unless it disconnected, except where its chain lets hanging code keep it |
| `RequestPath.InvAlong` | js/index.ts:938-1039 | Along every such run each native entry agrees with the lifecycle of its ticket on pending, body and answer, and exactly the tickets taken and dispatched have begun |
| `RequestPath.NativeEffect` | src/bridge.rs:138-159 | The native calls of one lifecycle step move only the entry of its own ticket |
| `RequestPath.ComesToRest` | js/index.ts:938-1039 | Without new requests the whole system makes at most rank many progress steps |
| `ResponseContext.LastBodyWins` | js/context.ts:787-817 | After any sequence of mutators the answer's body (up to stripping) or stream is that of the last finalizing call, with no trace of earlier ones |
| `ResponseContext.LastStatusWins` | js/context.ts:773-817 | The status is the last one set, by a status call or a finalizing call |
| `ResponseContext.CookiesAccumulate` | js/context.ts:781-784 | After any sequence of mutators that does not overwrite the header the cookies are the earlier ones and all those added, in order |
| `ResponseContext.LastHeaderWins` | js/context.ts:777-804 | Any other header has the last value set under its lower-cased name, the content types of `json` and `text` included |
| `ResponseContext.UnsetHeaderStays` | js/context.ts:777-804 | A header that is not set keeps its values |
| `ResponseContext.Unlatched` | js/context.ts:772-817 | A fixed context never changes; otherwise it is finalized iff it was or some call finalized it |
| `ResponseContext.OxideContext.Status` | js/context.ts:773-776 | Sets the status unless the context is fixed |
| `ResponseContext.OxideContext.Header` | js/context.ts:777-780 | Sets the lower-cased header to one value unless the context is fixed |
| `ResponseContext.OxideContext.Cookie` | js/context.ts:781-784 | Appends to the cookies unless the context is fixed |
| `ResponseContext.OxideContext.WriteJson` | js/context.ts:787-795 | Replaces content type, body and any stream, keeps the status unless one is given, and finalizes, unless fixed; a value without a JSON text leaves no body, and one that cannot be serialized throws after the content type is set |
| `ResponseContext.OxideContext.WriteText` | js/context.ts:796-804 | Likewise for text |
| `ResponseContext.OxideContext.WriteStream` | js/context.ts:805-817 | The stream branch of `body`: replaces the body by the stream and finalizes, unless fixed |
| `ResponseContext.OxideContext.Redirect` | js/context.ts:818-820 | Three mutators in sequence; before the latch the native answer has that status and is not streamed |
| `ResponseContext.OxideContext.BuildNative` | js/context.ts:846-881 | Fixes the context without changing the draft and reduces it: status 200 by default, no body when streamed, otherwise the body stripped by the schema of that status iff it is JSON |
| `ResponseContext.TextNotJson` | js/context.ts:864-871 | A text answer is never stripped |
| `ResponseContext.JsonIsJson` | js/context.ts:864-871 | A JSON answer is stripped wherever its status has a schema |
| `ResponseContext.OxideContext.StripResponse` | js/context.ts:864-881 | Strips exactly a body that is there, under a status with a schema and a JSON content type |
| `LimiterProtocol.LimiterBounds` | src/overload.rs:67-110 | In every state of every interleaving, permits held plus free are `max_concurrent`, requests waiting stay within `max_queue` minus the dropped waits, and `queued` is waiting plus leaving plus rolling back plus dropped |
| `LimiterProtocol.DepthExactIff` | src/overload.rs:90-102 | `queued` is the true depth iff no wait was ever dropped |
| `LimiterProtocol.NoUnderflow` | src/overload.rs:92-102 | Neither decrement of `queued` ever meets zero |
| `LimiterProtocol.QueueDies` | src/overload.rs:90-102 | After `max_queue` dropped waits nobody ever waits again, in any continuation of the run |
| `LimiterProtocol.DroppedWaitLeaks` | src/overload.rs:90-102 | A concrete run with one permit and one place that ends with every permit free, nobody waiting and `queued` at 1 |
| `LimiterProtocol.ShedIffStreakLong` | src/overload.rs:113-141 | `should_shed` is true iff the first mark after the last clear lies at least the threshold back, millisecond zero counting as one |
| `LimiterProtocol.ShedMeansNoRecentClear` | src/overload.rs:113-141 | Shedding implies that no clear happened within the last `shed_after` milliseconds |
| `LimiterProtocol.ShedUntilClear` | src/overload.rs:113-141 | Shedding and its origin persist until the next clear |
| `LimiterProtocol.StreakSheds` | src/overload.rs:113-123 | A streak nobody clears sheds as soon as the threshold has passed since its origin, and not before |
| `LimiterProtocol.FastPath` | src/overload.rs:67-74 | With a free permit two steps take it and end the streak |
| `LimiterProtocol.SlowPath` | src/overload.rs:82-102 | Without one the streak is marked, and the request waits iff there is a place, else it is turned away with its count taken back |
| `LimiterProtocol.EndOfWait` | src/overload.rs:100-110 | Whatever others did meanwhile, the end of a wait takes the count back and holds the permit or turns the request away |
| `LimiterCells.Limiter.MarkSaturated` | src/overload.rs:126-136 | Sets the origin to at least 1 only if there is none |
| `LimiterCells.Limiter.ClearSaturation` | src/overload.rs:139-141 | Forgets the origin and nothing else |
| `LimiterCells.Limiter.Shed` | src/overload.rs:113-123 | Decides shedding with a saturating difference |
| `LimiterCells.Limiter.Acquire` | src/overload.rs:67-110 | The whole new state on each path, with arbitrary interference during the await: fast path, refusal of a full queue, permit in time, timeout |
| `CacheKey.BuildKey` | src/cache.rs:65-94 | The buffer-appending loops yield the newline-separated fields of the request |
| `CacheKey.AppendValues` | src/cache.rs:84-87 | All values of one header, in order, each closed by 0x1f |
| `CacheKey.KeyInjective` | src/cache.rs:65-94 | With no newline in a component and no 0x1f in a vary value, two keys are equal iff method, path, query, the ordered values of every vary header and the body hash are |
| `CacheKey.FieldsInjective` | src/cache.rs:65-94 | The field list determines the request's variant, body hash present or absent included |
| `CacheKey.TerminatedInjective` | src/cache.rs:81-88 | Separator-terminated concatenation is injective on items free of the separator |
| `CacheKey.HexInjective` | src/cache.rs:89-92 | Fixed-width hexadecimal printing is injective |
| `ResponseCache.LeafCache.Lookup` | src/cache.rs:97-111 | Hits iff the key is present and unexpired, with the stored answer; removes an expired entry and changes nothing else |
| `ResponseCache.LeafCache.MaybeStore` | src/cache.rs:117-172 | Leaves the map alone for an ineligible answer, otherwise inserts the entry; the cap holds |
| `ResponseCache.LeafCache.StorableHeaders` | src/cache.rs:131-148 | Succeeds iff no header opts the response out, with the lower-cased headers but the request id |
| `ResponseCache.LeafCache.Insert` | src/cache.rs:157-171 | Inserts under the cap with the sweep and eviction of `Inserted` |
| `ResponseCache.LeafCache.Sweep` | src/cache.rs:159-169 | Keeps exactly the unexpired entries, minus one arbitrary entry iff that alone makes no room |
| `ResponseCache.LeafCache.Purge` | src/cache.rs:176-190 | Removes all entries or those of one path, and returns how many |
| `ResponseCache.InsertWithinCap` | src/cache.rs:157-171 | Every insert keeps the cap, stores the entry and alters no other |
| `ResponseCache.InsertDiscards` | src/cache.rs:157-171 | An insert costs an unexpired entry iff the map is full of unexpired ones, and then exactly one |
| `CacheHistory.IdealIsLatest` | src/cache.rs:97-190 | The unbounded map holds exactly the latest eligible store of each key not purged since |
| `CacheHistory.SimulatesUnbounded` | src/cache.rs:97-190 | After any history of stores, lookups, purges and arbitrary evictions the cap holds and the cache agrees with the unbounded map wherever it has an entry |
| `CacheHistory.HitIsLatestStore` | src/cache.rs:97-190 | A hit is the latest eligible store for its key, younger than `ttl`, with no matching purge since |
| `CacheHistory.NothingPrivateKept` | src/cache.rs:117-148 | Over every history each entry is a 200 within the size limit, carries no cookie and no `Cache-Control` with no-store or private |
| `CacheHistory.ExactUnlessCrowded` | src/cache.rs:157-171 | If no insert met a map full of unexpired entries, the cache hits iff the unbounded map holds an unexpired entry |
| `Replay.ReplayEqualsDirect` | src/server.rs:1406-1474 | For every eligible answer, store then replay equals the direct answer in status, body, HEAD content length and all headers but request id and `x-cache`, iff all its headers are valid or some header other than the request id is invalid |
| `Replay.ReplayCanDiffer` | src/server.rs:1406-1474 | The exception occurs: 500 directly, 200 from the cache |
| `Replay.KeptRest` | src/cache.rs:130-148 | The stored copy keeps every header but the request id, in order, up to lower-casing |
| `Replay.DirectAnswer` | src/server.rs:1438-1474 | The direct answer in full: status 200 by default, the handler's headers in order, the body or stream, no body for HEAD but the length of one that is not streamed; the fixed 500 for an invalid status or header |
| `Replay.ReplayedAnswer` | src/server.rs:1408-1436 | The replayed answer in full: the stored status, headers and body, plus the current request id and `x-cache: hit`, with the same rule for HEAD |
| `Replay.DecimalReads` | src/server.rs:1423-1429 | A printed length reads back as the length, in digits without leading zeros |
| `Replay.RestSelects` | src/server.rs:1408-1436 | What the comparison of answers looks at: every header but the request id and the marker, each as often and in the order it occurs |
| `Replay.TokenCharIff` | src/server.rs:1496-1501 | The characters of a header name are the visible ASCII ones but the delimiters (section 5.6.2 of RFC 9110) |
| `Replay.ValidHeaderIff` | src/server.rs:1496-1501 | A header is valid iff its name is a non-empty token and its value has no control character but the tab |
| `CachedDispatch.Serve` | src/server.rs:954-985 | One request through the cache: a hit iff a live entry has its key, replayed without touching the map; otherwise the handler's answer, stored iff eligible; methods other than GET, HEAD and QUERY never touch the cache |
| `CachedDispatch.AlikeIff` | src/server.rs:961-979 | Two requests select the same entry iff they agree on the effective method, path, query text, the ordered values of every vary header and, for QUERY, the body hash |
| `CachedDispatch.CacheableIff` | src/server.rs:961-965 | GET, HEAD, QUERY and HEAD served by GET go through the cache, nothing else |
| `CachedDispatch.ReplaysCurrentAnswer` | src/server.rs:1062-1167 | Over every history, a hit replays the answer given to the latest stored request that agrees on method, path, query, vary values and body hash, within its lifetime and with no purge of that path since; it equals what that answer itself would have shown, under the condition of `ReplayEqualsDirect` |
| `CachedDispatch.HitsWheneverCurrent` | src/server.rs:954-985 | Without crowding a request is served from the cache iff such an answer exists |
| `CachedDispatch.Session` | src/server.rs:954-1167 | A route's cache from the start, over every sequence of arriving requests, answers and purges, overlapping freely: each answer replayed is the current one at that moment and shows what the handler's answer would have, under the condition of `ReplayEqualsDirect` |
| `CachedDispatch.Perform` | src/server.rs:954-1167 | One such step extends the recorded history by exactly its operation and justifies its answer by the history before it |
| `ProxyProtocol.ChunkingIndependent` | src/proxy_protocol.rs:97-208 | However the reads split the stream, an accepted prefix gives the address and length the bytes alone determine, header plus bytes passed upstream are the stream, no accepted v1 header exceeds 363 bytes, and every v2 header and every v1 line up to 108 bytes that the bytes determine is accepted |
| `ProxyProtocol.IndependentIff` | src/proxy_protocol.rs:132-147 | The verdict is the same for all chunkings iff the stream does not start with a well-formed v1 line of 109 to 363 bytes, CRLF included |
| `ProxyProtocol.OneReadRefuses` | src/proxy_protocol.rs:137-147 | Any such line is refused when its first 108 bytes arrive together |
| `ProxyProtocol.TwoReadsAccept` | src/proxy_protocol.rs:137-147 | And accepted when 107 bytes and then 256 arrive |
| `ProxyProtocol.LongV1Exists` | src/proxy_protocol.rs:132-147 | Such lines exist, so the verdict does depend on the reads |
| `ProxyProtocol.V1RoundTrip` | src/proxy_protocol.rs:132-162 | Printing a v1 header of at most 107 bytes and parsing it returns the source token and passes the payload on, for all reads (section 2.1 of the PROXY protocol specification) |
| `ProxyProtocol.V2RoundTrip` | src/proxy_protocol.rs:165-204 | Likewise for v2 over IPv4 and IPv6, any TLVs included (section 2.2) |
| `ProxyProtocol.V1VerdictIs` | src/proxy_protocol.rs:149-159 | The verdict on every line, word by word: `PROXY TCP4` and `PROXY TCP6` carry the next word as the address if there is one, `PROXY UNKNOWN` is accepted without, anything else and anything not UTF-8 is refused |
| `ProxyProtocol.V2AddrIs` | src/proxy_protocol.rs:172-201 | No address for LOCAL, for other families and for short blocks, else the first four octets or eight big-endian segments |
| `ProxyProtocol.Utf8Iff` | src/proxy_protocol.rs:149 | A line is a text iff it is the encoding of some sequence of code points (section 3 of RFC 3629) |
| `ProxyProtocol.SignaturesAre` | src/proxy_protocol.rs:97-112 | The two signatures, spelled as text |
| `ProxyProtocol.ReadAtLeast` | src/proxy_protocol.rs:115-129 | Succeeds iff the stream has enough bytes, conserves them, and overshoots by less than one read buffer |
| `ProxyProtocol.CrlfFrom` | src/proxy_protocol.rs:206-208 | Finds the first CRLF or proves there is none |
| `ProxyProtocol.ScanV1Finds` | src/proxy_protocol.rs:136-147 | The v1 loop stops at the stream's first CRLF, conserving bytes, and always finds one that ends by byte 108 |
| `ProxyProtocol.ByteStream.FillTo` | src/proxy_protocol.rs:115-129 | The read loop computes `ReadAtLeast` |
| `ProxyProtocol.ByteStream.ScanLine` | src/proxy_protocol.rs:136-147 | The v1 read loop computes `ScanV1` |
| `ProxyProtocol.ByteStream.HeaderV1` | src/proxy_protocol.rs:132-162 | Accepts iff the pure parser does, with its address and leftover |
| `ProxyProtocol.ByteStream.HeaderV2` | src/proxy_protocol.rs:165-204 | Accepts iff the pure parser does, with its address and leftover |
| `ProxyProtocol.ByteStream.Header` | src/proxy_protocol.rs:97-112 | Tells the versions apart and returns the replaying stream |
| `ProxyProtocol.PrefixedIo.PollRead` | src/proxy_protocol.rs:50-67 | Takes from the front of leftover plus socket, and nothing only at the end or for a full buffer |
| `ProxyProtocol.PrefixedIo.ReadToEnd` | src/proxy_protocol.rs:50-67 | Reading to the end with any capacities yields exactly the leftover followed by the rest of the socket |
| `BodyReaders.ReadersAgree` | src/server.rs:1192-1291 | For every body and every `bodyLimit` setting both readers agree on bytes, error and metrics, forward nothing beyond a limit that is set, and accept exactly the bodies that arrive in full and within it; an absent or negative setting refuses nothing |
| `BodyReaders.ReadersAgreeIff` | src/server.rs:1192-1291 | The margin of the unsigned arithmetic: as functions of any 64-bit limit they agree iff not (limit 2^64 - 1, which no setting reaches, and more bytes than that) |
| `BodyReaders.AgreeFrom` | src/server.rs:1192-1291 | The same from any common point of the body on |
| `BodyReaders.HandlerSeesBuffered` | js/context.ts:213-238 | A handler that collects the stream under the server's limit gets exactly what the buffered route would give, bytes or error, on every body and for every 64-bit limit |
| `BodyReaders.BufferedOkIff` | src/server.rs:1261-1291 | Buffering succeeds iff the body arrives in full, in time and within the limit, and then returns all its data |
| `BodyReaders.ReadBodyTask` | src/server.rs:1192-1235 | Delivers exactly as many of the specified messages as the receiver accepts, and counts their data and that of the one whose sending fails |
| `BodyReaders.BufferBody` | src/server.rs:1261-1291 | Returns and counts what the specification says |
| `BodyReaders.CollectRaw` | js/context.ts:213-238 | 413 iff more than the limit arrives before a marker, otherwise the bytes or the marker's error |
| `BodyReaders.ReadBounded` | src/compress.rs:39-54 | Succeeds iff the decoder ends without error within the limit, with its full output, refuses as too large iff more than the limit comes out first, and never holds more than limit + 8192 bytes |
| `Multipart.ParseTask` | src/multipart.rs:41-138 | Sends exactly as much of the specified trace as the receiver accepts |
| `Multipart.StreamChunks` | src/multipart.rs:105-135 | Exactly as many of one part's chunks and its end or rejection as the receiver accepts, and whether it was closed |
| `Multipart.TraceGrammar` | src/multipart.rs:41-138 | Every trace is (Part Chunk* PartEnd)*, possibly cut by one final Reject |
| `Multipart.SettingsBound` | src/multipart.rs:41-138 | Whatever is set and whatever arrives, no announced file or field is larger than its own size setting, and no more files or fields are announced than set |
| `Multipart.CountSettingKeptIff` | src/lib.rs:796-801 | A count setting is enforced as it stands iff it is below 2^32 |
| `Multipart.PartsWithinLimits` | src/multipart.rs:70-131 | The bytes of every announced part stay within its limit as the 64-bit counter enforces it, and every announced file has an allowed type and extension |
| `Multipart.CountsWithinLimits` | src/multipart.rs:70-91 | No more files or fields are announced than allowed |
| `Multipart.RefusalIs` | src/multipart.rs:70-91 | A part is refused for the first thing wrong with it, with that status and message |
| `Multipart.MimeMatchesIff` | src/multipart.rs:148-161 | A wildcard pattern allows every subtype of its type, any other pattern itself only |
| `Multipart.MainTypeIs` | src/multipart.rs:148-161 | The media type is what stands before the first `;` |
| `Multipart.TrimStartIs` | src/multipart.rs:148-161 | Trimming at the front removes blanks, and all of them |
| `Multipart.TrimEndIs` | src/multipart.rs:148-161 | Likewise at the end |
| `Multipart.ExtAllowedIff` | src/multipart.rs:164-173 | Allowed without a list or a file name, else iff the lower-cased name ends in a listed extension |
| `Multipart.BodyIo.NextPart` | src/stream.rs:185-212 | Skips to the next Part or Reject, and reopens the part mark |
| `Multipart.BodyIo.ReadPart` | src/stream.rs:216-237 | The next chunk; null at PartEnd, Part or end, after which it stays null without consuming |
| `Multipart.ConsumerSeesPart` | src/stream.rs:185-237 | For every form and every order of calls, the chunks read are an in-order prefix of those of the latest announced part, all of them once null was returned with no Reject surfaced, and nothing is read of a part not announced |
| `Multipart.FirstPartAnnouncedIff` | src/stream.rs:216-237 | For every event sequence that starts with a part and every order of native calls, that part is ever announced iff the first call is `next_part` |
| `Multipart.ReadFirstLosesPart` | src/stream.rs:216-237 | A form whose only part is lost that way |
| `MultipartForm.AcceptableAsSet` | src/lib.rs:794-810 | With counts below 2^32 a form is accepted iff it meets the settings as they stand, sizes, counts, types and extensions; what is absent or negative refuses nothing |
| `MultipartForm.ReadBelongsIff` | js/context.ts:336-371 | After any calls, the bytes a read through the object of part p returns are bytes of p iff p is the latest announced part |
| `MultipartForm.StaleObjectReadsOther` | js/context.ts:336-371 | A form on which the object of the first part yields the bytes of the second |
| `MultipartForm.Collect` | js/context.ts:336-345 | Collecting through any part object after any calls returns exactly what was left of the part announced last: all of it right after its announcement, the tail after a partial read, nothing if none is announced |
| `MultipartForm.CollectForm` | js/context.ts:374-381 | From parser to handler: the part iterator yields all parts of the form, in order and byte for byte, iff the form as such meets every limit and is well-formed, and surfaces a rejection otherwise |
| `MultipartForm.EndsPartIff` | src/multipart.rs:105-135 | A part is closed iff it is unbroken and its total size is within its limit |
| `Routing.AllowedMethods` | src/router.rs:76-105 | Whatever the map order, the ascending duplicate-free list of the allowed set |
| `Routing.AddStandard` | src/router.rs:85-91 | A matching `ALL` adds exactly the standard methods, without duplicates |
| `Routing.Sort` | src/router.rs:103-104 | Ascending, same elements, same length |
| `Routing.RouteAndDispatch` | src/server.rs:818-876 | The cascade yields the one answer that `AnswerIs` and `AllowIs` spell out |
| `Routing.AllowIsExact` | src/router.rs:76-105 | Wherever it is shown, the list contains a method iff a request with it would not get 405 (sections 15.5.6 and 10.2.1 of RFC 9110) |
| `Routing.AllowedNonEmpty` | src/router.rs:93-95 | The list is empty iff no method matches the path |
| `Routing.AscendingUnique` | src/router.rs:103-104 | The sorted list does not depend on the map order |
| `Routing.AnswerUnique` | src/server.rs:818-876 | The branch cascade leaves one answer per request |
| `Routing.AnswerIs` | src/server.rs:818-876 | In terms of the trees: the method's own tree first, then the `ALL` routes, then GET for HEAD; else 404 iff no tree matches the path, OPTIONS, or 405 |
| `Routing.AllowIs` | src/router.rs:76-105 | The list shown: the methods whose trees match, HEAD with GET, and OPTIONS |
| `Routing.LessIff` | src/router.rs:103-104 | The order is lexicographic by character code |
| `IdleWatchdog.WatchIdle` | src/idle.rs:79-95 | Returns at the first of its checks with nothing in flight and no activity in the window before, and by the later of last activity plus idle and last request plus one poll step (never before its start) |
| `IdleWatchdog.ReturnsWhenQuiet` | src/idle.rs:79-95 | On any history at all, the loop passes over every check that finds the connection active and returns at the first that finds it idle |
| `IdleWatchdog.CheckIff` | src/idle.rs:79-95 | One check returns iff nothing is in flight and neither the accept nor any activity lies within the window before |
| `IdleWatchdog.ChecksAdvance` | src/idle.rs:73-95 | Every sleep moves the clock on, by at most the idle window or one poll step |
| `IdleWatchdog.PollStepIs` | src/idle.rs:73-75 | A tenth of the window, at least 50 milliseconds and at most five seconds |
| `IdleWatchdog.CellsAt` | src/idle.rs:39-69 | The two cells, fed with the events in order, hold at every moment what the history says |
| `IdleWatchdog.Activity.Record` | src/idle.rs:39-69 | A touch sets the last activity; a guard counts up and, dropped, down |
| `Scopes.MountPreservesScopeIff` | js/pipeline.ts:62-64 | Under any non-empty mount prefix a scope matches a path after mounting iff before, except exactly for the scope `/` on paths other than the root that do not start with `//` |
| `Scopes.InsideMount` | js/pipeline.ts:62-64 | A scope of a mounted app matches only paths under the mount |
| `Scopes.JoinRooted` | js/index.ts:325-329 | Joining keeps the leading slash and the base |
| `Scopes.NormalizedRooted` | js/index.ts:316-323 | Normalizing only adds a leading slash and strips a trailing `/`, `/*` or `//*`, so a base is empty or rooted |
| `Scopes.SameBase` | js/index.ts:316-323 | With or without leading slash, trailing slash or trailing wildcard, a base means the same |
| `Scopes.JoinIs` | js/index.ts:325-329 | One slash between base and path, none for the root path |
| `Mounts.Fold` | js/index.ts:644-658 | Folding terminates on every mount graph, cycles included, by the count of unfolded mount records, empties the server's own mounts and revives none |
| `Mounts.Registry.ApplyMounts` | js/index.ts:644-658 | The recursive loop over shared, mutable servers computes `Fold` |
| `Mounts.FoldIdempotent` | js/index.ts:644-658 | Folding again adds nothing, on every graph |
| `Mounts.FoldMeans` | js/index.ts:644-658 | On acyclic graphs, sharing included, the destructive fold leaves exactly the server's own items followed by what each mounted server means under its prefix, and changes the meaning of no server |
| `Mounts.FoldMountsMeans` | js/index.ts:647-657 | The same for the loop over the mounts |
| `Mounts.LiftPreservesChain` | js/pipeline.ts:67-91 | The chain compiled for a mounted route from a mounted app's items is the one compiled before mounting |
| `Mounts.ChainSelects` | js/pipeline.ts:67-91 | The compiled chain runs exactly the functions registered for the stage under a scope that is empty, the path or a whole-segment prefix of it, each as often as registered and in that order |
| `Mounts.LiftAllAt` | js/index.ts:649-657 | Mounting rewrites paths and scopes only: handlers, stages and functions stay, one for one and in order |
| `Mounts.FoldPreservesChains` | js/pipeline.ts:67-91 | For a route of a mounted sub-app, nested mounts included, the whole compiled chain is that of the items before the mount, then exactly the chain the sub-app would have compiled alone, then that of the items after |
| `Mounts.FoldIsolatesMounts` | js/pipeline.ts:67-91 | For a path outside the mount prefix the mount contributes nothing to the compiled chain |
| `Mounts.FoldedItemsOriginate` | js/index.ts:644-658 | On every graph, each item of a folded server comes from some server along a chain of the original mounts |
| `Mounts.FoldKeeps` | js/index.ts:644-658 | On every graph, nothing is lost: each item of each server reachable from the folded one arrives along some chain of mounts |
| `Mounts.FoldUntouched` | js/index.ts:644-658 | Folding leaves every server it does not reach alone |
| `Mounts.ScopesAlongMounts` | js/index.ts:644-658 | A scope and a route that come along the same chain match after folding iff they matched where they were registered |
| `Mounts.ClimbPreservesScope` | js/index.ts:644-658 | The same along any list of non-root prefixes |

## Left out

- Sockets, TLS, HTTP framing, HTTP/2 settings, listeners, configuration, CPU detection: input and output with no property of their own.
- The route matcher, the form parser, the decoders and the body hash are inputs: any function, any sequence of parts and chunks, any sequence of reads, any 64-bit number.
- Schema validation and coercion (src/schema.rs, js/schema.ts): nothing is claimed about a cache hit implying validation. What response stripping makes of a JSON text is any function per status; when it applies is modelled.
- CORS, metrics text, access log, cookie formatting, unit parsing, readiness flags: string formatting and easy members.
- Memory ordering: every atomic operation and every section under a lock is one sequentially consistent step.
- `CachedDispatch.Serve` is one request without interference; `CachedDispatch.Session` and `CacheHistory` interleave the locked steps of all requests.
- Clock resolution: times are whole milliseconds, sleeps and timers exact; a tenth of the idle window is rounded down to a millisecond.
- Integer widths other than the request id, the body counters, the part sizes and the limits: the 32-bit file and field counters and the 64-bit `queued` do not wrap, and `buf.len() + data.len()` in `buffer_body` does not overflow.
- Case folding is ASCII only: Unicode lower-casing of header names, media types and file names is not modelled, and trimming removes ASCII white space only.
- The header map's grouping of equal names and its order are not modelled: headers stay a list, lower-cased on the way out.
- Printing of v2 addresses: `V4` octets and `V6` segments stay structured; a read error on the socket counts as the end of the stream.
- The semaphore's closed state: the server never closes it.
- LimiterCells.Limiter.Acquire: does not model interference between its steps before the await; all interleavings are in `LimiterProtocol`.
- `c.aborted`, `c.error`, `onAbort` hooks and the abort controller are not modelled: they do not influence which answer is sent.
- Direct writes of user code to `c.res` bypass the latch and are not modelled; neither are `notFound` (a `text` call) and the text branch of `body` as methods of their own.
- The four "before" stages are one list of hooks: the short-circuit test is the same after each of them.
- The per-kind lists of a server (routes, middleware, hooks per stage) are one list of items in which each kind keeps its order; route-level middleware and hooks, which mounting copies unchanged, are not part of an item.
- Root mounts and scopes equal to `/`: `MountPreservesScopeIff` gives the exact condition, and the folding lemmas about chains exclude them.
- Mounts.FoldMeans: states order and multiplicity of the content only for acyclic graphs; for cyclic ones termination, idempotence, origin, completeness and scope matching are proved.
