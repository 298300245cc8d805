# Verified model of the tarant client

A Dafny 4.11 model of the parts of the `tarant` Tarantool client that other code relies on without
seeing: the task that owns the socket, the MessagePack walker and iproto codec underneath it, and
the exact value types carried over it. `dafny verify dfyconfig.toml` checks everything.

## What is modelled

**The connection task.** `Connection` is the task as a state machine: one `State` holds the task's
fields, the link, the command channel, what callers observe, and the history the theorems speak of.
`Step` takes one `Choice` of the environment (which `select!` branch is ready, whether a send gets
through, what arrives, when a handle acts), and `Run` folds a whole schedule of choices; every
theorem is about every schedule. `ConnectionTask` is the same task as a program, with fields updated
in place and the nested loops of `run` and `reconnect`; `ConnectionTask.Task.Run` is proved to be in
exactly the state that `Connection.Run` says, and `Serve` hands conservation down to it.
`Conservation`, `WriteOrder`, `Replies`, `Subscriptions`, `Delivery` and `Promises` hold the theorems, and
`Effects` says of each thing that can happen to the task what callers, the queues and the server see of it.

**The wire.** `MsgPack.ValueLen` is the iterative worklist, proved against a recursive descent
(`Skip`), which `Grammar` proves to be exactly the MessagePack specification's section "Formats",
given as syntax trees. `MapCursors`, `Framing`, `Requests` and `Responses` are the cursor, the length-prefixed
codec, the request builder and the lazy response parser. `Rmp` writes out the integer, string, map,
array and extension headers of that section, as the `rmp` crate reads and writes them.

**The value types.** `Digits`, `Decimals`, `DecimalPayloads`, `DecimalTexts`; `Calendar`, `Datetimes`;
`Intervals`.

## Assumptions

- A link is a TCP connection: once a send fails with an I/O error, nothing gets through on it again
  (`Link.dead`). A send that the codec refuses does not touch the link.
- `select!` and the scheduler may choose anything at any time; a handshake succeeds or fails.
- Dropping a reply sender is settling it with `Closed`, as `src/connection.rs:213-218` maps it.
- `usize` has 64 bits, and no slice is longer than `isize::MAX`.
- Sync and subscriber ids do not wrap around (2^64 of them would be needed).
- `rmp` writes a string's length cut to 32 bits.

## Results that differ from the documentation

- **Packets over `u32::MAX` bytes.** `encode` refuses them without closing the link, while the `break` at
  `src/connection.rs:289` treats every error as a lost link. Draining then stops on a live link and a
  younger command overtakes what is left in `deferred`: under a given policy, command order holds in every
  run exactly when the policy never reconnects or no caller submits such a packet
  (`WriteOrder.OrderHoldsExactly`; the run that shows it, in `OversizedPacketBreaksOrder`, works for any
  backoff, evaluates an expression of almost 4 GiB and pings twice). And after a reconnect a watched key whose
  own WATCH packet is refused stays in `watchers` without a subscription: agreement holds in every run over a
  set of keys exactly when the policy never reconnects or each of the keys makes a sendable WATCH packet,
  whatever the size of other packets (`Subscriptions.AgreementHoldsExactly`, `OversizedKeyIsNeverSubscribed`).
- `encode` takes up to 4 GiB, `decode` refuses more than 2 GiB: `DecodeRecoversEncoded` says which side of
  the line recovers.
- `Close` fails requests in flight at once; `src/client.rs:266` and `src/connection.rs:46` say that they
  finish first. They do exactly when there are none (`Promises.CloseLetsFinishExactly`); `PingIsCutOff` and
  `CloseFailsInFlight` show one that does not.
- "Yields the current value immediately" (`src/client.rs:232`) does not hold for a second watcher of a key:
  a subscription sends WATCH exactly when its key is not watched yet, which on a live link that agrees is when
  the link is not subscribed to it (`Promises.WatchAsksExactly`); a later watcher starts with nothing
  (`LaterWatcherHoldsNothing`, `SecondWatcherHoldsNothing`), and only the next event for the key changes that
  (`ValuesComeWithEvents`).
- That the server is told to stop when the last watcher of a key goes (`src/watcher.rs:35-36`) depends on the
  unsubscription reaching the task. UNWATCH is sent, and the key forgotten, exactly when the task takes an
  unsubscription that leaves nobody listed (`Promises.ServerIsToldExactly`). A full channel drops it
  (`src/connection.rs:238`), as do a full `deferred` (`src/connection.rs:471-475`) and a `watch` call that is
  cancelled before there is a watcher to drop (`src/watcher.rs:46-52`). `DroppedWatcherIsForgotten` is a run
  of the first kind, and by `RunStaysWatched` the key then stays watched, though its receiver is gone.
- `shutting_down` is never reset, so it survives a reconnect: `NoRequestAfterShutdown`.
- `civil_from_days` is not "valid for every `i64` day" (`src/types/datetime.rs:166`): its first addition
  overflows beyond `i64::MAX - 719_468`. No day that `Display` passes comes near.

## Model

| member | source | states |
|---|---|---|
| ConnectionTask.Task.constructor | src/connection.rs:127-144 | A new task is in the initial state |
| ConnectionTask.Task.NextSync | src/connection.rs:162-164 | Every draw returns a number above all drawn before and records it as unused |
| ConnectionTask.Task.RequestInner | src/connection.rs:200-212 | Entering the channel uses up the sync; a closed channel refuses, a full one makes the caller wait |
| ConnectionTask.Task.NextWatchId | src/connection.rs:170-172 | Every draw returns a subscriber id above all drawn before and records it as unused |
| ConnectionTask.Task.Watch | src/connection.rs:230-235 | Watching uses up any id drawn before, in whatever order handles send theirs; the receiver lives from then on |
| ConnectionTask.Task.Interrupt | src/connection.rs:162-243 | What handles do between two steps of the task, including unwatching, firing and closing, changes only the channel and the receivers |
| ConnectionTask.Task.Send | src/connection.rs:266-270 | A send fails on a dead link or an oversized packet, and an I/O error makes the link dead for good |
| ConnectionTask.Task.Retain | src/connection.rs:355 | Retaining keeps the other ids, in order |
| ConnectionTask.Task.HandleCommand | src/connection.rs:334-368 | Each command makes the transition of the state machine, with its one attempt to send, whatever the outcome of that attempt |
| ConnectionTask.Task.FanOut | src/connection.rs:400-401 | An event's value reaches exactly the live subscribers of its key, and only those stay listed |
| ConnectionTask.HighestIsMaximum | src/connection.rs:106-107 | The schema version kept is one seen in a response, and none seen is above it |
| ConnectionTask.Task.HandleResponse | src/connection.rs:370-407 | A parsed response raises the schema version to its own if that is higher, and makes the state machine's transition for what its kind and body say |
| ConnectionTask.Task.Route | src/connection.rs:374-406 | Replies, chunks and events each reach only their addressee; an event of a watched key is acknowledged |
| ConnectionTask.Task.FailPending | src/connection.rs:414-418 | Whatever order the map is drained in, every request in flight is settled with Closed exactly once more |
| ConnectionTask.Task.FailLink | src/connection.rs:409-412 | Losing the link fails everything in flight |
| ConnectionTask.Task.DropAll | src/connection.rs:420-426 | Every request in a dropped queue is settled with Closed |
| ConnectionTask.Task.Shut | src/connection.rs:311-319 | Closing settles everything in flight and in both queues, and closes the channel |
| ConnectionTask.Task.GiveUp | src/connection.rs:324-328 | So does giving up on reconnecting |
| ConnectionTask.Task.Defer | src/connection.rs:469-478 | A command is kept behind the older ones, or refused with Closed beyond 4096 |
| ConnectionTask.Task.DrainDeferred | src/connection.rs:285-291 | The draining loop, interleaved with other tasks, follows the state machine, and never meets a Close |
| ConnectionTask.Task.TakeCommand | src/connection.rs:294-301 | The command branch leaves exactly the rest of the state machine's step to its outcome |
| ConnectionTask.Task.TakePacket | src/connection.rs:302-306 | So does the packet branch, which ends the task when it is shutting down and nothing is in flight |
| ConnectionTask.Task.Select | src/connection.rs:293-308 | One `select!` turn, interleaved with other tasks, leaves exactly the rest of the state machine's step to its outcome |
| ConnectionTask.Task.ReplayWatches | src/connection.rs:454-458 | The replay loop sends WATCH for the keys in turn until one fails |
| ConnectionTask.Task.Reconnect | src/connection.rs:431-467 | The reconnect loop, with its delays, deferrals and handshakes, follows the state machine to a new link or to the end |
| ConnectionTask.Task.Recover | src/connection.rs:320-329 | A lost link fails what is in flight and leads to a new link or to the end, as the state machine says |
| ConnectionTask.Task.Run | src/connection.rs:283-332 | The whole nested loop refines the state machine: after any schedule both are in the same state, it stops only when the task is done or the schedule over, and the schema version is the highest handled |
| ConnectionTask.Serve | src/connection.rs:121-145 | A task started afresh conserves every request, and has settled each exactly once when it returns |
| Conservation.RunSound | src/connection.rs:283-365 | In every run: no deferred Close, so `unreachable!` is never reached; every sync is drawn once and used once; a finished task holds nothing |
| Conservation.StepKeeps | src/connection.rs:283-428 | No step loses or duplicates a request |
| Conservation.RunConserves | src/connection.rs:283-332 | Conservation: in every run a submitted request is in exactly one of channel, `deferred`, `pending` and settled-once, and nothing else is anywhere |
| Conservation.ReturnedTaskSettledAll | src/connection.rs:311-328 | When the task has returned, every request ever submitted has been settled exactly once |
| Conservation.RunBounded | src/connection.rs:131-478 | In every run the channel and `deferred` stay within 1024 and 4096, and the delay within the policy's limits |
| WriteOrder.RunAttemptsOnce | src/connection.rs:286-291 | At most once: over all links together a request is attempted at most once, and never while it still waits in a queue |
| WriteOrder.RunNeverDefers | src/connection.rs:431-434 | In every run without reconnecting, nothing is ever deferred |
| WriteOrder.RunOrdered | src/connection.rs:283-332 | In every run that never reconnects or sends only sendable packets, packets went out in the order their commands arrived, all of them before everything queued, and `deferred` is older than the channel |
| WriteOrder.PacketSizes | src/client.rs:102-109 | The sizes of the packets that the failing run sends, as the request builder emits them |
| WriteOrder.OversizedPacketBreaksOrder | src/connection.rs:286-291 | For any backoff and any three requests of which the codec refuses only the first, a run in which the third goes out before the second |
| WriteOrder.OrderHoldsExactly | src/connection.rs:283-332 | Under a given policy, order holds in all runs with packets of at most n bytes if and only if the policy never reconnects or n fits 32 bits |
| Replies.RunMatched | src/connection.rs:320-323 | In every run, everything in flight was written to the current link, and every settlement is justified by what was written |
| Replies.ReplyAnswersItsRequest | src/connection.rs:374-381 | A request that got a reply was attempted exactly once, its packet written to the link the reply came over, and the reply carries its sync; one refused for shutdown was never attempted |
| Replies.InFlightIsOnThisLink | src/connection.rs:409-418 | A request in flight was written to the current link and attempted nowhere else |
| Replies.NoRequestAfterShutdown | src/connection.rs:336-340 | After the shutdown announcement no request goes out any more, reconnects included |
| Subscriptions.WatchPacketSize | src/connection.rs:495-497 | The model calls a subscription packet sendable exactly when the bytes the request builder emits for it fit 32 bits |
| Subscriptions.SendableExactly | src/connection.rs:495-497 | Sendable are exactly the keys of fewer than 2^32 - 12 bytes |
| Subscriptions.ReconnectedAgrees | src/connection.rs:454-458 | After the replay a live link is subscribed to exactly the watched keys, in whatever order the map lists them |
| Subscriptions.RunKeyed | src/connection.rs:346-364 | In every run, only keys that handles subscribed to are watched or queued to be |
| Subscriptions.RunPrepared | src/connection.rs:346-353 | In every run that never reconnects, whatever is submitted, or that subscribes to sendable keys only, no other key is ever watched |
| Subscriptions.RunAgrees | src/connection.rs:346-364 | In every run that never reconnects or whose watched keys make sendable WATCH packets, whatever else is sent, a live link is subscribed to exactly the keys of `watchers` |
| Subscriptions.OversizedKeyIsNeverSubscribed | src/connection.rs:346-353 | For any backoff, a key whose WATCH packet the codec refuses stays watched on a live link that is not subscribed to it |
| Subscriptions.AgreementHoldsExactly | src/connection.rs:346-458 | Under a given policy, agreement holds in all runs over a set of keys if and only if the policy never reconnects or the codec takes the WATCH packet of each of them |
| Delivery.RunStreams | src/connection.rs:382-390 | In every run a push channel holds exactly, in order, the chunks that arrived for its request while it was pending, and is open just as long |
| Delivery.SettledStreamIsOver | src/connection.rs:375-418 | Once a request is settled, by reply or by link loss, its push channel has ended |
| Delivery.RunSignups | src/connection.rs:230-235 | In every run a subscriber id subscribes at most once |
| Delivery.RunFresh | src/connection.rs:392-405 | In every run each listed subscriber holds the payload of the last event for its key since it was added, or nothing if there was none |
| Delivery.StaysSubscribed | src/connection.rs:354-364 | A subscriber with a live receiver that does not leave itself stays listed through every step until the task ends |
| Delivery.StepQuiet | src/connection.rs:283-478 | A command that is neither queued nor submitted is not queued after a step |
| Delivery.RunStaysSubscribed | src/connection.rs:354-404 | So through every run in which it keeps its receiver and submits no unsubscription |
| Promises.CloseFailsInFlight | src/connection.rs:295-318 | In every run, taking `Close` ends the task and settles each request in flight with Closed and nothing else |
| Promises.CloseLetsFinishExactly | src/client.rs:266-271 | Closing lets the requests in flight finish if and only if there are none |
| Promises.PingIsCutOff | src/connection.rs:295-318 | A concrete run in which a ping, written to a healthy link, is in flight when `Close` is taken |
| Promises.WatchAsksExactly | src/connection.rs:346-351 | In every run, a subscription taken sends one WATCH if its key is not watched and nothing otherwise; on a live link that agrees, if and only if the link is not subscribed to the key |
| Promises.LaterWatcherHoldsNothing | src/connection.rs:346-351 | In every run, a new subscriber of a watched key is listed, holds nothing, and causes nothing to be sent |
| Promises.ValuesComeWithEvents | src/connection.rs:392-404 | What a subscriber holds changes only by an event for a key it is listed under |
| Promises.SecondWatcherHoldsNothing | src/client.rs:230-238 | A concrete run after which the first of two watchers holds the value and the second nothing |
| Promises.ServerIsToldExactly | src/connection.rs:353-364 | Through every step of every run, UNWATCH is sent for a key and the key stops being watched if and only if the task takes an unsubscription that leaves nobody listed |
| Promises.RunStaysWatched | src/connection.rs:353-404 | With no unsubscription from a watched key queued or submitted, the key stays watched through every run until the task ends |
| Promises.DroppedWatcherIsForgotten | src/connection.rs:237-239 | A concrete run in which a full channel drops a watcher's unsubscription: its receiver gone, the key stays watched on a live link subscribed to it, and nothing queued will change that |
| Promises.EventEmptiesExactly | src/connection.rs:400-403 | An event keeps its key watched, and empties the key's list if and only if no listed receiver is alive |
| Promises.OnlyEventsDesert | src/connection.rs:346-404 | No other step leaves a watched key with an empty list |
| Promises.DesertedKeyStaysWatched | src/connection.rs:400-403 | After that run an event empties the list, and the key is still watched on a live link subscribed to it |
| Effects.ReplyIsDelivered | src/connection.rs:375-378 | In every run, an OK or error response to a request in flight is the one outcome of that request, which is then no longer pending |
| Effects.ChunkIsDelivered | src/connection.rs:382-390 | A chunk adds its data, or nil without any, to the push channel of the pending request it names if that streams, and to no other |
| Effects.EventIsDelivered | src/connection.rs:392-405 | After an event each live listed subscriber of its key holds its value, only those stay listed, other keys and subscribers are untouched, and one WATCH acknowledges it |
| Effects.OthersPublishNothing | src/connection.rs:370-405 | Any other response sets no slot, changes no list and sends nothing |
| Effects.ResponseEndsExactly | src/connection.rs:302-306 | A response ends the task if and only if shutdown was announced, by it or before, and nothing else is in flight; it takes nothing out of flight but the request it answers |
| Effects.SynclessAnswersNobody | src/connection.rs:375-381 | In every run nothing is pending under the zero that a response without a sync is read with, so it answers nobody |
| Effects.RequestIsTaken | src/connection.rs:336-344 | In every run, a request taken after the announcement is told ShuttingDown and not sent; any other is sent once under its own sync and is then in flight, streaming if it asked to, or is settled with Closed along with all others in flight |
| Effects.FireIsTaken | src/connection.rs:345 | A packet fired is sent once and leaves nothing pending |
| Effects.SubscriptionIsTaken | src/connection.rs:346-364 | A subscription is added behind its key's list, one that leaves is taken off it, and no other key is touched |
| Effects.CommandKillsLink | src/connection.rs:334-365 | A command leaves a live link alive exactly if nothing was sent or the I/O succeeded; any other failure off the channel gives it up too |
| Effects.AckKillsLink | src/connection.rs:402-403 | A failed acknowledgement leaves the link dead, and only that does |
| Effects.LinkErrorSettles | src/connection.rs:320-329 | In every run a broken link settles everything in flight with Closed, keeps subscribers and queues, and leads to the shortest delay, or to the end without a policy |
| Effects.CommandIsDeferred | src/connection.rs:469-478 | In every run a command arriving while the link is down goes behind the others below 4096 of them, and beyond is dropped, a request being told Closed |
| Effects.HandshakeStartsLink | src/connection.rs:452-459 | A handshake starts a fresh link and changes nothing of the task, the channel or the callers |
| Effects.DelayDoubles | src/connection.rs:435-464 | After n failed attempts the delay is 2^n times the minimum, or the maximum if that is smaller |
| Effects.TaskEndsExactly | src/connection.rs:293-329 | Each way the task can end, and no other: Close or the last handle at its turn, the drained shutdown, and without a policy a lost link |
| Effects.SubmissionEntersExactly | src/connection.rs:200-243 | A command enters the channel, at the back, if and only if a handle exists, its number was drawn, the task lives and fewer than 1024 wait |
| Rmp.ReadBackUint | src/codec.rs:208-211 | An unsigned integer is read back from the front of any stream, with its length |
| Rmp.ReadBackSint | src/types/interval.rs:192-199 | So is a signed one |
| Rmp.IntegerForms | src/types/interval.rs:206-213 | What each integer marker is read as: the weight of every byte behind it, its sign and its length; other markers are refused |
| Rmp.ShortestForm | src/codec.rs:208-211 | No other spelling of an integer is shorter than the one written |
| Bytes.BigEndianAt | src/codec.rs:82-90 | Byte i of a length written has the weight of the places behind it |
| Bytes.FromBigEndianHead | src/msgpack.rs:75-82 | The first byte of a length read has the highest weight |
| Bytes.LittleEndianAt | src/types/datetime.rs:99-108 | Byte i of a datetime field written has the weight of the places before it |
| Bytes.FromLittleEndianLast | src/types/datetime.rs:111-117 | The last byte of a datetime field read has the highest weight |
| MsgPack.ReadLen | src/msgpack.rs:75-82 | The length is the prefix's bytes, each times its weight, most significant first, or the buffer is too short |
| MsgPack.ReadShape | src/msgpack.rs:26-52 | Each marker's payload and children; the only failures are the reserved marker and a short buffer |
| MsgPack.ValueLen | src/msgpack.rs:15-63 | The worklist finds exactly what recursive descent finds, at any depth; both overflow checks fire only where descent fails too |
| Grammar.MarkerTable | src/msgpack.rs:26-73 | The marker table agrees with each family's layout: prefix width, payload and children |
| Grammar.TreeIsMeasured | src/msgpack.rs:15-63 | Every well-formed value, wherever it stands, is measured at its full encoded length |
| Grammar.MeasuredIsTree | src/msgpack.rs:15-63 | Whatever is measured is the encoding of a well-formed value |
| Grammar.SkipIsGrammar | src/msgpack.rs:15-63 | The answer is n if and only if those n bytes are one complete value of the grammar |
| Grammar.SkipIsLocal | src/msgpack.rs:15-63 | The answer depends on the value's own bytes only, not on what precedes or follows |
| Grammar.SkipTail | src/msgpack.rs:124-127 | Measuring a tail of the buffer is measuring in place |
| Grammar.PrefixFree | src/msgpack.rs:15-63 | No complete value is a proper prefix of another, so the length is unique |
| MapCursors.MapHeaderIsOpen | src/msgpack.rs:106-111 | The announced count and header length are those of the value that was measured |
| MapCursors.WalkTiles | src/msgpack.rs:103-132 | The entries of a successful walk are as many as announced, consecutive, in bounds, and end at the returned total |
| MapCursors.WalkFailsAtKey | src/msgpack.rs:119-132 | A walk fails if and only if some key is a whole value but no unsigned integer |
| MapCursors.MapCursor.New | src/msgpack.rs:103-113 | Succeeds exactly on complete maps, with the offset just past the map |
| MapCursors.MapCursor.Next | src/msgpack.rs:119-132 | Yields the next key and the place of its value; fails only for the key's type, never by truncation |
| Framing.FrameIsCountedPacket | src/codec.rs:42-74 | A frame is a MessagePack unsigned integer and that many bytes |
| Framing.AnyWidthFrames | src/codec.rs:42-74 | A packet of up to 2 GiB behind a marker and its length in 1, 2, 4 or 8 big-endian bytes is recovered whole, and no shorter piece of it yields anything |
| Framing.OtherMarkers | src/codec.rs:39-49 | A first byte below 0x80 is the length itself; every other unknown one is refused |
| Framing.DecodeRecoversEncoded | src/codec.rs:82-90 | What `encode` framed is recovered up to 2 GiB, whatever follows, and refused beyond |
| Framing.MoreBytesKeepFrame | src/codec.rs:38-76 | Bytes that arrive later change neither a whole frame nor a bad one |
| Framing.ChunkingIsInvisible | src/codec.rs:38-76 | However a stream is cut into chunks, the packets, the first error and the leftover are those of decoding it whole |
| Framing.Decode | src/codec.rs:38-76 | Consumes a whole frame or nothing |
| Framing.Encode | src/codec.rs:82-90 | Appends one frame, 0xce and the length in four bytes, most significant first, then the packet; or refuses 4 GiB and more and leaves the buffer alone |
| Framing.ReadAll | src/codec.rs:38-76 | Feeding chunk by chunk and decoding until `None` yields what the whole stream holds |
| Requests.UintIsValue | src/codec.rs:122-126 | What `uint` writes is one complete unsigned integer of the grammar |
| Requests.StrIsValue | src/codec.rs:128-132 | What `str` writes is the encoding of the text as one string of the grammar |
| Requests.StrReads | src/msgpack.rs:143-149 | `read_str` gives back the text of what `write_str` wrote |
| Requests.ExtIsValue | src/codec.rs:165-172 | What `ext` writes is the encoding of tag and payload as one extension of the grammar |
| Requests.RawArrayIsValue | src/codec.rs:190-198 | An array header before complete values is the encoding of one array that holds exactly those values, in order |
| Requests.ArrayMarkers | src/codec.rs:213-215 | The first byte of a value is one of the array markers if and only if the value is an array of the grammar |
| Requests.HeaderIsThere | src/codec.rs:105-115 | The header map walks to the type under 0x00, the sync under 0x01 and, if there is one, the stream id under 0x0a |
| Requests.PacketWalks | src/codec.rs:105-206 | A packet of complete values is two adjacent maps whose walks recover type, sync, optional stream id, then every body field in call order, and nothing else |
| Requests.Request.constructor | src/codec.rs:105-115 | The header map has two or three entries, as the stream id demands |
| Requests.Request.Key | src/codec.rs:117-120 | One entry more is counted, and its key written |
| Requests.Request.Raw | src/codec.rs:183-187 | Exactly this field is added behind the others; with a complete value, all values stay complete |
| Requests.Request.Uint | src/codec.rs:122-126 | The added field reads back as the number |
| Requests.Request.Str | src/codec.rs:128-132 | The added field is what `write_str` writes, and below 4 GiB a complete value that reads back as the text |
| Requests.Request.Serialized | src/codec.rs:149-162 | Fails exactly when an array was demanded and the value is none, in terms of the grammar for every complete value |
| Requests.Request.Ext | src/codec.rs:165-172 | Fails exactly for payloads of 4 GiB or more |
| Requests.Request.RawArray | src/codec.rs:190-198 | Any elements are written behind an array header that counts them; complete ones make one complete value |
| Requests.Request.Finish | src/codec.rs:200-205 | The packet is the header map and a map of all fields added, the count being their number; if all values are complete, walking it gives every call back |
| Responses.ParseHeader | src/codec.rs:267-280 | Accepts exactly the headers with unsigned keys, well-typed known fields and a type; later entries win |
| Responses.Absorb | src/codec.rs:313-329 | One entry is filed under its key, or refused for its type |
| Responses.ParseBody | src/codec.rs:310-329 | Accepts exactly the well-typed body maps, and records for each key its last entry |
| Responses.Parse | src/codec.rs:266-339 | Accepts exactly the packets described by `Parses`; the response is what the packet says, its kind that of the type under 0x00, and its ranges lie inside its body |
| Responses.ParsesExactly | src/codec.rs:266-339 | What is accepted, by the numbers of the protocol: a known type, numbers and texts where they are due, and an error map that decodes if the packet is an error |
| Responses.ReadsExactly | src/codec.rs:282-301 | The kind is OK, chunk or event exactly for the types 0x00, 0x80 and 0x4c, and an error for any other, which then has bit 15; sync and schema version are the numbers under 0x01 and 0x05 |
| Responses.PartsExactly | src/codec.rs:313-329 | Each part of the body is what stands under its own number |
| Responses.LastIsLast | src/codec.rs:313-329 | Of several entries under one key, the last is the one that counts |
| Responses.BodyMap | src/codec.rs:349-361 | The materialised map holds for each key the bytes of its last entry |
| Responses.LastIsMapped | src/codec.rs:349-361 | The last entry under a key is what the map holds |
| Responses.PartsInBounds | src/codec.rs:313-329 | Every range recorded lies inside the body, empty bodies included |
| Responses.SlicesAgreeWithBodyMap | src/codec.rs:308-366 | Every recorded range cuts out of the body what the materialised map holds under that key; of an empty body, nothing |
| Digits.LexIsNumeric | src/types/decimal.rs:124-127 | On equal lengths, comparing digits one by one is comparing the numbers |
| Digits.SpelledOnce | src/types/decimal.rs:35-36 | Without leading zeros a number is spelled one way |
| Decimals.Fold | src/types/decimal.rs:80-83 | The fold is the number the digits spell, and no step of it leaves `i128` |
| Decimals.Assemble | src/types/decimal.rs:90-100 | The loop drops exactly the leading zeros |
| Decimals.AssembledIsExact | src/types/decimal.rs:90-100 | The result is normalized and keeps the value, sign and scale; it fails exactly on numbers of 10^38 or more |
| Decimals.FromPartsIsExact | src/types/decimal.rs:53-57 | Builds mantissa times 10^-scale, and fails exactly on mantissas of more than 38 digits |
| Decimals.PartsRoundTrip | src/types/decimal.rs:53-83 | Mantissa and scale rebuild the identical decimal |
| Decimals.MagnitudeIsNumeric | src/types/decimal.rs:119-128 | Comparing lengths, then padded digits, is comparing the magnitudes |
| Decimals.CmpIsNumeric | src/types/decimal.rs:257-274 | `cmp` is the order of the exact rationals, for all signs, scales and digits |
| Decimals.CmpIsTotalOrder | src/types/decimal.rs:257-274 | Hence a total order: antisymmetric, transitive, equality included |
| Decimals.CanonicalValue | src/types/decimal.rs:103-111 | The canonical form has the same value and ends in no zero |
| Decimals.EqIsNumeric | src/types/decimal.rs:237-249 | Canonical forms agree if and only if `cmp` says `Equal`, so equality and hashing are numeric |
| DecimalPayloads.Chunks | src/types/decimal.rs:140 | The loop packs each pair of nibbles into one byte |
| DecimalPayloads.ToPayload | src/types/decimal.rs:131-142 | Scale, then an even number of nibbles ending in the sign |
| DecimalPayloads.FromPayload | src/types/decimal.rs:145-164 | The loop decodes what the specification function does, with each error in its place |
| DecimalPayloads.AnyPaddingDecodes | src/types/decimal.rs:145-164 | Any number of padding zeros and any of the six sign nibbles decode to the same decimal |
| DecimalPayloads.PayloadRoundTrip | src/types/decimal.rs:131-164 | `from_payload` of `to_payload` is the identity, for odd and even digit counts |
| DecimalPayloads.DecodedIsValid | src/types/decimal.rs:145-164 | Whatever the bytes, what decodes is normalized |
| DecimalPayloads.PayloadLayout | src/types/decimal.rs:131-142 | The scale, then, high nibble first, a zero if the digits are even in number, each digit in its place, and 0x0d exactly for negative numbers, else 0x0c |
| DecimalPayloads.DecodesExactly | src/types/decimal.rs:145-164 | Accepted if and only if a 32-bit scale comes first and the nibbles behind it are decimal digits of a number below 10^38 and one of the six sign nibbles; and it is that number |
| DecimalTexts.Display | src/types/decimal.rs:168-191 | The pieces pushed are the displayed text |
| DecimalTexts.FromStr | src/types/decimal.rs:204-234 | The scanning loop parses what the specification function does |
| DecimalTexts.LiteralParses | src/types/decimal.rs:203-234 | Every `[+-]digits[.digits][e exponent]` parses to its own sign, digits and scale |
| DecimalTexts.AcceptedIsLiteral | src/types/decimal.rs:203-234 | Nothing else is accepted |
| DecimalTexts.TextRoundTrip | src/types/decimal.rs:168-234 | With scale 0 or more, displayed text parses to the identical decimal |
| DecimalTexts.NegativeScaleText | src/types/decimal.rs:174-176 | With a negative scale it parses if and only if digits and trailing zeros total at most 38, and then to a numerically equal value |
| DecimalTexts.TextExactly | src/types/decimal.rs:168-191 | A minus exactly before negative numbers, no leading zero but the one alone before the point, exactly `scale` digits behind it, and digits that spell the decimal's number, times ten for each place of a negative scale |
| DecimalTexts.ExponentReads | src/types/decimal.rs:214-217 | An exponent is worth what its sign and digits spell, if that fits in 32 bits |
| DecimalTexts.ExponentIsDigits | src/types/decimal.rs:214-217 | Nothing else is an exponent |
| DecimalTexts.LiteralValue | src/types/decimal.rs:203-234 | A literal parses if and only if its scale fits in 32 bits and its digits spell a number below 10^38, and then to that number, signed and scaled by its point and exponent |
| Calendar.CivilFromDays | src/types/datetime.rs:167-178 | Overflows exactly beyond `i64::MAX - 719_468`; nothing else overflows and neither `expect` fails |
| Calendar.MarchBased | src/types/datetime.rs:170-172 | The year of the era and the day of the year are in range, and a 366th day occurs only in leap years |
| Calendar.CivilIsInverse | src/types/datetime.rs:167-178 | The result is a date of the proleptic Gregorian calendar, and its day number, counted year by year and month by month, is the argument |
| Calendar.CivilOfDayNumber | src/types/datetime.rs:167-178 | From the day number of any date, that date |
| Calendar.CivilGrows | src/types/datetime.rs:167-178 | Later days have later dates |
| Datetimes.CmpIsInstant | src/types/datetime.rs:190-213 | Order and equality are those of the instants, whatever the zones |
| Datetimes.FromUnixCarries | src/types/datetime.rs:50-57 | Nanoseconds end below a second, and the instant is exact if and only if the seconds do not saturate |
| Datetimes.SplitIsExact | src/types/datetime.rs:131-147 | Display never overflows; its fields are a calendar date and a time of day that recompose to the clock reading, which is epoch plus offset if and only if that sum fits |
| Datetimes.SplitIsOnly | src/types/datetime.rs:131-147 | No other date and time of day read as that clock |
| Datetimes.ToPayload | src/types/datetime.rs:99-108 | 8 bytes, or 16 when the tail says something |
| Datetimes.PayloadRoundTrip | src/types/datetime.rs:99-126 | `from_payload` of `to_payload` is the identity |
| Datetimes.Reencoded | src/types/datetime.rs:111-126 | What decodes is valid, and encodes to the same bytes but for a dropped tail of zeros |
| Datetimes.PayloadLayout | src/types/datetime.rs:99-108 | Seconds, nanoseconds, offset and zone stand at 0, 8, 12 and 14, least significant byte first in two's complement; the tail is there unless all of it is zero |
| Datetimes.DecodesExactly | src/types/datetime.rs:111-126 | Accepted if and only if there are 8 bytes, or 16 with nanoseconds below a second; the fields are those the bytes at these places hold |
| Intervals.CodesRoundTrip | src/types/interval.rs:65-80 | Codes and month-end rules correspond one to one |
| Intervals.Put | src/types/interval.rs:214-228 | A field is taken if and only if its id is known and, for the rule, its code |
| Intervals.ToPayload | src/types/interval.rs:185-201 | The count, then exactly the non-zero units in order, then the rule unless it is `Excess` |
| Intervals.CountIsPairs | src/types/interval.rs:187-199 | The count read back is the number of pairs that follow it |
| Intervals.FromPayload | src/types/interval.rs:204-234 | The loop decodes what the specification function does; whatever count is claimed, it finishes at most half as many turns as the payload has bytes, and starts at most one more |
| Intervals.AnyFieldsDecode | src/types/interval.rs:204-234 | Known fields in any order and number decode to what setting them in turn gives |
| Intervals.WrittenRebuilds | src/types/interval.rs:185-228 | Setting the written fields rebuilds the interval |
| Intervals.PayloadRoundTrip | src/types/interval.rs:185-234 | `from_payload` of `to_payload` is the identity, for all units and rules |
| Intervals.PayloadExactly | src/types/interval.rs:185-201 | The count, then each unit that is not zero under its number 0 to 7, then 8 and the rule's code, 1 for `Limit` and 2 for `Snap`, nothing for `Excess` |
| Intervals.Documented | src/types/interval.rs:341-351 | The count and each field of the documented example have the documented bytes |
| Intervals.DocumentedNothing | src/types/interval.rs:354-358 | No time at all with `Excess` is a bare zero count, both ways |

## Left out

- Sockets, TCP options, the greeting and the contents of the handshake: a handshake succeeds or fails, and a success yields a link.
- Timers, the fairness of `select!` and request timeouts: any choice at any time is allowed; a caller that stops waiting is not modelled.
- SHA-1, authentication and connection strings: they work on one small group of bytes at a time.
- UTF-8 validation and `MP_ERROR` decoding: library code, which enters `Responses` as parameters, so the theorems hold for any.
- serde and `rmpv` values: a serialized argument is one complete value, and `body_map` holds the values' bytes.
- `Request::bool`, `f64` and `array`: they are `raw` with a value that some library encoded.
- The wrap-around of the 64-bit sync, stream and subscriber counters.
- `src/client.rs`, `src/sql.rs`, `src/update.rs`, `src/tuple.rs`: thin wrappers around requests.
- `src/types/uuid.rs`: its acceptance is looser than its format, and its round trip small.
- The text that `Datetime` and `Interval` display: only the fields printed by `Datetime` are modelled.
- `SystemTime`, `time`, `chrono`, `jiff` and `rust_decimal` conversions, `to_f64`, `Debug` and logging.
- Responses.Parse: does not model the decoded server error of an error packet, the text of errors, nor which of several bad entries is reported; decoding the error map is library code, and only whether it succeeds is a parameter.
- Responses.BodyMap: keeps each value's bytes; decoding them is library code, whose failures are not modelled.
- ConnectionTask.Task.Drop: settles `deferred` before the channel; which of two different callers is told first is not observable.
- ConnectionTask.Task.Watch: while the channel is full it leaves the state alone, to be tried again, as the awaiting caller is.
