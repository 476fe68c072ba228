# Verified model of the RMR MAVLink router

RMR connects MAVLink endpoints (serial lines, TCP and UDP peers). Bytes from each endpoint pass a
resynchronising framer, are counted, feed a loss estimate, pass an in-filter and reach one router task,
which suppresses duplicates, learns where each node lives, decides per destination and pushes the frame
to bounded queues drained by writers. A stats task prints one line per endpoint and interval. At build
time the dialect files are walked and turned into a message table.

This project models that logic in Dafny and proves what it guarantees for every input, every run and
every interleaving. `dafny verify dfyconfig.toml` checks all of it.

## The main results

- **CRC.** The branch-free byte update is the bit-serial CRC-16/MCRF4XX with polynomial 0x8408, and the
  checksum of a frame is that of its covered bytes followed by the message's seed. With length,
  incompatibility flags and message id intact, whether a damaged known frame escapes depends on the
  flipped bits alone, and the condition is exact. No odd number of flips escapes, no damage of the CRC
  field alone, and of all bursts of at most 16 bits exactly seven, which straddle the end of the covered
  bytes.
- **Framer.** However a byte stream is cut into reads, the frames, headers, counters and leftover bytes
  are those of one pass over the whole stream, and nothing is lost or invented. Each single decision is
  settled by an independent encoder alone: the framer waits exactly on the beginning of a frame that fits
  the format, or of a header with an unknown flag, emits exactly a frame that checks, counts a checksum
  error exactly on a known frame that does not, and drops a byte in every other case. After a prefix of
  any bytes, frames among them included, the well-formed v1, v2 and signed v2 frames that follow all come
  out exactly when the pieces cut off the bytes the prefix leaves buffered end where those bytes do. A stray start byte can break that: it can hide or swallow a real frame.
- **Router.** Its registry, learn tables and duplicate window are written as functions of the inputs
  taken so far, without its state, and over every run each destination's queue is proved to receive
  exactly the frames that a rule over that history names, once and in arrival order, and the drop
  counters to count exactly the refused and repeated frames; what the filters refuse is stated on their
  allow and block lists. So, sniffers apart, no frame is echoed into the group it came from and targeted
  frames go only where an addressee was heard in the lifetime of the table, and replies to a node heard
  recently reach it unless filtered or loop-blocked. Group reference counts are exact.
- **Protocol.** Over every interleaving of endpoint tasks, listeners and router, a frame is handled only
  while its sender is registered or after its removal was processed (and is then inert), the registry
  agrees with the peer tables of the UDP listeners, and the inputs the router takes form a legal run of
  its own state machine. Everything the tasks tell the router, and the frames they forward, are written as
  functions of the steps taken: a listener's peers are timed by their last packets, a full one gives up a
  peer heard no later than any it keeps, and a sweep withdraws exactly the peers that were silent for the
  idle time. No listener ever gets stuck. With the writer of a UDP peer stepping along, what goes out to
  the peer is, in order, a selection of the frames the router's history owes it, and the rest is accounted
  for.
- **Learn table.** Up to ties it is the least-recently-seen table of its history, and the clock readings
  under which ties can make it evict out of the order of arrival are characterised exactly.
- **Duplicate window, loss estimate.** Each is proved equal to, or exactly bounded by, a declarative
  statement over its whole history. The loss tracker forgets its sources as a learn table would.
- **Stats.** With output enabled and room for at least one line, an endpoint gets exactly one final line if
  its registration and, later, its end get through the lossy channel, and none otherwise. The line is
  dequeued for writing unless more of them than the queue holds arrive after cancel, and no other line for
  that endpoint follows it, whatever the tasks and the router do. Which lines are written, and in which
  order, is a function of the ticks and messages alone.
- **Build time.** The include walk succeeds exactly when every file reachable from the root loads and
  lies on no cycle; the layout is the unique stable size-descending order with every field aligned, and
  depends only on the order of fields within each size. PING and AUTH_KEY get their published
  seeds.

## How the source is represented

- Objects whose methods update their fields are classes (`Framer`, `Crc16`, `LearnTable`, `DedupWindow`,
  `GroupRegistry`, `Router`, `SeqTracker`, `TxQueue`, `StatsTask`, `Session`, the include `Walker`). The
  eviction that the learn table and the sequence tracker have in common is written once, in `Recency`. Each
  method is proved against a function on values, and the run-level theorems are about those functions.
- The tables inside the router are values in the registry and group maps, since each has one owner.
- Time is a natural number and does not go back between calls, as for the monotonic clock the program
  reads. Counters are unbounded. The 64-bit frame hash and the UTF-8 encoding are arbitrary functions.
- The message table is the partial map its binary search computes.
- One `select!` of the router is one atomic step, which takes a frame only when the event queue is empty
  at that step. This is an assumption of the protocol model. Allocating an id, announcing it, evicting,
  discarding a queue and every other pair of actions with an await between them are separate steps.
- Lifecycle messages to the stats task are a log in the router; the channel may lose any of them.
- Hash map iteration is an arbitrary order: loops over a registry pick any remaining element.

## Where code and comments disagree

- `compute_offsets` refuses a message when any scalar `uint8_t` field lies past offset 255, while its
  comment and message speak of target fields only; the model refuses where the code does.
  `Layout.PlainByteRefused` is a message without any target that is refused.
- `crc_extra_for_message` rejects an unknown type only from inside the sort comparator, which is never
  called for a single base field, so on its own it returns a seed for such a message. The program does
  not accept it: the layout computed next refuses it (`Layout.LoneUnknownType`), and a table entry exists
  exactly when the dialect is not malformed (`Layout.IngestMessage`).
- The learn table is described as evicting the least recently seen node. When nodes share a reading of
  the clock it can evict a node that arrived after one it keeps. That can happen exactly under readings
  that repeat, not at the first position, with at least as many sightings to follow as the table has
  entries (`LearnTies.OrderKeptIffNotRisky`, for every capacity, and `RouterOrder.RouterOrderIff` for runs
  of the router); with a strictly increasing clock it never happens.

## Model

| member | source | states |
|---|---|---|
| `Crc.Crc16.UpdateSlice` | src/mavlink/crc.rs:35-39 | feeding a slice is the fold of the byte update over it |
| `Crc.FeedConcat` | src/mavlink/crc.rs:35-39 | streaming in pieces gives the one-shot CRC |
| `Crc.UpdateLinear` | src/mavlink/crc.rs:10-15 | the byte update is linear over exclusive or |
| `Crc.UpdateIsBitSerial` | src/mavlink/crc.rs:10-15 | for every CRC and byte the branch-free update equals eight shift steps of the reflected polynomial 0x8408 |
| `Crc.FeedIsReference` | src/mavlink/crc.rs:10-39 | streaming any bytes from the initial value computes the bit-serial checksum started at 0xFFFF |
| `Crc.CheckValue` | src/mavlink/crc.rs:57-62 | that checksum of the digits 1 to 9 is the published 0x6F91 |
| `CrcDetection.SameCrcIffAbsorbed` | src/mavlink/crc.rs:10-39 | two equally long messages collide exactly when their difference has CRC zero |
| `CrcDetection.BurstChangesCrc` | src/mavlink/crc.rs:10-39 | a difference confined to 16 consecutive bits changes the CRC |
| `CrcDetection.AdjacentBytesChangeCrc` | src/mavlink/crc.rs:10-39 | a difference confined to two adjacent bytes changes the CRC |
| `CrcDetection.FeedParity` | src/mavlink/crc.rs:10-39 | the parity of the CRC is that of its start value and of all bits fed |
| `CrcDetection.OddFlipsChangeCrc` | src/mavlink/crc.rs:10-39 | flipping an odd number of bits changes the CRC |
| `CrcDetection.ValidDifferEvenly` | src/mavlink/crc.rs:10-39 | two messages that both carry their checksum differ in an even number of bits, the checksum's included |
| `Framing.ChecksumIs` | src/mavlink/framer.rs:229-237 | the checksum is the bit-serial one of the covered bytes with the seed behind them |
| `Framing.SeedsDiffer` | src/mavlink/framer.rs:234 | no two seeds give the same bytes the same checksum |
| `Framing.CheckCrc` | src/mavlink/framer.rs:229-237 | the accumulator accepts exactly a frame that carries the bit-serial checksum of its covered bytes and seed |
| `FramerRule.ScanRule` | src/mavlink/framer.rs:51-170 | by the encoder alone: the framer waits exactly on the beginning of a frame that fits or of a header with an unknown flag, emits exactly a frame that checks, counts an error exactly on a known frame that does not, and drops a byte in every other case |
| `FramerRule.UnknownFlagIsDropped` | src/mavlink/framer.rs:59-67 | with a header there, a start byte with an unknown flag behind it is dropped, whatever length is announced |
| `Framing.ScanStable` | src/mavlink/framer.rs:51-170 | bytes that arrive later never change a decision already possible |
| `Framing.DrainInTwo` | src/mavlink/framer.rs:51-77 | draining, then draining the rest with more input, is draining all at once |
| `Framing.ChunkIndependence` | src/mavlink/framer.rs:51-183 | for every split of a stream into chunks the pieces and the leftover are those of the whole stream |
| `Framing.DrainConserves` | src/mavlink/framer.rs:51-183 | frames and skipped bytes in order, then the leftover, are the input; bytes add up, CRC errors are at most resync bytes, the leftover is at most 279 bytes |
| `Framing.Framer.Write` | src/mavlink/framer.rs:51-77 | appended input extends what was fed and changes no output |
| `Framing.Framer.DiscardByte` | src/mavlink/framer.rs:180-183 | one byte is dropped and counted as resync |
| `Framing.Framer.AlignToStx` | src/mavlink/framer.rs:83-108 | the buffer starts at a start byte or is empty, emitting nothing and counting what it skipped |
| `Framing.Framer.TryValidateAndEmit` | src/mavlink/framer.rs:134-170 | the complete frame at the front is emitted, or one byte is dropped and a CRC error counted |
| `Framing.Framer.TryNextFrame` | src/mavlink/framer.rs:51-77 | terminates; a result is the next frame of the input, none means that the decision at the front, which ScanRule settles, is to wait |
| `Framing.Framer.StateIsDrainOfInput` | src/mavlink/framer.rs:51-183 | when the framer waits, frames, counters and buffer are one drain of everything fed, whatever the chunking |
| `Encoding.ScanFitting` | src/mavlink/framer.rs:112-237 | a frame that fits the format, followed by anything, is emitted with its header, or is a checksum error exactly when it is known and carries another checksum |
| `Encoding.ScanEncoded` | src/mavlink/framer.rs:112-261 | the encoding of a well-formed frame, followed by anything, is emitted with its header fields and targets |
| `Encoding.EmittedIsEncoded` | src/mavlink/framer.rs:112-261 | every emitted frame is the encoding of a well-formed frame with that header |
| `Encoding.FrameIffEncoding` | src/mavlink/framer.rs:51-261 | bytes are accepted as one frame exactly when they encode a well-formed frame |
| `Encoding.DrainIsSound` | src/mavlink/framer.rs:51-261 | on any input, every frame that comes out encodes a well-formed frame |
| `Encoding.StreamRoundTrip` | src/mavlink/framer.rs:51-170 | a prefix without start bytes and any well-formed frames drain to exactly those frames and headers, resync equal to the prefix, no CRC error, empty buffer |
| `Resync.PrefixRoundTripIff` | src/mavlink/framer.rs:51-170 | after any prefix well-formed frames follow directly on what the prefix yields exactly when the prefix leaves nothing buffered |
| `Resync.ComesOutIff` | src/mavlink/framer.rs:51-183 | after any prefix the frames that follow all come out, whole and in order, exactly when the pieces cut off what the prefix leaves buffered end where it does |
| `Resync.TailComesOutIff` | src/mavlink/framer.rs:51-183 | the same from any frame of the stream on |
| `Resync.RecoversIff` | src/mavlink/framer.rs:83-108 | the case with nothing but skipped bytes in between: exactly when every buffered byte is discarded once the frames have arrived |
| `Resync.DiscardedCuts` | src/mavlink/framer.rs:83-108 | recovery by skipped bytes alone is a case of the general condition |
| `Resync.StrayStartByteHides` | src/mavlink/framer.rs:112-129 | behind a stray start byte a v1 frame alone yields nothing: the framer waits for 262 bytes |
| `Resync.StrayStartByteSwallows` | src/mavlink/framer.rs:134-170 | once they have come they are emitted as one frame, the real one inside, if its component id is no known message id |
| `Damage.CorruptedScan` | src/mavlink/framer.rs:134-237 | with framing bytes intact, a damaged known frame is accepted exactly when its covered bytes have the checksum it carries |
| `Damage.EscapesIff` | src/mavlink/framer.rs:229-237 | damage escapes exactly when the flips of the CRC field are those that the flips of the covered bytes cause in the checksum, whatever the frame and the seed |
| `Damage.FieldDamageIsRejected` | src/mavlink/framer.rs:229-237 | damage confined to the CRC field is always rejected |
| `Damage.LastByteEscapesIff` | src/mavlink/framer.rs:229-237 | with only the last covered byte altered exactly one difference of the CRC field escapes |
| `Damage.BurstEscapesIff` | src/mavlink/framer.rs:229-237 | a burst of at most 16 bits over covered bytes and CRC field escapes exactly when it is one of seven patterns at the border of the two, and is rejected otherwise |
| `Damage.BurstIsRejected` | src/mavlink/framer.rs:229-237 | a known frame damaged by a burst of at most 16 bits is rejected as a CRC error |
| `Damage.OddFlipsAreRejected` | src/mavlink/framer.rs:229-237 | so is one with an odd number of flipped bits, covered bytes and CRC field taken together |
| `Damage.AdjacentBytesAreRejected` | src/mavlink/framer.rs:229-237 | so is one altered in one or two adjacent covered bytes |
| `Damage.DamageAtEndEscapes` | src/mavlink/framer.rs:229-237 | one of the seven escapes in every known frame with a payload |
| `Deciding.CheckMsgidAxis` | src/endpoint/filters.rs:214-219 | passes exactly when the allow list is empty or an entry covers the id, and no block entry covers it |
| `Deciding.CheckU8Axis` | src/endpoint/filters.rs:226-231 | the same for a system or component id |
| `Deciding.CheckSrcEndpointAxis` | src/endpoint/filters.rs:236-241 | the same for the name of the source endpoint |
| `Deciding.CheckInFilter` | src/endpoint/filters.rs:178-182 | passes exactly what the six in-lists let through |
| `Deciding.CheckOutFilter` | src/endpoint/filters.rs:186-195 | passes exactly what the eight out-lists let through |
| `Deciding.OutFilterIs` | src/endpoint/filters.rs:186-241 | the out-filter of the specification decides by the eight lists |
| `Deciding.TakeDecision` | src/router/decide.rs:26-48 | the steps of the decision in their order give the decision of the specification |
| `Deciding.TruncationKeepsDecision` | src/router/decide.rs:26-61 | dropping trailing zero payload bytes never changes the routing decision |
| `Deciding.TruncatedFrameRoutesAlike` | src/mavlink/framer.rs:239-261 | both the full and the truncated frame are emitted, and are decided alike everywhere |
| `Recency.OldestIndex` | src/router/learn.rs:76-86 | the first entry with the smallest time |
| `Recency.Find` | src/endpoint/seq_tracker.rs:72-74 | the scan finds the first entry of a node |
| `Recency.EvictOldest` | src/router/learn.rs:76-86 | the minimum scan and swap remove exactly the first oldest entry |
| `Learning.TouchedView` | src/router/learn.rs:37-50 | a touch sets the node's time and, only when full, removes one node of minimal time; nodes stay distinct and within capacity |
| `Learning.TouchAllKeepsRecent` | src/router/learn.rs:37-86 | for nondecreasing times the table holds a most recent set of nodes with their latest times |
| `Learning.HeldUpToTies` | src/router/learn.rs:37-86 | whatever the ties, a node with fewer than capacity others seen no earlier is held with its last time, and one with capacity others seen strictly later is not |
| `Learning.ExactLru` | src/router/learn.rs:37-86 | for nondecreasing times a node whose last time no other node shares is held exactly when fewer than capacity others were seen later |
| `Learning.TableSize` | src/router/learn.rs:37-86 | the table holds the smaller of its capacity and the number of distinct nodes |
| `LearnTies.SinceBetween` | src/router/learn.rs:37-50 | the nodes that arrived after a node lie between those seen strictly later and those seen no earlier |
| `LearnTies.OutsideTies` | src/router/learn.rs:37-86 | away from ties at the bound the table follows the order of arrival |
| `LearnTies.SafeReadings` | src/router/learn.rs:37-86 | under clock readings that are not risky the table holds exactly the nodes that arrived last, whatever nodes were seen |
| `LearnTies.RiskyReadings` | src/router/learn.rs:76-86 | under risky readings some sequence of nodes makes it evict out of that order, for every capacity from two on |
| `LearnTies.OrderKeptIffNotRisky` | src/router/learn.rs:37-86 | the order of arrival is kept for all nodes exactly when the readings are not risky |
| `LearnTies.StrictClock` | src/router/learn.rs:37-86 | with strictly increasing times the table holds exactly the nodes that arrived last |
| `Learning.LearnTable.constructor` | src/router/learn.rs:25-31 | empty, capacity zero taken as one |
| `Learning.LearnTable.Touch` | src/router/learn.rs:37-50 | the table is that of the whole history; the result says whether the node is new |
| `Learning.LearnTable.Has` | src/router/learn.rs:54-56 | membership of a node |
| `Learning.LearnTable.HasSys` | src/router/learn.rs:60-62 | some component of the system is held |
| `Deduplication.CheckRefines` | src/router/dedup.rs:57-95 | one check answers from the history of admissions and keeps ring, set and history in agreement |
| `Deduplication.RunRefines` | src/router/dedup.rs:57-95 | after any run in nondecreasing time, ring and set are the tail of the admissions with distinct hashes |
| `Deduplication.VerdictIsDeclarative` | src/router/dedup.rs:34-75 | a hash is a duplicate exactly when it is among the last capacity admissions, the last one for a capacity of zero, and younger than the TTL |
| `Deduplication.RepeatsAreSpaced` | src/router/dedup.rs:57-95 | two lookups of one hash in a run that both admit it are a TTL or capacity admissions apart |
| `Deduplication.DisabledAdmitsAll` | src/router/dedup.rs:57-60 | with a zero TTL nothing is remembered and nothing is a duplicate |
| `Deduplication.DedupWindow.Evict` | src/router/dedup.rs:90-95 | the oldest entry leaves ring and set |
| `Deduplication.DedupWindow.Expire` | src/router/dedup.rs:80-88 | exactly the expired front of the ring leaves ring and set |
| `Deduplication.DedupWindow.CheckAndEnter` | src/router/dedup.rs:57-75 | the verdict is the declarative one over all admissions, and a new hash is admitted |
| `RouterSafety.EventKeepsInv` | src/router/mod.rs:169-217 | lifecycle events keep reference counts exact and tables valid |
| `RouterSafety.IngestOutcome` | src/router/mod.rs:235-292 | a frame is suppressed exactly when its sender is not routable or it is a duplicate; the missing-group branch is dead |
| `RouterSafety.FrameKeepsInv` | src/router/mod.rs:219-354 | frames keep the invariant and the set of registered ids |
| `RouterSafety.ReachableInv` | src/router/group.rs:35-54 | in every reachable state a group counts exactly its registered members and exists exactly while it has some, and tables hold distinct nodes within capacity |
| `RouterSafety.EffectiveTableExists` | src/router/mod.rs:308-327 | every routable endpoint has a table to consult |
| `RouterSafety.GroupIsolation` | src/router/mod.rs:272-352 | a frame is queued neither to its source nor to another non-sniffer member of the source's group |
| `RouterSafety.NeverEchoed` | src/router/mod.rs:235-354 | the same at every frame of every run |
| `RouterDelivery.StepPushes` | src/router/mod.rs:301-354 | a step appends the frame to a destination's pushes exactly when it is delivered there |
| `RouterDelivery.ExactlyOnceInOrder` | src/router/mod.rs:301-354 | over a run the pushes to a destination are exactly the delivered frames, once each, in arrival order |
| `RouterRules.DeliveryRule` | src/router/mod.rs:235-354 | in terms of the tables before the frame: queued at a destination exactly when accepted, elsewhere and routable, and a sniffer or on another side, let through by the out-lists and matching the target |
| `RouterRules.RefusalRule` | src/router/mod.rs:330-352 | the out-filter is charged exactly with accepted frames for a non-sniffer on another side that it blocks, whether or not the target matches |
| `RouterRules.DecisionRule` | src/router/decide.rs:26-61 | each of the four decisions, exactly, by the table, the lists and the addressees |
| `RouterReplies.TargetRule` | src/router/decide.rs:50-61 | a frame matches exactly when it has no target system or an addressee was learned |
| `RouterHistory.RegistryIs` | src/router/mod.rs:169-217 | the registry holds exactly what the lifecycle events so far say of each id |
| `RouterHistory.WindowIs` | src/router/mod.rs:252-268 | the duplicate window is the one left by one lookup per frame of an endpoint registered at the time |
| `RouterHistory.AcceptedIs` | src/router/mod.rs:235-292 | a frame is accepted exactly when its sender is registered and it repeats none of the last admissions within the TTL |
| `RouterHistory.LearnTablesAre` | src/router/mod.rs:272-291 | over every run a group's table is the one its sightings leave since the group came to life, and an ungrouped endpoint's the one its own sightings leave |
| `RouterHistory.EffectiveTableIs` | src/router/mod.rs:308-327 | so is the table consulted for any registered endpoint |
| `RouterHistory.DeliveryByHistory` | src/router/mod.rs:235-354 | a frame is delivered exactly when a rule over the history alone says so |
| `RouterHistory.PushesByHistory` | src/router/mod.rs:219-354 | over every run each queue received exactly the frames that rule sends it, once each, in order |
| `RouterHistory.DropsByHistory` | src/router/mod.rs:262-352 | over every run the two drop counters of an endpoint count exactly the refused and the repeated frames of the history |
| `RouterHistory.ListsDecide` | src/endpoint/filters.rs:186-241 | over every run, with everything else in favour, a frame is delivered exactly when on each of the four axes the allow list is empty or covers it and the block list does not, and otherwise counted as refused |
| `RouterHistory.DeliveryHasProvenance` | src/router/decide.rs:26-61 | a non-sniffer receives a targeted frame only if an addressee was heard behind it, or in its group, in the lifetime of its table |
| `RouterHistory.KnownIsRecent` | src/router/learn.rs:37-62 | when no two frames share a reading an endpoint knows exactly the nodes heard behind it that fewer than 32 others were heard after |
| `RouterHistory.KnownUpToTies` | src/router/learn.rs:37-62 | whatever readings are shared, fewer than 32 others heard no earlier means known and 32 heard strictly later means not known |
| `RouterOrder.HistoryIsRecorded` | src/router/mod.rs:272-291 | every history in order of time is what some legal run of the router records for an ungrouped endpoint |
| `RouterOrder.RouterTies` | src/endpoint/identity_flags.rs:14 | at the router's table size the order of arrival can break exactly under risky readings |
| `RouterOrder.RouterOrderIff` | src/router/learn.rs:37-86 | every run that hears an endpoint at given readings leaves it knowing what arrived last exactly when the readings are not risky |
| `RouterReplies.RunRemembers` | src/router/learn.rs:37-86 | a node heard stays in the effective table while fewer than 32 other nodes touch it, over any run that does not remove the endpoint |
| `RouterReplies.RememberedIsAnswered` | src/router/decide.rs:26-61 | a frame addressed to a remembered node is delivered unless loop-blocked or filtered |
| `RouterReplies.ReplyIsDelivered` | src/router/mod.rs:235-354 | so a reply to a node heard from an endpoint is queued on that endpoint |
| `RouterTask.GroupRegistry.JoinGroup` | src/router/group.rs:35-42 | the first member creates the table, later ones add to the count |
| `RouterTask.GroupRegistry.LeaveGroup` | src/router/group.rs:46-54 | the last member removes the table, unknown groups are ignored |
| `RouterTask.Router.HandleEvent` | src/router/mod.rs:169-217 | the object moves as the state machine does on the event |
| `RouterTask.Router.IngestSourceFrame` | src/router/mod.rs:235-292 | admission, duplicate count and learning as in the state machine |
| `RouterTask.Router.DecideFor` | src/router/mod.rs:308-340 | the decision for one registered endpoint |
| `RouterTask.Router.DispatchToDestinations` | src/router/mod.rs:301-354 | for every iteration order the pushes and filter drops are those of the order-free dispatch |
| `RouterTask.Router.HandleFrame` | src/router/mod.rs:219-231 | the object moves as the state machine does on the frame |
| `RouterTask.Router.ShutdownSweep` | src/router/mod.rs:356-368 | every endpoint still registered is finalized exactly once and the registry is empty |
| `Protocol.StepOk` | src/endpoint/udp/server.rs:200-369 | every step of a task, a listener or the router keeps the protocol invariant, ids being allocated in one step and announced in a later one |
| `Protocol.ReachableOk` | src/router/mod.rs:392-404 | the invariant holds after every interleaving |
| `Protocol.RegisteredBeforeFrame` | src/router/mod.rs:252-260 | when the router takes a frame its sender is routable, or was removed before and the frame changes nothing |
| `Protocol.RegistryMatchesPeers` | src/endpoint/udp/server.rs:239-369 | with no event in flight and the listener at rest, the listener's registered children are exactly its peers |
| `Protocol.PeersWithinCapacity` | src/endpoint/udp/server.rs:239-324 | the peer table never exceeds its capacity, taken as at least one |
| `Protocol.NextEventIsFresh` | src/endpoint/mod.rs:79-81 | no announced id is registered already |
| `Protocol.RouterRunsLegally` | src/router/mod.rs:380-414 | over every interleaving the router's inputs form a legal run and its state is the outcome of that run |
| `Protocol.EveryRunIsSafe` | src/endpoint/spawn.rs:178-236 | the guarantees above together, in every reachable state |
| `ProtocolHistory.RouterFed` | src/endpoint/spawn.rs:178-236 | over every interleaving the events and frames sent are exactly those the steps call for, frames under the id of the address they came from, and the router takes both in order |
| `PeerHistory.PeersByHistory` | src/endpoint/udp/server.rs:200-369 | a listener holds exactly the addresses the steps leave present, with their ids and the times of their last packets, within the capacity it was set up with, and none once stopped |
| `PeerHistory.EvictedIsStalest` | src/endpoint/udp/server.rs:304-324 | the peer withdrawn as evicted is one whose last packet came no later than that of any peer kept |
| `PeerHistory.EvictsIffFull` | src/endpoint/udp/server.rs:274-276 | a peer is evicted exactly when the table is full |
| `PeerHistory.IdleIsSilent` | src/endpoint/udp/server.rs:326-350 | a peer withdrawn as idle had been silent for the idle time at the last tick |
| `PeerHistory.SweepWithdrawsSilent` | src/endpoint/udp/server.rs:326-350 | from a tick to the end of its sweep exactly the peers silent for the idle time are withdrawn as idle and the others stay |
| `ProtocolProgress.WaitingTakes` | src/endpoint/udp/server.rs:114-185 | a waiting listener takes up a packet of any address, a tick at any time and the shutdown |
| `ProtocolProgress.NeverStuck` | src/endpoint/udp/server.rs:114-369 | in every reachable state a listener that has not stopped has a step to take |
| `IncludeWalk.FinishedIsClosed` | build_support/xml_loader.rs:19-51 | everything reachable from a finished file is finished, loaded and on no cycle |
| `IncludeWalk.Walker.WalkInner` | build_support/xml_loader.rs:19-51 | a file finishes with all it includes, or a reachable cycle or load failure is reported |
| `IncludeWalk.WalkIncludes` | build_support/xml_loader.rs:9-17 | terminates; succeeds exactly when all that is reachable loads and is acyclic, loading each reachable key exactly once; a reported cycle or failure is reachable and real |
| `Layout.StableSortIsStable` | build.rs:280-315 | sorting by size keeps the order within each size |
| `Layout.StableSortUnique` | build.rs:280-315 | any stable size-descending order is the list of size classes, largest first |
| `Layout.ComputeOffsets` | build.rs:280-315 | fails exactly on malformed messages; a reported target offset is the wire size of the base fields before it |
| `Layout.OffsetsUnique` | build.rs:280-315 | a message has one layout |
| `Layout.FieldsAreAligned` | build.rs:280-315 | every base field's offset is a multiple of its element size |
| `Layout.SizeIsSpelled` | build_support/crc_extra.rs:37-45 | an integer type has the size its name spells in bits, the others that of their C type |
| `Layout.CrcExtra` | build_support/crc_extra.rs:55-81 | the loops compute the folded CRC of the name and the ordered base fields; fails exactly on an unknown type among two or more |
| `Layout.ExtensionsIgnored` | build_support/crc_extra.rs:55-81 | inserting an extension field anywhere leaves the base fields, hence offsets and seed |
| `Layout.VersionTypeIsByte` | build_support/crc_extra.rs:47-53 | the type of the protocol version takes part in the seed as a plain byte |
| `Layout.ReorderAcrossSizes` | build_support/crc_extra.rs:55-81 | declarations that agree on the order within each size, whatever lies between, have the same wire order, seed and layout |
| `Layout.ExchangeAcrossSizes` | build_support/crc_extra.rs:55-81 | for one, exchanging neighbours of different size changes neither seed nor layout |
| `Layout.IngestMessage` | build.rs:118-143 | a table entry exists exactly when the dialect is not malformed, with the seed and offsets of the wire order |
| `Layout.LoneUnknownType` | build_support/crc_extra.rs:55-57 | a lone field of unknown type gets a seed on its own and is refused by the layout |
| `Layout.PlainByteRefused` | build.rs:288-298 | a scalar byte past offset 255 is refused in a message without targets |
| `Layout.EdgeByteAccepted` | build.rs:288-298 | at offset 255 it is accepted |
| `Published.PingSeed` | build_support/crc_extra.rs:55-81 | PING of the common dialect gets its published seed 237 |
| `Published.PingOffsets` | build.rs:280-315 | and its targets lie at offsets 12 and 13 |
| `Published.KeySeed` | vendor/mavlink/common.xml:5451-5454 | AUTH_KEY, an array alone, gets its published seed 119 |
| `SequenceLoss.GapOfCounters` | src/endpoint/seq_tracker.rs:53 | the wrapping gap is the true gap modulo 256, and exact below 256 |
| `SequenceLoss.ReportIsBounded` | src/endpoint/seq_tracker.rs:51-70 | a report never exceeds the true loss and is exact precisely when nothing was lost, or the source is tracked and lost fewer than 64 |
| `SequenceLoss.EstimateIsBounded` | src/endpoint/seq_tracker.rs:51-86 | whatever the interleaving and eviction, the sum never exceeds the true loss |
| `SequenceLoss.AllHeld` | src/endpoint/seq_tracker.rs:61-86 | with no more sources than entries no source is forgotten |
| `SequenceLoss.EstimateTelescopes` | src/endpoint/seq_tracker.rs:51-86 | per source the sum is at most, and for short bursts exactly, the counter distance less the frames received |
| `TrackerMemory.TrackerIsTable` | src/endpoint/seq_tracker.rs:51-86 | sequence numbers apart, the tracker is the learn table of the sources of its frames |
| `TrackerMemory.HeldUpToTies` | src/endpoint/seq_tracker.rs:76-86 | a source with fewer than capacity others heard no earlier is held, one with capacity others heard later is forgotten |
| `TrackerMemory.ExactIffRecent` | src/endpoint/seq_tracker.rs:51-86 | with a strictly increasing clock a report is exact precisely when nothing was lost, or fewer than 64 frames were and fewer than capacity other sources were heard since |
| `SequenceLoss.SeqTracker.ObserveFrame` | src/endpoint/seq_tracker.rs:51-70 | the object moves and reports as the specification |
| `Ingress.Session.ForwardInboundFrames` | src/endpoint/session.rs:45-84 | every frame is counted and shown to the tracker before the filter; those that pass are sent in order, and when the channel closes only the frame in hand is missing |
| `Ingress.Session.OnRead` | src/endpoint/session.rs:132-159 | a read is forwarded at once, until the buffer needs more input |
| `Ingress.Session.SentIsDrainOfInput` | src/endpoint/session.rs:45-84 | sent are, in order, the frames of one drain of all bytes received that the six in-lists let through, and the counters count them, however the bytes were cut |
| `Ingress.Session.LossIsNotOverstated` | src/endpoint/session.rs:53-58 | the session's loss counter never exceeds what the sources truly lost |
| `Egress.TxQueue.Push` | src/endpoint/tx_queue.rs:36-41 | the frame is appended, a full queue giving up its oldest frame, which is counted; the queue holds the latest pushes |
| `Egress.TxQueue.Pop` | src/endpoint/tx_queue.rs:43-45 | the oldest frame leaves |
| `Egress.TxQueue.DrainAndDiscard` | src/endpoint/tx_queue.rs:62-71 | the queue empties and every frame in it is counted as dropped |
| `Egress.EgressConserves` | src/endpoint/udp/server.rs:371-396 | over every interleaving, also with the one-by-one discard at cancel, pushes equal sent, dropped, queued, in hand and being discarded; the wire is in push order and the queue holds the latest pushes |
| `Egress.QueueHoldsLatest` | src/endpoint/tx_queue.rs:36-45 | the queue of the interleaving holds the frames that the queue object holds |
| `Egress.OverflowIff` | src/endpoint/tx_queue.rs:36-41 | the counters count sends, failed sends, discards and overflow, and nothing has overflown exactly when no more than the capacity was ever waiting |
| `EndToEnd.EveryPushIsOwed` | src/router/mod.rs:380-414 | over every interleaving of the running system each queue was given exactly the frames the history calls for, in order |
| `EndToEnd.WireIsOwed` | src/endpoint/udp/server.rs:371-396 | with the writer of a peer stepping along, the wire is in order a selection of the owed frames, and owed equals sent, dropped, queued, in hand and being discarded |
| `Stats.FirstInterval` | src/stats.rs:365 | the position of the oldest interval line |
| `Stats.LinesAreConserved` | src/stats.rs:327-427 | every line offered is dequeued, queued or dropped, as often as it was offered, at every point; drops are counted and the queue is empty whenever the loop waits |
| `Stats.FinalLinesSurvive` | src/stats.rs:190-237 | whenever the loop waits every final line offered has been dequeued, and at the end too; one is dropped exactly when more than capacity arrive after cancel |
| `Stats.NoLineAfterFinal` | src/stats.rs:270-323 | with ids never reused no line for an endpoint follows its final line |
| `Stats.OneFinalLineEach` | src/stats.rs:270-381 | with output enabled an endpoint whose registration and later end arrived gets exactly one final line and any other none; it is dequeued unless too many arrive after cancel |
| `StatsOutput.LinesWritten` | src/stats.rs:190-427 | every line written, in order: of a tick the latest that fit the queue, for the end of a registered endpoint its final line, and of the ends after cancel the latest that fit |
| `StatsOutput.DisabledIsSilent` | src/stats.rs:270-307 | with output disabled nothing is offered, written or dropped |
| `Stats.StatsTask.PushInterval` | src/stats.rs:327-345 | a full queue gives up its oldest line, which is counted; with no capacity the line itself is dropped |
| `Stats.StatsTask.PushFinal` | src/stats.rs:350-381 | a full queue gives up its oldest interval line, or its oldest line when all are final |
| `Stats.StatsTask.Handle` | src/stats.rs:270-307 | registry and queue after a lifecycle message |
| `Stats.StatsTask.EmitInterval` | src/stats.rs:309-323 | one line per registered endpoint, in some order |
| `Stats.StatsTask.DrainQueue` | src/stats.rs:395-427 | everything queued is dequeued in order |
| `StatsFeed.RegistersOnce` | src/router/mod.rs:145-217 | over every interleaving the router registers no id twice with the stats task |
| `StatsFeed.FinalLineIsLast` | src/router/mod.rs:122-131 | end to end, whichever messages the channel loses, no line for an endpoint follows its final line |
| `StatsFeed.OneFinalLineThrough` | src/router/mod.rs:122-131 | end to end, whichever messages the channel loses, an endpoint gets exactly one final line if its registration and later end get through and none otherwise |
| `StatsFeed.EveryEndpointReported` | src/router/mod.rs:356-368 | when nothing is lost and the sweep ends the survivors, every endpoint ever registered gets exactly one final line |

## Left out

- Sockets, serial ports, DNS, signals, wakeups and task scheduling: only their effect as reads, events and frames is modelled, as nondeterministic steps.
- Branches taken once the router has exited and its channels are closed: endpoint tasks stop there; only the frame channel of a session is modelled as closing.
- Egress of TCP, serial and UDP client endpoints: a failed write loses a frame without a counter, so conservation is stated for the UDP peer writer only.
- The UDP client's address latch and the reconnect backoff: they carry no state that the modelled parts depend on.
- Command line, TOML and endpoint parsing, configuration merge: text handling before any task starts.
- XML parsing, merging of repeated messages and emission of the message table: the table is any partial map.
- JSON lines, timestamps, tracing, and write errors of the stats output: a dequeued line counts as disposed of.
- Hash collisions of the duplicate window: verdicts are stated over hashes.
- The order in which included files are loaded: stated is which files load, each once.
- Saturation and atomicity of counters; the published endpoint state, learn-table size and framer counters.
- The aliasing of tables in the router: learn tables are values in its maps, since each has one owner.
- Stats.NoLineAfterFinal: assumes ids are not registered twice, which StatsFeed.RegistersOnce proves of the running system.
- Protocol.RegisteredBeforeFrame: relies on one router step being atomic, as stated above.
