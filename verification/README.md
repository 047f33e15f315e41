# fastlive: a verified model

fastlive is a small RTMP live-streaming server written in Go. This Dafny project models its
state-bearing parts and proves what they promise. `dafny verify dfyconfig.toml` checks everything.

| part | files | what is modelled |
|---|---|---|
| MPMC ring | `Words`, `RingProtocol`, `RingTheorems`, `RingOperations`, `RingProgress`, `RingLimits`, `RingContention`, `RingBuffer` | `research/queue/ring.go` as interleaved atomic steps of any number of threads (`RingProtocol.Step`), and as an object whose operations run one at a time |
| chunk codec | `Bytes`, `ChunkHeaders`, `Sending`, `WriteHalf`, `Receiving`, `ReadHalf` | the splitter with its gather buffer and header pool, and the stateful demultiplexer, each as an object over its fields and as a function on byte strings |
| codec theorems | `RoundTrip`, `RoundTripLimits`, `Publishing`, `Demux`, `Changeover`, `EndToEnd` | printer/parser inversion and exactly where it holds, streams of publishers that compress their headers, independence of interleaved chunk streams, the chunk-size changeover of the connect response, both halves joined |
| server | `Player`, `FanOut`, `FanOutProgress`, `Broker`, `BrokerLife` | timestamp repair and merge-write accounting; publisher, players and expiry over mutex, flag and channel; publisher ownership of sessions |
| handshake | `Handshake` | digest placement in the complex handshake |

Every arithmetic operation of the source on `uint64` or `uint32` is written modulo 2^64 or 2^32
where it can wrap. The integer bounds that theorems need are stated as hypotheses.

## How to read it

* **Protocols** (`RingProtocol`, `FanOut`, `Brokers`) are a state, a step function and an inductive
  invariant; main results quantify over every run. A blocked or senseless step leaves the state alone.
* **Objects** (`RingBuffer`, `WriteHalf`, `ReadHalf`, `Player`, `Broker`) carry the source's fields.
  Their methods are specified by functions whose own properties are proved as lemmas.
* **Numbers of the protocol.** Lemmas named `...Layout` and `...Exactly`, `Publishing.HeaderOutcome` and
  `Sending.SpecificationExample` state the formats in literal numbers, apart from the constants and
  functions that both ends share.
* **Byte strings.** `Receiving.RecvMessage` reads an input from a position; `Sending.SendBytes` is
  what one message becomes on the wire. `At(input, pos, bytes)` says that `bytes` stand there.

## What turned out false of the code, with the exact condition

* A ring of requested size 1 has one slot and a second put overwrites the first
  (`OneSlotOverruns`); sizes 0 and above 2^63 give no slot at all. Of all uint64 sizes exactly those
  from 2 to 2^63 give a bounded FIFO under every schedule (`FifoIffTwoSlots`).
* `Offer` is documented to refuse when the ring is full. It also refuses with a free slot when its CAS
  is lost to another producer (`LostRaceRefuses`) and, without trying a CAS, when the slot's last
  consumer has its ticket but has not left the slot (`BusySlotRefuses`). It is refused exactly when its
  ticket is no longer next at its decision or, at its look, the ring was full or that consumer was not
  done (`OfferRefusedIff`).
* `Len` makes two loads; its result is at most the capacity exactly when gets have not overtaken the
  first load (`LenBounded`). A run in which they have returns 2^64 - 1 (`LenOvertaken`). A result within
  the capacity is a lower bound on every length between the loads, and was the length at a moment
  exactly when each put claimed between the loads came after it and each get before it
  (`LenIsLowerBound`). It need not have been the length at all: a run returns 0 although the ring
  holds an item throughout the call (`LenNeverHeld`).
* The splitter and the receiver do not fit on five counts: what is unwritten is computed from the last
  chunk alone, so a multiple of the chunk size is followed by one empty fmt 3 chunk (`SurplusUnread`);
  the encoder accepts csids for which the receiver's stream is nil (`HighCsidLost`); a timestamp of
  0xffffff or more announces four bytes that are never sent (`LateTimestampLost`); and a length that
  needs more than 24 bits or a type id that needs more than 8 is written truncated, so that a cut
  message arrives (`TruncatedArrives`). Of all the messages the sender encodes, at any chunk size, one
  arrives unchanged with every byte consumed exactly when its csid is at most 65559, its timestamp below
  0xffffff, its type id below 256 and its length below 2^24 and either at most the chunk size or not a
  multiple of it (`RoundTripIff`).
* On a stream that has seen an extended timestamp the receiver looks at four bytes after the header,
  even past the end of the chunk. A chunk can be read from its own bytes exactly when it does not
  (`AloneIffPeekInside`), and `PeekOutsideReached` is an input to a new connection, read in chunks of
  128 bytes, on which a stream alone fares worse than interleaved with another.
* An extended timestamp works for the first message of a chunk stream (`ExtendedServed`: it arrives with
  its low 31 bits). From then on the stream always looks for one, and takes the four bytes only when the
  last timestamp was 0 or is the same (`ExtendedAgainIff`); a later message with another timestamp keeps
  the old one and opens with the four bytes of its own (`ExtendedAgainCut`).
* A new message opened by fmt 3 keeps the timestamp of the one before, although section 5.3.1.2.4 of the
  RTMP Specification 1.0 adds the delta again, for the branch that adds it is never taken
  (`Fmt3KeepsTimestamp`). Whether fmt 0, 1 or 2 set that delta, the two agree exactly when it is 0
  (`Fmt3AgreesIff`). After a fmt 0 message the timestamp is the delta: one at 40 ms is followed by
  another at 40 and not 80 (`Fmt3DeltaLost`, for messages of any number of chunks).
* Audio and video timestamps leave in order exactly when no late packet meets a base within 40 ms of
  2^32 (`RisesIffNoWrap`; `WrapReached` is a list of two packets that do not).
* A session's watcher takes one offline signal in its life. A leaver gets out in some continuation
  exactly when the offline channel is not full or that one receive is still to come
  (`LeaverEscapesIff`); the third publisher in turn meets neither (`ThirdLeaverReached`).
* A stored session is removed in some continuation exactly when its timer has not fired
  (`RemovableIff`); `SurvivorReached` is a run that leaves one with no publisher and no connection.
* A header buffer comes back to the pool at the length it was used with. After any message of several
  chunks on a small csid one byte is left (`LeavesShortBuffer`), and a csid of 64 or more that meets
  such a buffer panics (`PanicReached`).

In each case the model follows the code.

## Model

| member | source | states |
|---|---|---|
| Words.RoundUp | research/queue/ring.go:22-34 | the smearing loop yields the least power of two at or above v for 1..2^63, and 0 otherwise (wrap-around at 0 and above 2^63) |
| Words.SmearFills | research/queue/ring.go:26-31 | the six shift-or lines set every bit below the top one, for every 64-bit value |
| Words.AndOnesIsMod | research/queue/ring.go:93 | masking with 2^k - 1 is the remainder modulo 2^k |
| Words.SlotIsMod | research/queue/ring.go:93 | `pos & mask` is pos mod the capacity |
| Words.SlotsDistinct | research/queue/ring.go:60-67 | tickets of one capacity-wide window stand on pairwise distinct slots, and a ticket one capacity later on the same slot |
| RingProtocol.StepInv | research/queue/ring.go:84-169 | every atomic step of every thread keeps the invariant: a ticket's slot holds position p, p+1 or p+cap according to who may touch it, thread by thread |
| RingProtocol.DeliverStep | research/queue/ring.go:165-168 | the recycling store hands the next lap a free slot and the caller the item of its own ticket |
| RingProtocol.WordDifference | research/queue/ring.go:95-104 | the switch both loops step by claims on the unsigned difference exactly for equal words and otherwise reloads, never panics, although the signed difference would panic exactly when the slot is behind |
| RingTheorems.RingRefinesFifo | research/queue/ring.go:84-169 | from a fresh ring of at least two slots every schedule is step for step a bounded FIFO run whose only effects are the two successful CASes |
| RingTheorems.DeliversHead | research/queue/ring.go:131-169 | the consumer of ticket p returns the item whose put claimed ticket p, once; 0 <= queue - dequeue <= capacity |
| RingOperations.PutTakesEffectOnce | research/queue/ring.go:84-116 | between its start and its return a put appends its own item exactly once if it ends stored, and does nothing if it ends refused or disposed; only an offer is refused, and none panics |
| RingOperations.PollTakesEffectOnce | research/queue/ring.go:131-169 | a poll that returns an item took exactly that item from the head, once, between start and return; one that times out or finds the ring disposed took nothing |
| RingOperations.LooksFreeIff | research/queue/ring.go:93-96 | exactly when a producer sees its ticket in the slot: next, not full and the last consumer gone, or stale and not yet published |
| RingOperations.OfferRefusedIff | research/queue/ring.go:84-108 | an offer is refused exactly when its ticket is no longer next at its decision, or at its look the ring was full or the slot's last consumer not done; otherwise it claims |
| RingOperations.DisposedStops | research/queue/ring.go:88-90 | a put or poll that starts after a Dispose ends disposed without effect, whatever the other threads do |
| RingOperations.EndsForCause | research/queue/ring.go:88-90 | no operation ends disposed on a live ring, or timed out before the clock has run out at its last look |
| RingOperations.GivesUpIff | research/queue/ring.go:159-161 | a poll gives up at a reload or a lost CAS exactly when it has a timeout and that is over |
| RingContention.LostRaceRefuses | research/queue/ring.go:97-108 | a run from a fresh ring in which an offer is refused by a lost CAS with a free slot all the time |
| RingContention.BusySlotRefuses | research/queue/ring.go:102-108 | a run in which it is refused without a CAS, again with a free slot all the time |
| RingContention.LenOvertaken | research/queue/ring.go:171-174 | a run in which Len returns 2^64 - 1 |
| RingContention.LenIsLowerBound | research/queue/ring.go:171-174 | over a whole Len of any run: the result against the length at every moment between its two loads, and exactly when it equals it |
| RingContention.LenNeverHeld | research/queue/ring.go:171-174 | a run in which Len returns 0 although the ring holds an item throughout the call |
| RingContention.EmptyTimesOut | research/queue/ring.go:131-161 | a timed poll of an empty ring times out and leaves everything as it was |
| RingTheorems.SlotExclusive | research/queue/ring.go:113-114 | two threads inside a claim window stand on different slots |
| RingTheorems.RunSlotExclusive | research/queue/ring.go:84-169 | slot exclusivity in every reachable state |
| RingProgress.NothingLost | research/queue/ring.go:84-169 | with no thread inside a window, every item ever put was delivered exactly once in ticket order or is still in its slot, and the other slots are cleared and free |
| RingProgress.SoloPut | research/queue/ring.go:86-111 | from any stale ticket a blocking put running alone succeeds within two turns of its loop if the ring is not full |
| RingProgress.SoloGet | research/queue/ring.go:131-164 | likewise a poll returns the oldest item if the ring is not empty |
| RingLimits.OneSlotOverruns | research/queue/ring.go:60-67 | a one-slot ring is not a FIFO: a concrete schedule of one thread overruns it |
| RingLimits.FifoIffTwoSlots | research/queue/ring.go:60-67 | of all uint64 sizes, the ring built has slots and is a bounded FIFO under all schedules if and only if the size is 2 to 2^63 |
| RingLimits.DisposeDrains | research/queue/ring.go:181-186 | after Dispose at most one more put or get per thread takes effect, for threads already past the flag |
| RingLimits.LenBounded | research/queue/ring.go:171-174 | what two separate loads return, and exactly when it is at most the capacity |
| RingBuffers.RingBuffer.constructor | research/queue/ring.go:60-67 | a new ring is empty with the least power-of-two capacity; sizes 0 and above 2^63 give no slot |
| RingBuffers.RingBuffer.PutFrom | research/queue/ring.go:86-116 | the put loop from a possibly stale ticket: appends or leaves everything, succeeds within two turns, refuses an offer exactly when full |
| RingBuffers.RingBuffer.Put | research/queue/ring.go:72-75 | appends unless disposed or full |
| RingBuffers.RingBuffer.Offer | research/queue/ring.go:80-82 | run alone, refuses exactly when the length equals the capacity |
| RingBuffers.RingBuffer.PollFrom | research/queue/ring.go:131-169 | the poll loop: takes the oldest item, or reports disposal or timeout and changes nothing |
| RingBuffers.RingBuffer.Poll | research/queue/ring.go:122-169 | takes the oldest item exactly when there is one and the ring is not disposed |
| RingBuffers.RingBuffer.Len | research/queue/ring.go:171-174 | the number of items, at most the capacity |
| RingBuffers.RingBuffer.Dispose | research/queue/ring.go:184-186 | sets the flag and keeps the contents |
| RingBuffers.StoreSettled | research/queue/ring.go:97-115 | a put run alone turns one settled state of the protocol into the next |
| RingBuffers.TakeSettled | research/queue/ring.go:150-168 | likewise a get |
| Bytes.UintAsBytes | pkg/rtmp/common/common.go:6-17 | writes exactly the n low-order bytes in either order and nothing else |
| Bytes.BytesAsUint32 | pkg/rtmp/common/common.go:20-33 | the accumulating loop is the decoded value modulo 2^32 |
| Bytes.DecodeEncode | pkg/rtmp/common/common.go:6-33 | decoding an encoded value gives it back modulo 256^n, in both byte orders |
| Bytes.EncodeDecode | pkg/rtmp/common/common.go:6-33 | encoding a decoded string gives the bytes back |
| ChunkHeaders.EncodeBasic | pkg/rtmp/chunk/basic_header.go:34-58 | writes the 1, 2 or 3 byte form, nothing for a bad csid, and panics exactly when an index passes the slice |
| ChunkHeaders.EncodeMessage | pkg/rtmp/chunk/message_header.go:35-67 | writes the layout of the fmt at an offset, or nothing for a bad fmt |
| ChunkHeaders.EncodeHeader | pkg/rtmp/chunk/header.go:27-39 | both headers in one buffer; which error leaves which bytes behind, and that it panics exactly when the basic header is longer than the slice |
| ChunkHeaders.BasicLayout | pkg/rtmp/chunk/basic_header.go:34-58 | the three forms byte by byte: up to csid 63, 319 and 65599, counting from 64 |
| ChunkHeaders.MessageLayout | pkg/rtmp/chunk/message_header.go:35-67 | every byte of the header of each fmt, the stream id alone little-endian |
| ChunkHeaders.BasicRoundTrip | pkg/rtmp/connection/connection.go:199-219 | whatever follows it, a basic header reads back as its fmt and csid, for every csid 2..65599 |
| ChunkHeaders.FieldsRoundTrip | pkg/rtmp/connection/connection.go:248-276 | the fields that fmt 0, 1 and 2 carry read back as written, across both byte orders |
| Receiving.ChunkKeepsStreams | pkg/rtmp/connection/connection.go:342-395 | a chunk leaves its stream at a boundary, strictly inside a fully allocated message, or exactly complete; nothing underflows |
| Receiving.AnnouncedExactly | pkg/rtmp/server/server_conn.go:136-137 | type 1 and no other sets the chunk size, to its big-endian number |
| ReadHalves.ReadHalf.constructor | pkg/rtmp/connection/connection.go:49-93 | the remote chunk size is clamped to at least 128 |
| ReadHalves.ReadHalf.ReadChunkBasicHeader | pkg/rtmp/connection/connection.go:199-219 | reads what `ParseBasic` says and moves the cursor behind it |
| ReadHalves.ReadHalf.ReadChunkMessageHeader | pkg/rtmp/connection/connection.go:221-340 | every field, error and cursor position of the header function |
| ReadHalves.ReadHalf.ReadExtendedTimestamp | pkg/rtmp/connection/connection.go:311-329 | the peek at four bytes and when they are consumed |
| ReadHalves.ReadHalf.ReadChunkMessageBody | pkg/rtmp/connection/connection.go:342-395 | the body slice lands at HasRead in the message buffer, which is made once per message |
| ReadHalves.ReadHalf.ReceiveChunk | pkg/rtmp/connection/connection.go:157-195 | one chunk changes its own stream and no other stream's fields or buffer |
| ReadHalves.ReadHalf.RecvIntegralMessage | pkg/rtmp/connection/connection.go:150-197 | the receive loop equals `RecvMessage` on the streams' values |
| ReadHalves.ReadHalf.HandleSetChunkSizeMessage | pkg/rtmp/connection/connection.go:480-482 | the announced size is the big-endian payload modulo 2^32 |
| ReadHalves.ReadHalf.OnRecvIntegralMessage | pkg/rtmp/server/server_conn.go:126-137 | handling a message resets its stream whatever its type and adopts an announced size |
| ReadHalves.ReadHalf.ServeAll | pkg/rtmp/server/server_conn.go:102-111 | the caller's loop equals `Serve`: the same messages, error and chunk size |
| ReadHalves.Stream.Reset | pkg/rtmp/chunk/stream.go:35-38 | clears progress and completeness only |
| Sending.SendLength | pkg/rtmp/connection/connection.go:403-472 | the bytes of a message are payload + 11 + chunks times the basic size, with n/L + 1 chunks, or one if n <= L |
| Sending.BoundaryIsMultiple | pkg/rtmp/connection/connection.go:412-415 | the splitter runs into the payload's end exactly at multiples of the chunk size |
| Sending.SpecificationExample | pkg/rtmp/connection/connection.go:397-473 | the 307-byte video message of section 5.3.2 of the RTMP Specification 1.0, every header byte of its three chunks |
| WriteHalves.WriteHalf.constructor | pkg/rtmp/connection/connection.go:80-88 | a local chunk size up to 128 becomes 4096 |
| WriteHalves.WriteHalf.Write | pkg/rtmp/connection/connection.go:109-112 | appends one part to what is pending |
| WriteHalves.WriteHalf.EncodeChunkHeader | pkg/rtmp/connection/connection.go:447-452 | the header is encoded into a buffer that is neither free nor queued; it panics exactly when the free buffer taken is too short |
| WriteHalves.WriteHalf.SendChunk | pkg/rtmp/connection/connection.go:417-469 | one chunk is appended, or nothing if the csid is bad; it panics exactly when the free buffer taken is too short |
| WriteHalves.WriteHalf.SendIntegralMessage | pkg/rtmp/connection/connection.go:397-473 | appends exactly `SendBytes` and returns its length; an error leaves what is pending unchanged; a first chunk that takes a too-short buffer panics, a message of one chunk only then |
| WriteHalves.LeavesShortBuffer | pkg/rtmp/connection/connection.go:119-127 | once a message of several chunks on a csid below 64 is flushed, the pool holds a one-byte buffer, which no csid of 64 or more fits |
| WriteHalves.PanicReached | pkg/rtmp/connection/connection.go:447-452 | from any state: a message of several chunks on a csid below 64, a flush, and any message on a csid of 64 or more that takes the buffer that came back panics |
| WriteHalves.WriteHalf.Flush | pkg/rtmp/connection/connection.go:114-136 | hands over everything pending in send order and frees exactly the queued header buffers |
| WriteHalves.ChunkAppend | pkg/rtmp/connection/connection.go:447-470 | queueing a header keeps every buffer free once, queued once, or neither |
| WriteHalves.FreeOne | pkg/rtmp/connection/connection.go:119-127 | freeing even entries keeps that ownership |
| WriteHalves.HeadersFreed | pkg/rtmp/connection/connection.go:119-127 | Flush loses and invents no buffer |
| RoundTrip.MessageRoundTrip | pkg/rtmp/connection/connection.go:150-473 | a sent message, whatever follows, is received with all its fields, stopping exactly before the surplus chunk |
| RoundTrip.SurplusUnread | pkg/rtmp/connection/connection.go:468 | what is left unread is the basic header of the surplus chunk |
| RoundTrip.RoundTripIffClean | pkg/rtmp/connection/connection.go:466-469 | a message round-trips, consuming every byte, if and only if its length splits cleanly |
| RoundTripLimits.HighCsidLost | pkg/rtmp/connection/connection.go:166-177 | a message on csid 65560..65599 is encoded but makes the receiver dereference a nil stream |
| RoundTripLimits.TruncatedArrives | pkg/rtmp/chunk/message_header.go:54-57 | what arrives of a message whose length or type id does not fit its header field: both truncated and the payload cut to match, unless 24 zero bits are left of the length |
| RoundTripLimits.FinishCosts | pkg/rtmp/connection/connection.go:342-395 | whatever is interleaved with it, finishing a half-read message consumes at least its bytes and one shortest basic header per chunk |
| RoundTripLimits.LateTimestampLost | pkg/rtmp/connection/connection.go:461 | at any chunk size a message of less than 2^24 bytes with timestamp 0xffffff or more is never completed on its csid |
| RoundTripLimits.RoundTripIff | pkg/rtmp/connection/connection.go:150-473 | of all messages with uint32 fields that the sender encodes, at any chunk size, exactly those with csid <= 65559, timestamp < 0xffffff, type id < 256 and a cleanly splitting length < 2^24 arrive unchanged with every byte consumed |
| RoundTripLimits.Fmt3KeepsTimestamp | pkg/rtmp/connection/connection.go:301-304 | fmt 3 fails on a stream's first chunk, so its delta is never added, and leaves any other timestamp that is not extended alone |
| RoundTripLimits.Fmt3AgreesIff | pkg/rtmp/connection/connection.go:301-304 | on any stream between messages, whatever header set its delta, a message opened by fmt 3 gets the timestamp the specification asks for exactly when the delta is 0 |
| RoundTripLimits.Fmt3DeltaLost | pkg/rtmp/connection/connection.go:301-304 | at any chunk size, a message of any length opened by fmt 3 after a fmt 0 message is served with the timestamp of the first |
| RoundTrip.StreamRoundTrip | pkg/rtmp/connection/connection.go:150-473 | serving the bytes of any list of cleanly splitting messages yields that list and goes on with what follows |
| RoundTrip.StreamConsumed | pkg/rtmp/connection/connection.go:150-473 | the same from a new connection, consuming every byte |
| Publishing.HeaderOutcome | pkg/rtmp/connection/connection.go:221-340 | which error or which timestamp, length, type and stream id a message header of any fmt leads to, on any stream, extended or not |
| Publishing.MustOpenFull | pkg/rtmp/connection/connection.go:221-230 | a new chunk stream opens with fmt 0, or fmt 1 on csid 2, or the receive fails |
| Publishing.PublishedServed | pkg/rtmp/connection/connection.go:248-304 | of any list of messages, on any csids, each opened by any fmt that the last message on its csid allows (time as delta in fmt 1 and 2), exactly the messages are served, with their absolute times |
| Publishing.PublisherServed | pkg/rtmp/connection/connection.go:150-197 | the same from a new connection, consuming every byte |
| Publishing.ExtendedServed | pkg/rtmp/connection/connection.go:311-329 | the first message of a csid, with an extended timestamp in every chunk, arrives whole with the low 31 bits of it |
| Publishing.ExtendedAgainIff | pkg/rtmp/connection/connection.go:311-329 | on an extended stream four bytes are taken for a timestamp exactly when the last one is 0 or the same |
| Publishing.ExtendedAgainCut | pkg/rtmp/connection/connection.go:311-329 | the reached case: a message with another extended timestamp arrives with the old one and its four bytes as payload |
| Demux.ChunkLocal | pkg/rtmp/connection/connection.go:157-195 | what a chunk does depends on its own bytes and its own stream alone, unless it is looked past its end |
| Demux.AloneIffPeekInside | pkg/rtmp/connection/connection.go:311-329 | a chunk of any input can be read from its own bytes exactly when the extended-timestamp peek stays inside it |
| Demux.WellFormedSplits | pkg/rtmp/connection/connection.go:166-174 | every chunk stream cut out of well-formed interleaved chunks is well formed |
| Demux.WellFormedMerges | pkg/rtmp/connection/connection.go:166-174 | any interleaving of well-formed chunk streams is well formed |
| Demux.WellFormedIff | pkg/rtmp/connection/connection.go:166-174 | interleaved chunks are well formed exactly when every chunk stream's own chunks are |
| Demux.TraceWellFormedIff | pkg/rtmp/connection/connection.go:150-197 | the chunks an input is read as are well formed exactly when none is looked past its end |
| Demux.PeekOutsideReached | pkg/rtmp/connection/connection.go:311-329 | an input to a new connection at chunk size 128 whose first stream completes interleaved and fails alone |
| Demux.ServeIsTrace | pkg/rtmp/server/server_conn.go:102-111 | the messages served are those the chunks complete, in order |
| Demux.Interleaving | pkg/rtmp/connection/connection.go:150-197 | an interleaving serves, for every csid, exactly the messages that csid's chunks serve alone |
| Demux.Demultiplexing | pkg/rtmp/connection/connection.go:150-197 | an input none of whose chunks is looked past its end is a run of chunks whose projections, received alone, give the same messages |
| Demux.CollectStep | pkg/rtmp/connection/connection.go:357-379 | the first HasRead bytes of a stream's buffer are the payload bytes read so far, in order |
| Demux.PayloadsComplete | pkg/rtmp/connection/connection.go:342-395 | the payloads served are those of a receiver that only appends chunk bodies |
| Changeover.NewProtocolControlMessage | pkg/rtmp/chunk/message.go:19-49 | csid 2, timestamp 0, stream 0, big-endian number padded with zeros; both error cases |
| Changeover.SendControl | pkg/rtmp/server/server_conn.go:295-319 | builds and queues one control message |
| Changeover.SendGreeting | pkg/rtmp/server/server_conn.go:293-319 | the three control messages, in order, and their byte count |
| Changeover.GreetingLayout | pkg/rtmp/server/server_conn.go:293-319 | every byte of the greeting: types 5, 6 and 1 on csid 2, bandwidth 2500000, limit type 2 |
| Changeover.RespondConnect | pkg/rtmp/server/server_conn.go:292-351 | what reaches the wire, or which error or panic; the count check fails exactly when something else was pending |
| Changeover.Adopts | pkg/rtmp/connection/connection.go:480-482 | the announced size is adopted unchanged |
| Changeover.GreetingReads | pkg/rtmp/server/server_conn.go:292-319 | a receiver at 128 decodes the greeting although it was split at the sender's size |
| Changeover.ChunkSizeChangeover | pkg/rtmp/server/server_conn.go:292-351 | for every size from 128 to 2^32 - 1 the greeting and all later messages are decoded, every byte consumed |
| EndToEnd.SendMessages | pkg/rtmp/connection/connection.go:397-473 | a list of messages and one flush put exactly their bytes on the wire; only a csid of 64 or more can stop it |
| EndToEnd.Converse | pkg/rtmp/server/server_conn.go:292-351 | both objects joined, whatever the header pool holds: the client handles exactly what the server sent; only a csid of 64 or more, of the command result or later, can stop it |
| Players.Player.UpdateBaseTimestamp | pkg/rtmp/server/player.go:223-237 | audio and video times, and the larger as base |
| Players.Player.Compose | pkg/rtmp/server/player.go:113-151 | csid 4, 6, 6 or 0, type and repaired timestamp by packet type |
| Players.MessageExactly | pkg/rtmp/server/player.go:113-151 | in literal numbers, what every packet becomes and which can be sent: metadata is repaired like audio and video |
| Players.MessagesRise | pkg/rtmp/server/player.go:113-172 | the timestamps of the audio and video messages that are queued rise if and only if no late packet meets a wrapping base |
| Players.Player.SendAvPacket | pkg/rtmp/server/player.go:113-172 | clock, queue and counts after a packet, also when it cannot be sent |
| Players.Player.FlushAvPacket | pkg/rtmp/server/player.go:174-198 | flushes only when due; the byte count it checks is always right |
| Players.Player.DoPlaying | pkg/rtmp/server/player.go:67-88 | wire and queue together are exactly the repaired messages of the packets played, in order, and the wire ends where the merge time was last found over |
| Players.RisesIffNoWrap | pkg/rtmp/server/player.go:128-132 | timestamps leave non-decreasing if and only if no late packet meets a wrapping base; then the base is the last one sent |
| Players.WrapReached | pkg/rtmp/server/player.go:128-132 | two packets whose timestamps leave out of order |
| Players.UntouchedIffOrdered | pkg/rtmp/server/player.go:128-132 | no packet is rewritten if and only if the input is in order, wrapping base or not |
| Players.DriftBounded | pkg/rtmp/server/player.go:223-237 | the base is at most the largest input plus 40 per rewritten packet |
| Players.OthersKeepClock | pkg/rtmp/server/player.go:223-237 | metadata goes out at or above the base, unless that wraps, and leaves it alone |
| FanOut.StepInv | pkg/rtmp/server/player.go:200-221 | every step of publisher, players and deleting threads keeps the invariant |
| FanOut.FanOutSafe | pkg/rtmp/server/session.go:89-128 | over every interleaving: no send on a closed channel, one close, bounded buffer, and received plus buffered is one gapless run of published packets |
| FanOut.NothingMissed | pkg/rtmp/server/session.go:89-101 | between ranges an open player in the table has every packet since it was added |
| FanOut.MutexExclusive | pkg/rtmp/server/player.go:200-221 | one thread at a time is inside a player's critical section |
| FanOut.ClosedIsFinal | pkg/rtmp/server/player.go:211-221 | nothing is buffered for a closed player, and what was stays readable |
| FanOutProgress.OpenPlayersLive | pkg/rtmp/server/session.go:97-109 | over every run in which no two players share a key, every player that is not closed is in the table, and so misses nothing |
| FanOutProgress.RoundDelivers | pkg/rtmp/server/session.go:89-95 | one undisturbed round gives every live player the packet at the end of its buffer and changes nothing else |
| FanOutProgress.DeleteRemoves | pkg/rtmp/server/session.go:103-109 | an undisturbed deletion closes the player once, removes its key and frees the mutex; a second one only removes the key |
| FanOutProgress.ReaderDrains | pkg/rtmp/server/player.go:67-88 | a reader gets everything buffered, in order, from a closed channel too |
| FanOutProgress.FirstPacketReached | pkg/rtmp/server/session.go:89-101 | a run in which a player is added, one packet is published and the player receives it |
| FanOutProgress.RangeVisitable | pkg/rtmp/server/session.go:89-109 | over every run, what the current range still must visit is in the table, whatever was deleted meanwhile |
| FanOutProgress.MisuseNoticed | pkg/rtmp/server/player.go:200-221 | the model records a send on a closed channel and a second close, for good |
| Brokers.StepInv | pkg/rtmp/server/broker.go:22-75 | every broker operation, signal and timer keeps the ownership invariant |
| Brokers.Ownership | pkg/rtmp/server/server_conn.go:83-112 | a connection is in the publish loop of a key exactly when that key's session names it |
| Brokers.CountsSessions | pkg/rtmp/server/broker.go:52-75 | the counter is the number of stored sessions, and a soft delete always finds its session |
| Brokers.SoftDeleteOwn | pkg/rtmp/server/broker.go:59-70 | leaving clears the leaver's own session and nothing else |
| Brokers.ExpiresOwn | pkg/rtmp/server/session.go:111-129 | the timer removes its own publisherless session or nothing |
| Brokers.TwoSignals | pkg/rtmp/server/session.go:111-112 | at most two offline signals ever go through |
| Brokers.ThirdLeaverStuck | pkg/rtmp/server/broker.go:65-67 | after two signals a further leaver waits in every continuation |
| Brokers.ThirdLeaverReached | pkg/rtmp/server/broker.go:59-70 | a concrete run in which that happens |
| Brokers.LeaverEscapesIff | pkg/rtmp/server/broker.go:65-67 | a leaver gets out in some continuation exactly when the channel is not full or the watcher has its receive to make, that is with fewer than two signals sent |
| Brokers.SurvivorStays | pkg/rtmp/server/session.go:114-127 | a session whose timer found a publisher is stored for ever |
| Brokers.RemovableIff | pkg/rtmp/server/session.go:111-128 | a stored session is removed in some continuation exactly when its timer has not fired |
| Brokers.SurvivorReached | pkg/rtmp/server/session.go:114-117 | a concrete run that leaves a stored session with a fired timer, no publisher and no connection |
| Brokers.MissingKeyMiscounts | pkg/rtmp/server/broker.go:72-75 | removing a key keeps the counter right exactly when the key is stored |
| BrokerLife.Expires | pkg/rtmp/server/broker.go:22-75 | from any state, a publisher on a free key that leaves for good: after signal and timer table, counter and connections are as before |
| BrokerLife.TakenOver | pkg/rtmp/server/broker.go:22-57 | a second publisher within the grace time gets the same session under its own id, and the timer leaves it alone |
| BrokerLife.PublishesIff | pkg/rtmp/server/broker.go:22-57 | exactly when a publish is accepted, and what it leaves alone otherwise |
| BrokerLife.MissNoticed | pkg/rtmp/server/broker.go:59-63 | the model records a soft delete that finds no session |
| Brokers.Broker.CreateSession | pkg/rtmp/server/broker.go:22-57 | takes over, makes or refuses a session exactly as `Create` says |
| Brokers.Broker.SoftDelSession | pkg/rtmp/server/broker.go:59-70 | clears the publisher and signals, or waits with the publisher cleared |
| Brokers.Broker.DelSession | pkg/rtmp/server/broker.go:72-75 | removes the key and lowers the counter, stored or not |
| Brokers.Broker.OnTimer | pkg/rtmp/server/session.go:114-128 | keeps a session that has a publisher, removes any other |
| Brokers.LiveSession.CheckOffline | pkg/rtmp/server/session.go:111-112 | takes one signal, once |
| Handshake.CalcDigestPos | pkg/rtmp/handshake/handshake_server.go:124-130 | the summing loop gives the digest position |
| Handshake.PositionSteps | pkg/rtmp/handshake/handshake_server.go:124-130 | each of the four bytes counts: raising any one moves the window by one, from the last of the 728 places back to the first |
| Handshake.WindowInside | pkg/rtmp/handshake/handshake_server.go:124-130 | both windows lie inside the 1536 bytes, after their own position bytes, and do not meet |
| Handshake.EmbeddingStable | pkg/rtmp/handshake/handshake_server.go:132-142 | embedding a digest changes neither its position nor its value |
| Handshake.FoundIffCarried | pkg/rtmp/handshake/handshake_server.go:103-122 | the search finds a window exactly when its 32 bytes are the digest of all the others |
| Handshake.AcceptedIffCarries | pkg/rtmp/handshake/handshake_server.go:91-111 | a C1 is accepted if and only if it carries a digest at one of the two places |
| Handshake.SignedAccepted | pkg/rtmp/handshake/handshake_server.go:91-142 | a signed message is accepted under its key and yields the embedded digest |
| Handshake.CreateS0S1 | pkg/rtmp/handshake/handshake_server.go:132-142 | in place: version byte kept, then the signed S1 |
| Handshake.CreateS2 | pkg/rtmp/handshake/handshake_server.go:144-149 | in place: the fill ends with the digest of its rest |
| Handshake.ServerHandshake | pkg/rtmp/handshake/handshake_server.go:31-89 | every outcome of the exchange, complex and simple |
| Handshake.AnswerExactly | pkg/rtmp/handshake/handshake_server.go:56-75 | every byte of S1 and S2 for any accepted C1, with its keys, version, digest places and the order of the search |
| Handshake.SignedClientServed | pkg/rtmp/handshake/handshake_server.go:60-89 | a signed client is accepted, its time echoed, S1 acceptable under the server key, S2 verifiable from the client's digest |

## Left out

- Sockets, TLS, buffering, timeouts and the scheduler: input is a byte string with a cursor, elapsed
  time and expiry are nondeterministic parameters or steps.
- AMF values and the metadata reformatting: an external codec; command payloads are opaque bytes.
- Errors of the message handlers themselves, which also end the receive loop.
- Extended timestamps on the sending side: the source never sends them. Receiving them is modelled.
- Publishing.ExtendedAgainCut: the reached case has one chunk; how chunks that follow are misread is not
  described beyond `Publishing.HeaderOutcome`.
- 2^64 tickets: ring theorems assume fewer than 2^64 minus capacity puts in a run (`Small`), beyond
  which a stale ticket could match again.
- Liveness and fairness: a blocked put, poll, fan-out send or offline signal may wait for ever.
- RingBuffers.RingBuffer.Put: a loop that would not end is watched for a number of turns.
- The state a failed receive leaves behind: only the error is specified, since the connection ends.
- Payloads in the gather buffer are values: the caller is taken not to write to them before Flush.
- WriteHalves.WriteHalf.SendIntegralMessage: one writer per connection, and a header pool that other
  connections have used before but do not use while this one is sending.
- The declared length of a message to send is the length of its payload, as every caller sets it.
- A panic is an outcome (`OutOfRange`, `Panicked`, `ServerPanicked`, `NilStream`); the state it leaves is
  not described further, since it ends the program.
- Brokers.StepInv: each broker operation and the timer callback is one step, as the source intends
  but does not enforce; the soft delete is two. The counter is unbounded, not 32 bits.
- Players of a session in the broker's model: adding and deleting them is part of the fan-out model.
- FLV header inspection, stored sequence headers and metadata, command field extraction:
  straight-line assignments.
- HMAC-SHA256, random bytes and the key constants: parameters.
- Configuration, logging, server start-up and the remaining programs under cmd and research.
