# Verification model

A Dafny model of four parts of this repository, with proofs. `dafny verify dfyconfig.toml` checks all of it.

**Loss-tolerant audio.** A packetizer cuts encoded frames into blocks of four and adds two Reed-Solomon parity shards over
GF(2^8). A receiving queue takes datagrams that may be lost, repeated or reordered, rebuilds what is missing and hands frames
out in order across the wrap of 16-bit sequence numbers (RTP header as in section 5.1 of RFC 3550; serial numbers as in
section 3.2 of RFC 1982). Modules: `GaloisField`, `ByteField`, `AudioFec`, `Protocol`, `Sender`, `QueueModel` (the queue as
functions), `Receiver` (the queue as an object, proved equal to the functions), `QueueInvariant`, `Delivery` (runs on arbitrary
packets), `QueueEffects` (what one call does, said without those functions), `Patience` (when losses are reported),
`EndToEnd` (runs on a sender's packets), `Repair` (any four of six), `Depacketizer` and `Transport` (from bytes to frames),
`Startup` (the start-up window).

**The audio ring.** A single-producer, single-consumer ring with cursors over twice the capacity, copies in two pieces, and
wakeups coalesced by a flag and a semaphore. Modules: `Modular`, `AudioRing` (cursor arithmetic), `RingMachine` (every load, copy
of one sample and store a step of its own, both sides at once), `RingBuffer` (the ring as an object), `Wakeup`, `Playback`,
`Capture`.

**Desktop edges.** The sweep that finds the exposed outer edges of a layout of displays, the list of segments as an index in both
directions, and the nearest point on screen. Modules: `Geometry`, `EdgeIndex`, `Movement`.

**The clipboard hub.** A sliding-window rate limit, a memory of recent signatures, a one-slot latest-wins buffer and receipts.
Modules: `ClipboardPolicy`, `ClipboardHub` (the event loop as functions), `ClipboardTask` (as an object, proved equal),
`ClipboardEffects` (what one event does, device by device), `ClipboardRuns` (why each answer was given).

`Wrappers` holds `Option` and `Result`.

Some facts follow the code where one might expect otherwise:

- The block of the very first packet is discarded, and lost blocks of which nothing arrived are skipped without a loss marker.
- At distance 0x8000 each sequence number is before the other.
- Once a late packet has been noticed, the longer wait stays on until the queue has moved on by half the number space.
- An edge position that scales to the full length of the edge lands on the first pixel of its last segment, not on its last pixel.
- A display that ends at its right or bottom edge inside displays that begin where it begins, and inside no others, keeps that edge.
- Beyond the range of 64-bit squares the cursor goes to the first display rather than the nearest.
- A clipboard payload that could not be applied is still recorded and relayed, but does not delay the next one.

Clock readings, the waits of the workers, the answers of the system clipboard and the state of outbound channels are parameters.

## Model

| member | source | states |
|---|---|---|
| `GaloisField.GfMul` | src/audio/fec.rs:187-201 | The shift-and-add loop computes the product of the field GF(2^8) with polynomial 0x11d; the product is independently characterised by the ring laws below. |
| `GaloisField.MulComm` | src/audio/fec.rs:187-201 | Multiplication is commutative, although the loop treats its two arguments differently. |
| `GaloisField.MulAssoc` | src/audio/fec.rs:187-201 | Multiplication is associative. |
| `GaloisField.MulAddRight` | src/audio/fec.rs:187-201 | Multiplication distributes over exclusive or in its second argument (MulAddLeft: in its first). |
| `GaloisField.GfPow` | src/audio/fec.rs:203-213 | Square-and-multiply computes the power defined by repeated multiplication. |
| `GaloisField.GfInv` | src/audio/fec.rs:215-220 | Zero is refused; every other byte gets the value whose product with it is one. |
| `GaloisField.InverseIsInverse` | src/audio/fec.rs:215-220 | For every non-zero byte, the 254th power is the multiplicative inverse, proved from the squaring map and not by listing cases. |
| `GaloisField.GfDiv` | src/audio/fec.rs:222-224 | Division fails exactly for a zero divisor and otherwise gives the one solution of divisor times x equals dividend. |
| `AudioFec.EncodeAudioBlock` | src/audio/fec.rs:7-40 | Fails exactly for unequal data shards or parity buffers of another length, and then changes nothing; otherwise both parity buffers hold the two linear combinations of the data, byte by byte. |
| `AudioFec.MinorsAreNonZero` | src/audio/fec.rs:4-5 | All six two-by-two minors of the parity matrix are non-zero. |
| `AudioFec.RecoverAudioBlock` | src/audio/fec.rs:42-79 | Fails exactly when no shard is there, sizes disagree, more than two data shards are missing or parity is short, and then changes nothing. Otherwise every data shard is present, and the result is the one block consistent with everything received and the parity rows used, whatever the parity bytes are. |
| `AudioFec.RecoverSingle` | src/audio/fec.rs:81-113 | One missing shard is always solved: the singular branch is dead. |
| `AudioFec.RecoverDouble` | src/audio/fec.rs:115-164 | Two missing shards are always solved: the singular branch is dead. |
| `AudioFec.CompletionIsUnique` | src/audio/fec.rs:42-164 | A block agrees with the received shards and the parity rows used if and only if it is the restored one. |
| `AudioFec.ErasureRoundTrip` | src/audio/fec.rs:7-164 | For blocks of any length: encoding, then losing any shards so that at least four of six are left, is undone exactly. |
| `AudioFec.ShardLen` | src/audio/fec.rs:166-185 | Succeeds exactly when some shard is there and all sizes agree, with that size; the two errors are told apart. |
| `Protocol.IsBefore16Unwrapped` | src/audio/protocol.rs:126-128 | For positions at most half the number space apart, the wrapped comparison is the comparison of positions, except that at exactly half each is before the other. |
| `Protocol.IsBefore16BothWays` | src/audio/protocol.rs:126-128 | Both orders hold exactly at distance 0x8000, neither exactly for equal numbers. |
| `Protocol.WriteAudioPacket` | src/audio/protocol.rs:40-45 | Writes header and payload; a non-empty audio payload parses back to the same packet. |
| `Protocol.WriteFecPacket` | src/audio/protocol.rs:47-57 | Writes both headers and the shard; a non-empty shard parses back to the same FEC header and shard. |
| `Protocol.AcceptedAudioIsWritten` | src/audio/protocol.rs:59-116 | A datagram parses as this audio packet if and only if it is what is written for it. |
| `Protocol.AcceptedParityIsWritten` | src/audio/protocol.rs:59-116 | A datagram parses as this parity packet if and only if it is what is written for it with some RTP header. |
| `Protocol.DatagramRefusals` | src/audio/protocol.rs:59-116 | Which datagrams are accepted, from their bytes, and which error each of the others gets. |
| `Sender.AudioPacketizer.PushEncodedFrame` | src/audio/sender.rs:39-123 | Never fails. For frame n of the stream it returns exactly one datagram, or three exactly when FEC is on, n is the last of its block and the block's four frames have one size: the audio datagram and two parity datagrams, byte for byte, at every wrap of the 16-bit and 32-bit counters. |
| `Sender.SizesDecideParity` | src/audio/sender.rs:66-70 | The comparison of stored sizes decides exactly whether the block of the stream has equal-sized frames. |
| `Sender.BytesParse` | src/audio/sender.rs:39-123 | The bytes returned for non-empty frames parse as the audio packet of frame n, and as parity 0 and 1 of the block from n - 3 with the parity rows of its frames. |
| `Sender.SentPacketParses` | src/audio/sender.rs:39-123 | Every datagram with a payload parses back to the packet it was written for. |
| `Sender.SentPacketsAreStable` | src/audio/sender.rs:39-123 | What was sent for a frame does not depend on later frames. |
| `Receiver.RtpAudioQueue.AddPacket` | src/audio/receiver.rs:103-201 | The in-place method and every error branch equal the function QueueModel.AddPacket, about which the results below are proved. |
| `Receiver.RtpAudioQueue.EnsureBlock` | src/audio/receiver.rs:280-312 | The search loop finds the block or inserts it at the place the specification names; both mismatch errors leave the queue as it was. |
| `Receiver.RtpAudioQueue.TryCompleteBlock` | src/audio/receiver.rs:314-335 | The block becomes the one CompleteBlock says, recovery included, or the queue is unchanged. |
| `Receiver.RtpAudioQueue.HandleMissingPackets` | src/audio/receiver.rs:355-393 | Equals the specified resynchronisation and expiry of the head block. |
| `Receiver.RtpAudioQueue.DequeueReady` | src/audio/receiver.rs:203-240 | Equals the function QueueModel.DequeueReady. |
| `Receiver.RtpAudioQueue.FreeBlockHead` | src/audio/receiver.rs:395-403 | Removes the head block and moves the oldest number behind it; does nothing to an empty queue. |
| `QueueInvariant.AddPacketFacts` | src/audio/receiver.rs:103-201 | Every packet, valid or not, keeps the invariant: aligned bases in a sorted window of half the number space, only the head in progress, a block with four of six shards complete. A rejection leaves blocks and position as they were, and neither shard index error nor recovery error can occur. |
| `QueueInvariant.InsertionKeepsWindow` | src/audio/receiver.rs:301-307 | Inserting where the wrapped comparison says keeps the blocks sorted by true distance from the oldest number. |
| `QueueInvariant.CompletingSucceeds` | src/audio/receiver.rs:314-335 | Completing a block never fails, completes it exactly when four of its six shards are there, and changes nothing else. |
| `QueueInvariant.SettledFacts` | src/audio/receiver.rs:355-393 | Settling brings the oldest number to the head block; the head is given up on only when its next frame is absent. |
| `QueueInvariant.PollYields` | src/audio/receiver.rs:203-240 | A frame comes from the head block at its next index, with that shard's bytes; a loss is reported only for an absent shard of a block with fewer than four of six; the head leaves after its fourth frame. |
| `QueueInvariant.PollWaits` | src/audio/receiver.rs:203-240 | No frame comes out only if at most one block is queued, or a late packet was noticed and the head is no older than four packet durations and 10 ms. |
| `QueueEffects.PollIsExact` | src/audio/receiver.rs:203-240 | The next frame of the head block comes out when it is there. When it is not, a loss is reported, and the block given up on, exactly when it has been given up on before, or a later block is queued and either no late packet is remembered or the head is older than four packet durations and 10 ms. A finished block ends synchronisation. |
| `QueueEffects.LatenessIsExact` | src/audio/receiver.rs:107-133 | By serial distance: parity never moves the lateness flag; an audio packet from before the oldest number raises it and is remembered, once a block has been finished; any other audio packet lowers it exactly when the oldest number has come to lie before the remembered one. |
| `QueueEffects.RefusalIsExact` | src/audio/receiver.rs:135-152 | Exactly which packets are refused, by their own form or for disagreeing with the queued block they name in size, payload type, timestamp or source; the block of the first packet is dropped, and packets from before the oldest number change nothing. |
| `QueueEffects.ArrivalIsExact` | src/audio/receiver.rs:154-201 | What an accepted packet does: its block is found or put in with this moment as its time, keeps all it held and takes the packet's own bytes, is complete exactly with the fourth shard; then the queue moves to its head and gives up on that exactly when it is overdue. A packet that brings nothing new changes nothing. |
| `Delivery.RunKeepsWorld` | src/audio/receiver.rs:103-403 | Over every run on arbitrary packets, with positions that do not wrap: frames come out at strictly increasing positions, a loss is reported only where fewer than four distinct shards of the block had been accepted, and every block passed came out whole or had no shard accepted at all. |
| `Delivery.PassedBlockIsUnknown` | src/audio/receiver.rs:361-375 | A block skipped without any frame is one of which nothing had been accepted. |
| `Delivery.ArrivedIsStored` | src/audio/receiver.rs:154-196 | Every accepted shard of a queued block is still stored, so the count of shards is the count of distinct packets accepted. |
| `Patience.RunIsTimely` | src/audio/receiver.rs:355-393 | Over every run: each loss comes from a block given up on when fewer than four of its shards had been accepted, a later block had been heard of, and either no late packet was remembered or four packet durations and 10 ms had passed since the first packet of the block was accepted. |
| `Patience.StreamBegins` | src/audio/receiver.rs:137-145 | Over every run the stream begins with the block after that of the first well-formed packet, whatever its number: nothing comes out before, and nothing from before that place afterwards. |
| `Patience.WaitIsExact` | src/audio/receiver.rs:203-240 | Over every run, in terms of what had arrived: a missing next frame is reported lost exactly when a later block has been heard of and that time has passed or no late packet is remembered. |
| `Patience.LatenessOverRuns` | src/audio/receiver.rs:107-133 | Over every run, in positions that do not wrap: the flag is up exactly while the last late audio packet has not been followed by one in time that found it half the number space behind. |
| `Patience.LateIsEarlier` | src/audio/receiver.rs:109-115 | Within the window, late means from a position before the oldest block. |
| `Patience.RecentHeadIsAwaited` | src/audio/receiver.rs:376-380 | While a late packet is remembered, a head block first heard of recently is waited for. |
| `EndToEnd.IdentityOfSent` | src/audio/receiver.rs:242-278 | Every datagram a packetizer sends for a block, audio or parity, gives the receiver the same block identity at every wrap. |
| `EndToEnd.ArrivingKeepsHonest` | src/audio/receiver.rs:103-201 | A packet from the sender within the window keeps every queued shard the sender's, and one of a block of equal-sized frames is never rejected. |
| `EndToEnd.CompletingKeepsHonest` | src/audio/receiver.rs:314-335 | Recovery from the sender's shards gives the sender's frames. |
| `EndToEnd.DeliveredAsSent` | src/audio/receiver.rs:103-403 | For any stream and any loss, duplication and reordering of its packets within the window: every frame that comes out carries the bytes pushed under its number, in order, and losses and skipped blocks are as in Delivery.RunKeepsWorld. |
| `Repair.DatagramOfBlock` | src/audio/sender.rs:39-123 | Each of the six datagrams returned for a block of equal non-empty frames parses to a packet sent for that block with its own shard number. |
| `Repair.FourSuffice` | src/audio/receiver.rs:314-335 | A queued block of which four shards have been accepted holds all four frames as they were pushed. |
| `Repair.AnyFourRepair` | src/audio/receiver.rs:103-403 | Over every run on the sender's packets, whatever else arrives or is dequeued in between: once any four of the six datagrams of a block have been delivered, the block holds all four pushed frames, or has been passed with each frame handed out as pushed or reported lost before four shards were there. |
| `Depacketizer.AudioDepacketizer.PushDatagram` | src/audio/receiver.rs:421-435 | Parse errors change nothing; the start-up window swallows packets and counts audio only; otherwise the packet is added and the queue drained. |
| `Depacketizer.AudioDepacketizer.ReceiveTimeout` | src/audio/receiver.rs:437-443 | A timeout after a valid packet ends the start-up window, and the queue is drained. |
| `Depacketizer.AudioDepacketizer.DrainReady` | src/audio/receiver.rs:445-451 | The loop terminates and hands out exactly the frames of repeated dequeues. |
| `Depacketizer.FrameIsProgress` | src/audio/receiver.rs:445-451 | Each frame that comes out lowers the number of frames the queued blocks still owe, whatever the clock. |
| `Depacketizer.DrainingStops` | src/audio/receiver.rs:445-451 | Draining ends exactly when nothing can come out: the next frame is absent, and its block has neither been given up on nor may be, that is, at most one block is queued, or a late packet was noticed and the head block is recent. |
| `Depacketizer.ReadyYields` | src/audio/receiver.rs:337-353 | A queue that reports a ready packet always yields a frame. |
| `Transport.EmptyIsRefused` | src/audio/protocol.rs:59-97 | The datagrams of empty frames, and of their parity, are refused by the parser. |
| `Transport.FlushedFrames` | src/audio/receiver.rs:445-451 | The frames a drain hands out are the frames of the world's emissions. |
| `Transport.EmittedIsWritten` | src/audio/sender.rs:39-123 | Every datagram the packetizer returned for a frame is one of that frame's datagrams in every later state of the stream, so the runs below are about bytes it emitted. |
| `Transport.PlayedAsPushed` | src/audio/receiver.rs:406-452 | From bytes to frames: whatever is lost, repeated or reordered of the packetizer's datagrams within the window, and whenever timeouts occur, the frames handed out are the pushed frames, each at its own strictly later place. |
| `Startup.WindowIsExact` | src/audio/receiver.rs:408-443 | Over every play: the start-up window is open exactly until as many audio datagrams have come as whole packets fit in the initial drop, or until the first timeout after a valid datagram. |
| `Startup.WindowSwallows` | src/audio/receiver.rs:421-435 | While it is open a valid datagram, audio or parity, changes neither queue nor output; after that every valid datagram is given to the queue. |
| `Startup.NothingIsLeft` | src/audio/receiver.rs:421-451 | After each accepted datagram and each timeout, no frame is left in the queue that could come out. |
| `Startup.TimeoutDrains` | src/audio/receiver.rs:437-443 | A timeout hands out whatever can come out. |
| `AudioRing.CursorsCount` | native/macos_audio_ring.h:37-45 | For every capacity and channel count that initialisation accepts, no 32-bit expression wraps, the distance of the cursors is the true occupancy, and advancing a cursor counts frames. |
| `AudioRing.NothingOverflows` | native/macos_audio_ring.h:37-129 | Both cursor sums and the occupancy in samples after a push stay below 2^32. |
| `AudioRing.CellIsModular` | native/macos_audio_ring.h:119-123 | The two copied pieces are one run around the buffer: the i-th sample lies at its stream position modulo the buffer size. |
| `AudioRing.AcceptedIsSized` | native/macos_audio_ring.h:41-44 | A capacity that initialisation accepts has a buffer of fewer than 2^32 bytes. |
| `RingMachine.RunKeepsInv` | native/macos_audio_ring.h:111-155 | Every interleaving of the single loads, copies and stores of both sides keeps the invariant. |
| `RingMachine.WriterSparesUnread` | native/macos_audio_ring.h:119-123 | No cell being written holds an unread sample, with a read cursor snapshot of any age. |
| `RingMachine.StepIsFifo` | native/macos_audio_ring.h:111-155 | Each step is invisible, appends one whole block to the contents read from memory, or removes exactly the samples already copied out. |
| `RingMachine.RunIsFifo` | native/macos_audio_ring.h:111-155 | In every state of every run, what was taken followed by what the buffer holds is what was accepted, and no access was outside the buffer. |
| `RingMachine.FullIsExact` | native/macos_audio_ring.h:115-118 | A push is refused for space exactly when its block did not fit at the moment the read cursor was loaded. |
| `RingMachine.ShortIsExact` | native/macos_audio_ring.h:137-144 | A complete take is told to wait exactly when too little was there at the moment the write cursor was loaded. |
| `RingMachine.TakesWhatIsThere` | native/macos_audio_ring.h:140-152 | Any other take is for all that was asked for, or for all there was when the write cursor was loaded. |
| `RingMachine.SurveyIsExact` | native/macos_playback_ring.h:30-34 | A submission goes on exactly when no more than the watermark was there when the read cursor was loaded. |
| `RingMachine.RefusalIsExact` | native/macos_audio_ring.h:111-130 | A push is answered with success exactly when it was published and the ring is still open, and refused exactly when the ring is closed or the block is malformed. |
| `RingMachine.CallsAreExact` | native/macos_audio_ring.h:133-136 | A take is refused at once exactly for a count of zero, of part of a frame, or of more than the ring can hold. |
| `RingMachine.CallsEnd` | native/macos_audio_ring.h:111-155 | Whatever the other side does, every step of a call but a wait for room brings its end nearer: pushes and takes end within as many steps as samples and five. |
| `RingMachine.CallersAreTold` | native/macos_audio_ring.h:111-155 | While the ring is open: the samples handed to takers, with those about to be handed over and the contents, are the samples whose pushes were answered with success, with those about to be answered. |
| `RingMachine.SubmittedAlwaysFits` | native/macos_playback_ring.h:29-35 | With the watermark check first, no interleaving makes the push report a full ring, and the ring never holds more than watermark and one frame. |
| `RingBuffer.ARAudioRing.Push` | native/macos_audio_ring.h:111-130 | For a call that is not interrupted: the whole block is appended to the contents or nothing changes; each status exactly when the source gives it. |
| `RingBuffer.ARAudioRing.Take` | native/macos_audio_ring.h:133-155 | For a call that is not interrupted: the front of the contents goes to the front of the output, all or nothing unless partial; the rest of the output and the contents stay. |
| `RingBuffer.FilledUnread` | native/macos_audio_ring.h:119-128 | Copying a block in as two pieces appends it to the unread samples. |
| `RingBuffer.EmptiedUnread` | native/macos_audio_ring.h:145-151 | The two pieces copied out are the front of the unread samples. |
| `Wakeup.RunKeepsInv` | native/macos_audio_ring.h:71-81 | The flag stands for exactly one token: a committed signal, a semaphore count or a pending clear. |
| `Wakeup.NoLostWakeup` | native/macos_audio_ring.h:164-178 | With any number of notifiers and any timeouts, a waiting side that has not seen an announced change has a token or a committed signal; tokens never pile up. |
| `Wakeup.QuietLeavesToken` | native/macos_audio_ring.h:71-87 | Once all notifications have run to their end, a waiter that has not seen the latest change, closing included, has a token. |
| `Wakeup.CompletedIsAnnounced` | native/macos_audio_ring.h:71-81 | A notification that finds the flag up is complete without a signal, and otherwise its signal raises the count; either way the change is announced. |
| `Wakeup.WokenSeesAnnounced` | native/macos_audio_ring.h:171-173 | A waiter that clears the flag and checks again sees every change announced before it cleared. |
| `Wakeup.WaiterLooksAgain` | native/macos_audio_ring.h:164-178 | A token lets the waiter see everything published so far and leaves the flag down; a timeout lets it look as well. |
| `Playback.ValidFormatIsAccepted` | native/macos_playback_ring.h:14-21 | Every valid format is accepted, with room for the watermark and one frame. |
| `Playback.ARPlaybackRing.Fill` | native/macos_playback_ring.h:45-58 | The device gets the next submitted samples, then silence only; samples heard followed by contents are the samples submitted; notifies exactly when samples were taken. |
| `Playback.ARPlaybackRing.Submit` | native/macos_playback_ring.h:25-42 | The block goes in whole or not at all; every wait is entered because more than the watermark was left; the requests of each wait are answered and counted like all others; success, timeout and refusal each exactly when the source gives it; at or below the watermark there is no wait, and the push after the check never reports a full ring. |
| `Playback.GapsAreExact` | native/macos_playback_ring.h:49-54 | The counter counts exactly the requests at which audio came back after an underrun that followed the first audio. |
| `Capture.NeverStuck` | native/macos_capture_ring.h:5-13 | In every state of every interleaved run, the two sides are never both turned away: when the encoder's next step would answer that a frame is not there yet, the next step of a callback with a block of any size it can have does not answer that the ring is full. |
| `Capture.CaptureRing.Write` | native/macos_capture_ring.h:15-28 | A block is stored whole, counted as dropped whole with a saturating counter, or closes the ring as malformed; what was read followed by contents is what was stored. |
| `Capture.CaptureRing.TryRead` | native/macos_capture_ring.h:30-34 | The encoder gets exactly the next frame or nothing. |
| `Capture.CaptureRing.Read` | native/macos_capture_ring.h:36-44 | Each wait is entered because no whole frame was there; delivers exactly the next frame as soon as one is there, makes one last try after a timeout, and is refused exactly when the ring is closed, a wait fails or the count is wrong; what callbacks write meanwhile is stored, lost or malformed as usual. |
| `Geometry.OuterEdges` | src/input/geometry.rs:287-392 | The loops compute the specified segment list. |
| `Geometry.GapsAreExact` | src/input/geometry.rs:360-379 | The cursor sweep covers a coordinate exactly when it lies on the span and in no blocked interval, once. |
| `Geometry.SweepIsExact` | src/input/geometry.rs:287-392 | For every layout, overlapping displays included, an edge pixel is listed once for every display that exposes it, the source's exception for displays that begin alike included. |
| `Geometry.ListIsInOrder` | src/input/geometry.rs:379-391 | For every layout the list is in order of start, then end, then boundary, and neighbours in it never touch on one boundary. |
| `Geometry.ListedIsOnEdge` | src/input/geometry.rs:287-392 | For displays without overlap, the list names exactly the pixels whose outside neighbour is in no display, each once. |
| `Geometry.ListingIsWrongWhereConcealed` | src/input/geometry.rs:287-392 | For every layout of displays with positive size, overlapping ones included: a pixel is listed if and only if its outside neighbour is in no display, except exactly where some display is concealed, which only right and bottom edges can be: it ends inside a display that begins where it begins, and inside no display that begins elsewhere. The error is always an extra pixel. |
| `Geometry.NearEdgesAreExact` | src/input/geometry.rs:287-392 | Left and top edges are listed exactly for every layout, whatever overlaps. |
| `Geometry.OverlapIsListed` | src/input/geometry.rs:330-341 | A witness for the failing side of ListingIsWrongWhereConcealed: the narrower of two displays that begin together keeps its right edge inside the wider one. |
| `EdgeIndex.TotalCountsExposedPixels` | src/input/geometry.rs:110-114 | For displays without overlap, the divisor is the number of exposed edge pixels. |
| `EdgeIndex.EdgeExists` | src/input/geometry.rs:172-176 | For every layout of displays with positive size each edge has a segment, so the stand-in segment and the divisor 1 are never used. |
| `EdgeIndex.OffsetRoundTrip` | src/input/geometry.rs:129-205 | Walking to an offset and reading the point back gives the offset exactly when it is below the total, for every inset smaller than the displays; at the total itself the walk lands on the first pixel of the last segment. |
| `EdgeIndex.PixelRoundTrip` | src/input/geometry.rs:129-205 | Every exposed edge pixel has an offset in range that names it again. |
| `EdgeIndex.OffsetsGrow` | src/input/geometry.rs:129-162 | Of two exposed pixels of one boundary, the one further along has the greater offset. |
| `EdgeIndex.OffsetZeroIsLeast` | src/input/geometry.rs:164-205 | Offset 0 is at the least coordinate of all exposed pixels, for every layout. |
| `EdgeIndex.InsetIsExact` | src/input/geometry.rs:187-203 | The point at an offset lies exactly the inset inside the exposed pixel that the offset names, in the direction of each edge. |
| `EdgeIndex.NormalizedRoundTrip` | src/input/geometry.rs:104-127 | Reading with a tolerance of two pixels gives every offset back exactly when no two listed segments that share a coordinate are within two pixels. |
| `EdgeIndex.TwoPixelsAreEnough` | src/input/geometry.rs:416-423 | Displays without overlap that are at least two pixels across always meet that condition. |
| `EdgeIndex.ThinDisplaysAreConfused` | src/input/geometry.rs:416-423 | One-pixel displays one pixel apart do not: the second edge reads as the first. |
| `EdgeIndex.EdgePosition` | src/input/geometry.rs:129-162 | The loop reads the offset of the point in the first segment on its own display's boundary. |
| `EdgeIndex.NormalizedEdgePosition` | src/input/geometry.rs:104-127 | The loop reads the offset in the first segment within the tolerance. |
| `EdgeIndex.PointInsideEdge` | src/input/geometry.rs:164-205 | The loop finds the segment an offset falls in and the inset point. |
| `Movement.MovingFindsNearest` | src/input/geometry.rs:265-285 | The target is the point moved by both deltas, each stopped at the end of the 32-bit range. The result is on screen and is the target when that is on screen; otherwise no point of any display is closer, exactly when some candidate's squared distance is below the 64-bit limit or no display's candidate is closer than the first display's. |
| `Movement.FarTargetsTie` | src/input/geometry.rs:279-283 | Beyond that limit keys tie and the first display wins although the second is nearer. |
| `ClipboardPolicy.HubPolicy.AcceptWithDedupe` | src/host/clipboard_hub.rs:169-191 | With queues pruned only at the front, says exactly what the whole history says: duplicate if and only if the signature was recorded at most 10 s earlier, rate limited if and only if ten events of the source are at most 10 s old. |
| `ClipboardPolicy.HubPolicy.Record` | src/host/clipboard_hub.rs:193-198 | Appends one event to the history. |
| `ClipboardPolicy.PoppingIsFiltering` | src/host/clipboard_hub.rs:179-186 | Popping expired entries from the front of an ascending queue is filtering the whole of it. |
| `ClipboardPolicy.PacedHistory` | src/host/clipboard_hub.rs:187-189 | Any eleven consecutive recorded events of one source span more than ten seconds. |
| `ClipboardHub.TurnKeepsInv` | src/host/clipboard_hub.rs:291-321 | Every turn of the loop keeps the accounting of receipts, the evidence for outcomes, the spacing of successes and data-only waiting. |
| `ClipboardHub.ReceiptsAreConserved` | src/host/clipboard_hub.rs:264-427 | In every run, outcomes sent, callers gone, and copies waiting or queued add up to the times a receipt was offered. |
| `ClipboardHub.RunsAreOrderly` | src/host/clipboard_hub.rs:291-427 | In every run: Applied only after a strict application succeeded for a source still subscribed, Superseded only for a payload pushed out of the slot and for every such payload, control events never in the slot, successes 200 ms apart, and the sliding window of every source. |
| `ClipboardEffects.DataIsExact` | src/host/clipboard_hub.rs:354-427 | What becomes of a data event that is handled: exactly when it is let through (by ten events in ten seconds, known signatures, a waiting caller and a subscribed source), and then what is recorded, applied and answered, when the next may start, and device by device who gets it and who stays subscribed; nothing else changes. |
| `ClipboardEffects.ControlIsExact` | src/host/clipboard_hub.rs:325-353 | Device by device: what a subscription becomes, that the clipboard's content is sent exactly when receiving is first enabled, and that leaving takes the device's own payload out of the slot and answers it Closed. |
| `ClipboardEffects.TurnIsExact` | src/host/clipboard_hub.rs:291-321 | Which event a turn handles, and that a data event that must wait takes the slot. |
| `ClipboardRuns.AnswersMatch` | src/host/clipboard_hub.rs:366-427 | In every run the receipts answered Applied, Failed and Superseded are, each as often, those of tracked applications that succeeded, of ones that failed, and of payloads pushed out of the slot. |
| `ClipboardRuns.AnswersAreJustified` | src/host/clipboard_hub.rs:264-427 | In every run each answer has its reason at the moment it was given: TooMany ten recent events of the source, Closed an unsubscribed source or a stopped hub, QueueFull 64 queued events, and so on. |
| `ClipboardRuns.StepAnswers` | src/host/clipboard_hub.rs:264-427 | From any state, a step gives at most one answer, and gives one exactly when there is a reason for it. |
| `ClipboardRuns.RelaysAreExact` | src/host/clipboard_hub.rs:429-455 | In every run a device has been sent exactly the payloads let through while it was subscribed, enabled and reachable, never its own, and the content at its first enabling. |
| `ClipboardRuns.QueueIsFifo` | src/host/clipboard_hub.rs:264-289 | In every run what was taken from the queue, followed by what is in it, is what was accepted, in order; accepted exactly while the hub runs with fewer than 64 queued. |
| `ClipboardRuns.FirstIsHandledAtOnce` | src/host/clipboard_hub.rs:311-319 | The first data event of a run is handled as it is taken. |
| `ClipboardRuns.LatestWins` | src/host/clipboard_hub.rs:309-318 | In every run what waits in the slot, and whatever is handled as data, is the latest data event taken. |
| `ClipboardTask.HubTask.Turn` | src/host/clipboard_hub.rs:291-321 | One turn of the loop equals the specified turn, for every way of being woken. |
| `ClipboardTask.HubTask.Process` | src/host/clipboard_hub.rs:323-427 | Handling one event equals the specified handling. |
| `ClipboardTask.HubTask.Apply` | src/host/clipboard_hub.rs:366-405 | A cancelled, unsubscribed, limited, failed or applied payload each as specified; failures are still recorded and relayed, but do not delay the next event. |
| `ClipboardTask.HubTask.Broadcast` | src/host/clipboard_hub.rs:429-446 | In whatever order subscribers are visited, exactly the enabled ones other than the source, with room and still there, get the payload, and those gone are removed. |
| `ClipboardTask.HubTask.IngestTracked` | src/host/clipboard_hub.rs:264-272 | A tracked payload is queued, or answered at once when the queue is full or the hub has stopped. |

## Left out

- Statistics counters of the receiving queue, the high-water mark of the ring, and logging: they do not influence behaviour.
- Receiver.RtpAudioQueue.AddPacket: one clock reading serves a whole call, where the code reads the clock again when it creates a block and when it checks the head block's age; the product of shard offset and packet duration is taken modulo 2^32, where a debug build would stop.
- A block of the queue is a value that is replaced in the list when it changes, so aliasing of a block being updated is not modelled.
- The error branches for a shard that is unexpectedly missing inside recovery are not written out: the precondition of the inner loop shows that they cannot be reached.
- AudioFec.RecoverDouble: the loop over byte positions computes the two right-hand sides one after the other instead of in one pass.
- GaloisField: bytes are bit vectors there and integers everywhere else; `ByteField` carries the laws over.
- Memory allocation failure, semaphore creation and destruction, and the failing of a semaphore signal, which closes the ring.
- Memory order below acquire and release: each load and store is one atomic step.
- RingBuffer.ARAudioRing.Push: models a call that is not interrupted; the check of the closed flag after the copy, and every interleaving, are in RingMachine.
- RingBuffer.ARAudioRing.Take: likewise for its second check of the closed flag.
- Playback.ARPlaybackRing.Submit: what the device does during a wait is a list given with the call; the deadline is when the list ends. The wakeup itself is in Wakeup.
- Capture.CaptureRing.Read: likewise for what callbacks write during a wait.
- Samples are real numbers that are only copied; nothing is said about floating point.
- Conversion of edge offsets to and from fractions of the edge in 32-bit floating point: positions are integer offsets, and 1.0 is the total.
- Geometry.OuterEdges: coordinates keep the saturating arithmetic of 32-bit integers and wrap below the smallest one, where a debug build would stop, but lengths and offsets of segments are unbounded.
- Jump zones and the crossing of an edge by a motion, which interpolates in 64-bit floating point.
- Starting and stopping the system clipboard watcher, and updating its options.
- ClipboardTask.HubTask.Process: one clock reading serves the loop's check and the handling; the system clipboard answers at once.
- ClipboardHub.ReceiptsAreConserved: a receipt still queued or waiting when the hub stops gets no outcome, as in the code, where its channel is dropped.
- Sessions, TLS, discovery, codecs, audio devices, the user interface and configuration: foreign calls or easy members.
