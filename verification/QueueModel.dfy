/** The receiving queue as functions on values: FEC blocks in sequence order, rebuilt from parity where possible and
    dequeued frame by frame. The methods of Receiver.RtpAudioQueue are proved equal to these functions, error branches
    included; QueueInvariant and Delivery prove what the functions guarantee. */
module QueueModel {

  import opened Wrappers
  import opened AudioFec
  import opened Protocol

  datatype Frame = Encoded(payload: Bytes) | Missing

  datatype ReceiveError =
    | EmptyAudioPayload
    | InvalidFecHeader
    | BlockSizeMismatch
    | InconsistentIdentity
    | DataShardIndexOverflow
    | ParityShardIndexOverflow
    | RecoveryFailed(error: FecError)

  datatype FecBlock = FecBlock(
    header: AudioFecHeader,
    blockSize: nat,
    dataShards: seq<Shard>,
    fecShards: seq<Shard>,
    queueTime: nat,
    fullyReassembled: bool,
    nextDataIndex: nat,
    allowDiscontinuity: bool)
  {
    function Base(): u16 {
      header.baseSequenceNumber
    }

    function Received(): nat {
      |Positions(dataShards, true)| + |Positions(fecShards, true)|
    }

    // The fixed array lengths of the source, and an index that has not run off the block.
    ghost predicate Shaped() {
      |dataShards| == DATA_SHARDS && |fecShards| == FEC_SHARDS && nextDataIndex < DATA_SHARDS
    }
  }

  function NewBlock(header: AudioFecHeader, blockSize: nat, now: nat): FecBlock {
    FecBlock(header, blockSize, [None, None, None, None], [None, None], now, false, 0, false)
  }

  datatype Queue = Queue(
    blocks: seq<FecBlock>,
    next: u16,
    oldest: u16,
    lastOutOfOrder: u16,
    receivedOutOfOrder: bool,
    synchronizing: bool,
    initialized: bool,
    packetDurationMs: u32)
  {
    ghost predicate Shaped() {
      forall i :: 0 <= i < |blocks| ==> blocks[i].Shaped()
    }
  }

  function NewQueue(packetDurationMs: u32): Queue {
    Queue([], 0, 0, 0, false, true, false, packetDurationMs)
  }

  // ---------- Arrival ----------

  function NoteLateness(q: Queue, p: ParsedPacket): Queue {
    if p.Fec? then q
    else if !q.synchronizing && IsBefore16(p.rtp.sequenceNumber, q.oldest) then
      q.(lastOutOfOrder := p.rtp.sequenceNumber, receivedOutOfOrder := true)
    else if q.receivedOutOfOrder && IsBefore16(q.oldest, q.lastOutOfOrder) then
      q.(receivedOutOfOrder := false)
    else q
  }

  lemma NoteKeepsBlocks(q: Queue, p: ParsedPacket)
    ensures
      var noted := NoteLateness(q, p);
      noted == q.(lastOutOfOrder := noted.lastOutOfOrder, receivedOutOfOrder := noted.receivedOutOfOrder)
  {}

  function BlockIdentity(p: ParsedPacket, packetDurationMs: u32): Result<(AudioFecHeader, nat), ReceiveError> {
    match p
    case Audio(rtp, payload) =>
      if payload == [] then Err(EmptyAudioPayload) else
        var baseSequence: u16 := rtp.sequenceNumber / DATA_SHARDS * DATA_SHARDS;
        var offset := Wrap16(rtp.sequenceNumber - baseSequence);
        var baseTimestamp := Wrap32(rtp.timestamp - Wrap32(offset * packetDurationMs));
        Ok((AudioFecHeader(0, rtp.packetType, baseSequence, baseTimestamp, rtp.ssrc), |payload|))
    case Fec(fec, payload) =>
      if fec.baseSequenceNumber % DATA_SHARDS != 0 || fec.fecShardIndex >= FEC_SHARDS
        || fec.payloadType != RTP_PAYLOAD_TYPE_AUDIO || payload == []
      then Err(InvalidFecHeader)
      else Ok((fec, |payload|))
  }

  // The index of the block with this base, or else the index at which to insert it.
  function Place(blocks: seq<FecBlock>, base: u16): (i: nat)
    ensures i <= |blocks|
    ensures forall j :: 0 <= j < i ==> blocks[j].Base() != base && !IsBefore16(base, blocks[j].Base())
    ensures i < |blocks| ==> blocks[i].Base() == base || IsBefore16(base, blocks[i].Base())
  {
    if blocks == [] || blocks[0].Base() == base || IsBefore16(base, blocks[0].Base()) then 0
    else 1 + Place(blocks[1..], base)
  }

  function EnsureBlock(blocks: seq<FecBlock>, header: AudioFecHeader, blockSize: nat, now: nat)
    : (r: Result<(seq<FecBlock>, nat), ReceiveError>)
    ensures r.Ok? ==> r.value.1 < |r.value.0|
  {
    var i := Place(blocks, header.baseSequenceNumber);
    if i < |blocks| && blocks[i].Base() == header.baseSequenceNumber then
      if blocks[i].blockSize != blockSize then Err(BlockSizeMismatch)
      else if blocks[i].header.payloadType != header.payloadType
        || blocks[i].header.baseTimestamp != header.baseTimestamp || blocks[i].header.ssrc != header.ssrc
      then Err(InconsistentIdentity)
      else Ok((blocks, i))
    else Ok((blocks[..i] + [NewBlock(header, blockSize, now)] + blocks[i..], i))
  }

  // The block with the packet's shard stored; None when that shard is already there.
  function StoreShard(block: FecBlock, p: ParsedPacket): Result<Option<FecBlock>, ReceiveError>
    requires block.Shaped()
  {
    match p
    case Audio(rtp, payload) =>
      var shardIndex := Wrap16(rtp.sequenceNumber - block.Base());
      if shardIndex >= DATA_SHARDS then Err(DataShardIndexOverflow)
      else if block.dataShards[shardIndex].Some? then Ok(None)
      else Ok(Some(block.(dataShards := block.dataShards[shardIndex := Some(payload)])))
    case Fec(fec, payload) =>
      var shardIndex := fec.fecShardIndex;
      if shardIndex >= FEC_SHARDS then Err(ParityShardIndexOverflow)
      else if block.fecShards[shardIndex].Some? then Ok(None)
      else Ok(Some(block.(fecShards := block.fecShards[shardIndex := Some(payload)])))
  }

  ghost function AllPresent(values: seq<Bytes>): (r: seq<Shard>)
    ensures |r| == |values|
  {
    seq(|values|, i requires 0 <= i < |values| => Some(values[i]))
  }

  ghost function CompleteBlock(block: FecBlock): (r: Result<FecBlock, ReceiveError>)
    requires block.Shaped()
    ensures r.Ok? ==> r.value.Shaped()
  {
    if |Positions(block.dataShards, true)| == DATA_SHARDS then Ok(block.(fullyReassembled := true))
    else if block.Received() < DATA_SHARDS then Ok(block)
    else if RecoveryError(block.dataShards, block.fecShards).Some? then
      Err(RecoveryFailed(RecoveryError(block.dataShards, block.fecShards).value))
    else
      SizesOfParts(block.dataShards, block.fecShards, FirstLength(block.dataShards + block.fecShards).value);
      var restored := Restored(block.dataShards, block.fecShards, FirstLength(block.dataShards + block.fecShards).value);
      Ok(block.(dataShards := AllPresent(restored), fullyReassembled := true))
  }

  // ---------- Departure ----------

  predicate Ready(q: Queue)
    requires q.Shaped()
  {
    if q.blocks == [] then false
    else if q.blocks[0].allowDiscontinuity then true
    else if q.blocks[0].nextDataIndex >= DATA_SHARDS then false
    else
      var head := q.blocks[0];
      Wrap16(head.Base() + head.nextDataIndex) == q.next && head.dataShards[head.nextDataIndex].Some?
  }

  // How long an incomplete head block is kept once a late packet has been seen. Clock readings are in nanoseconds.
  function RecoveryWindow(packetDurationMs: u32): nat {
    (packetDurationMs * DATA_SHARDS + OOS_WAIT_TIME_MS) * 1_000_000
  }

  predicate HeadExpired(q: Queue, now: nat)
    requires q.blocks != []
  {
    !q.receivedOutOfOrder || now - q.blocks[0].queueTime > RecoveryWindow(q.packetDurationMs)
  }

  function Resynchronized(q: Queue): Queue
    requires q.blocks != []
  {
    if IsBefore16(q.next, q.blocks[0].Base()) then q.(next := q.blocks[0].Base(), oldest := q.blocks[0].Base()) else q
  }

  function HandleMissing(q: Queue, now: nat): (r: Queue)
    requires q.Shaped()
    ensures r.Shaped()
  {
    if q.blocks == [] then q else
      var head := q.blocks[0];
      var r := Resynchronized(q);
      if IsBefore16(q.next, head.Base()) && head.dataShards[head.nextDataIndex].Some? then r
      else if |q.blocks| == 1 then r
      else if HeadExpired(q, now) then r.(blocks := q.blocks[0 := head.(allowDiscontinuity := true)])
      else r
  }

  function Settled(q: Queue, now: nat): (r: Queue)
    requires q.Shaped()
    ensures r.Shaped()
  {
    if Ready(q) then q else HandleMissing(q, now)
  }

  // One frame of the head block is consumed; a finished block leaves the queue.
  function Advance(q: Queue): (r: Queue)
    requires q.Shaped() && q.blocks != []
    ensures r.Shaped()
  {
    var head := q.blocks[0];
    var next := Wrap16(q.next + 1);
    if head.nextDataIndex + 1 == DATA_SHARDS then
      q.(blocks := q.blocks[1..], next := next, oldest := Wrap16(head.Base() + DATA_SHARDS), synchronizing := false)
    else
      q.(blocks := q.blocks[0 := head.(nextDataIndex := head.nextDataIndex + 1)], next := next)
  }

  function DequeueReady(q: Queue, now: nat): (r: (Queue, Option<Frame>))
    requires q.Shaped()
    ensures r.0.Shaped()
  {
    var s := Settled(q, now);
    if s.blocks != [] && s.blocks[0].allowDiscontinuity
      && Wrap16(s.blocks[0].Base() + s.blocks[0].nextDataIndex) == s.next
      && s.blocks[0].dataShards[s.blocks[0].nextDataIndex].None?
    then (Advance(s), Some(Missing))
    else if !Ready(s) then (s, None)
    else match s.blocks[0].dataShards[s.blocks[0].nextDataIndex]
      case None => (s, None)
      case Some(shard) => (Advance(s), Some(Encoded(shard)))
  }

  ghost function AcceptShard(q: Queue, i: nat, p: ParsedPacket, now: nat): (r: (Queue, Result<(), ReceiveError>))
    requires q.Shaped() && i < |q.blocks|
    ensures r.0.Shaped()
  {
    if q.blocks[i].fullyReassembled then (q, Ok(())) else
      match StoreShard(q.blocks[i], p)
      case Err(e) => (q, Err(e))
      case Ok(None) => (q, Ok(()))
      case Ok(Some(stored)) =>
        match CompleteBlock(stored)
        case Err(e) => (q.(blocks := q.blocks[i := stored]), Err(e))
        case Ok(block) => (Settled(q.(blocks := q.blocks[i := block]), now), Ok(()))
  }

  ghost function AddPacket(q: Queue, p: ParsedPacket, now: nat): (r: (Queue, Result<(), ReceiveError>))
    requires q.Shaped()
    ensures r.0.Shaped()
  {
    hide AcceptShard, Place, NoteLateness, BlockIdentity;
    NoteKeepsBlocks(q, p);
    var noted := NoteLateness(q, p);
    match BlockIdentity(p, q.packetDurationMs)
    case Err(e) => (noted, Err(e))
    case Ok((header, blockSize)) =>
      var base := header.baseSequenceNumber;
      if !q.initialized then
        var next := Wrap16(base + DATA_SHARDS);
        (noted.(initialized := true, next := next, oldest := next), Ok(()))
      else if IsBefore16(base, q.oldest) then (noted, Ok(()))
      else
        match EnsureBlock(q.blocks, header, blockSize, now)
        case Err(e) => (noted, Err(e))
        case Ok((blocks, i)) => AcceptShard(noted.(blocks := blocks), i, p, now)
  }
}
