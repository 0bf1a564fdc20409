/** The receiving queue as an object that updates its fields in place. */
module Receiver {

  import opened Wrappers
  import opened AudioFec
  import opened Protocol
  import opened QueueModel

  // What the in-place recovery leaves in its array is what CompleteBlock says.
  lemma RecoveredIsRestored(data: seq<Shard>, parity: seq<Shard>, after: seq<Shard>)
    requires |data| == DATA_SHARDS && |parity| == FEC_SHARDS && RecoveryError(data, parity).None?
    requires |after| == DATA_SHARDS && forall i :: 0 <= i < DATA_SHARDS ==> after[i].Some?
    requires
      var len := FirstLength(data + parity).value;
      Recoverable(data, parity, len) && forall full :: IsCompletion(full, data, parity, len) <==> full == Values(after)
    ensures after == AllPresent(Restored(data, parity, FirstLength(data + parity).value))
  {
    hide IsCompletion, Restored, FirstLength;
    var len := FirstLength(data + parity).value;
    CompletionIsUnique(Values(after), data, parity, len);
  }

  class RtpAudioQueue {
    var blocks: seq<FecBlock>
    var nextRtpSequenceNumber: u16
    var oldestRtpBaseSequenceNumber: u16
    var lastOosSequenceNumber: u16
    var receivedOosData: bool
    var synchronizing: bool
    var initialized: bool
    const packetDurationMs: u32

    ghost function State(): Queue
      reads this
    {
      Queue(blocks, nextRtpSequenceNumber, oldestRtpBaseSequenceNumber, lastOosSequenceNumber, receivedOosData,
            synchronizing, initialized, packetDurationMs)
    }

    constructor (packetDurationMs: u32)
      ensures State() == NewQueue(packetDurationMs)
    {
      blocks := [];
      nextRtpSequenceNumber := 0;
      oldestRtpBaseSequenceNumber := 0;
      lastOosSequenceNumber := 0;
      receivedOosData := false;
      synchronizing := true;
      initialized := false;
      this.packetDurationMs := packetDurationMs;
    }

    method AddPacket(packet: ParsedPacket, now: nat) returns (r: Result<(), ReceiveError>)
      requires State().Shaped()
      modifies this
      ensures (State(), r) == QueueModel.AddPacket(old(State()), packet, now)
    {
      hide BlockIdentity, QueueModel.EnsureBlock, QueueModel.AcceptShard, IsBefore16;
      if packet.Audio? {
        if !synchronizing && IsBefore16(packet.rtp.sequenceNumber, oldestRtpBaseSequenceNumber) {
          lastOosSequenceNumber := packet.rtp.sequenceNumber;
          if !receivedOosData {
            receivedOosData := true;
          }
        } else if receivedOosData && IsBefore16(oldestRtpBaseSequenceNumber, lastOosSequenceNumber) {
          receivedOosData := false;
        }
      }
      var identity :- BlockIdentity(packet, packetDurationMs);
      var (fecHeader, blockSize) := identity;
      if !initialized {
        initialized := true;
        nextRtpSequenceNumber := Wrap16(fecHeader.baseSequenceNumber + DATA_SHARDS);
        oldestRtpBaseSequenceNumber := nextRtpSequenceNumber;
        return Ok(());
      }
      if IsBefore16(fecHeader.baseSequenceNumber, oldestRtpBaseSequenceNumber) {
        return Ok(());
      }
      var index :- EnsureBlock(fecHeader, blockSize, now);
      r := AcceptShard(index, packet, now);
    }

    method EnsureBlock(fecHeader: AudioFecHeader, blockSize: nat, now: nat) returns (r: Result<nat, ReceiveError>)
      requires State().Shaped()
      modifies this`blocks
      ensures
        match QueueModel.EnsureBlock(old(blocks), fecHeader, blockSize, now)
        case Err(e) => r == Err(e) && blocks == old(blocks)
        case Ok((placed, i)) => r == Ok(i) && blocks == placed && i < |blocks|
      ensures State().Shaped()
    {
      hide IsBefore16, Place;
      var index := FindPlace(fecHeader.baseSequenceNumber);
      if index == |blocks| || blocks[index].Base() != fecHeader.baseSequenceNumber {
        blocks := blocks[..index] + [NewBlock(fecHeader, blockSize, now)] + blocks[index..];
        return Ok(index);
      }
      var block := blocks[index];
      if block.blockSize != blockSize {
        return Err(BlockSizeMismatch);
      }
      if block.header.payloadType != fecHeader.payloadType || block.header.baseTimestamp != fecHeader.baseTimestamp
        || block.header.ssrc != fecHeader.ssrc
      {
        return Err(InconsistentIdentity);
      }
      return Ok(index);
    }

    // The search: the first block that has this base, or that the base comes before.
    method FindPlace(base: u16) returns (index: nat)
      ensures index == Place(blocks, base) && index <= |blocks|
    {
      hide IsBefore16;
      index := 0;
      while index < |blocks|
        invariant index <= |blocks| && Place(blocks, base) == index + Place(blocks[index..], base)
      {
        if blocks[index].Base() == base || IsBefore16(base, blocks[index].Base()) {
          return;
        }
        assert blocks[index..][1..] == blocks[index + 1..];
        index := index + 1;
      }
    }

    // The second half of adding a packet, once its block is in the queue.
    method AcceptShard(index: nat, packet: ParsedPacket, now: nat) returns (r: Result<(), ReceiveError>)
      requires State().Shaped() && index < |blocks|
      modifies this`blocks, this`nextRtpSequenceNumber, this`oldestRtpBaseSequenceNumber
      ensures (State(), r) == QueueModel.AcceptShard(old(State()), index, packet, now)
    {
      if blocks[index].fullyReassembled {
        return Ok(());
      }
      var stored :- StoreShard(blocks[index], packet);
      if stored.None? {
        return Ok(());
      }
      blocks := blocks[index := stored.value];
      var _ :- TryCompleteBlock(index);
      assert blocks == old(blocks)[index := blocks[index]];
      if !HasPacketReady() {
        HandleMissingPackets(now);
      }
      return Ok(());
    }

    method TryCompleteBlock(index: nat) returns (r: Result<(), ReceiveError>)
      requires State().Shaped() && index < |blocks|
      modifies this`blocks
      ensures
        match CompleteBlock(old(blocks[index]))
        case Err(e) => r == Err(e) && blocks == old(blocks)
        case Ok(block) => r == Ok(()) && blocks == old(blocks)[index := block]
    {
      hide Restored, Recoverable, RecoveryError, FirstLength, IsCompletion;
      var block := blocks[index];
      var dataReceived, fecReceived := |Positions(block.dataShards, true)|, |Positions(block.fecShards, true)|;
      if dataReceived == DATA_SHARDS {
        blocks := blocks[index := block.(fullyReassembled := true)];
        return Ok(());
      }
      if dataReceived + fecReceived < DATA_SHARDS {
        return Ok(());
      }
      var dataShards := new Shard[DATA_SHARDS](i requires 0 <= i < DATA_SHARDS => block.dataShards[i]);
      assert dataShards[..] == block.dataShards;
      var recovered := RecoverAudioBlock(dataShards, block.fecShards);
      if recovered.Err? {
        return Err(RecoveryFailed(recovered.error));
      }
      RecoveredIsRestored(block.dataShards, block.fecShards, dataShards[..]);
      blocks := blocks[index := block.(dataShards := dataShards[..], fullyReassembled := true)];
      return Ok(());
    }

    predicate HasPacketReady()
      requires State().Shaped()
      reads this
    {
      Ready(Queue(blocks, nextRtpSequenceNumber, oldestRtpBaseSequenceNumber, lastOosSequenceNumber, receivedOosData,
                  synchronizing, initialized, packetDurationMs))
    }

    method HandleMissingPackets(now: nat)
      requires State().Shaped()
      modifies this`blocks, this`nextRtpSequenceNumber, this`oldestRtpBaseSequenceNumber
      ensures State() == HandleMissing(old(State()), now)
    {
      if blocks == [] {
        return;
      }
      var head := blocks[0];
      if IsBefore16(nextRtpSequenceNumber, head.Base()) {
        nextRtpSequenceNumber := head.Base();
        oldestRtpBaseSequenceNumber := head.Base();
        if head.dataShards[head.nextDataIndex].Some? {
          return;
        }
      }
      if |blocks| == 1 {
        return;
      }
      if !receivedOosData || now - head.queueTime > RecoveryWindow(packetDurationMs) {
        blocks := blocks[0 := head.(allowDiscontinuity := true)];
      }
    }

    method DequeueReady(now: nat) returns (frame: Option<Frame>)
      requires State().Shaped()
      modifies this
      ensures (State(), frame) == QueueModel.DequeueReady(old(State()), now)
    {
      if !HasPacketReady() {
        HandleMissingPackets(now);
      }
      if blocks != [] {
        var block := blocks[0];
        var expected := Wrap16(block.Base() + block.nextDataIndex);
        if block.allowDiscontinuity && expected == nextRtpSequenceNumber && block.dataShards[block.nextDataIndex].None? {
          ConsumeHeadFrame();
          return Some(Missing);
        }
      }
      if !HasPacketReady() {
        return None;
      }
      var shard := blocks[0].dataShards[blocks[0].nextDataIndex];
      if shard.None? {
        return None;
      }
      ConsumeHeadFrame();
      return Some(Encoded(shard.value));
    }

    // The index and sequence increments that both ways of dequeuing share.
    method ConsumeHeadFrame()
      requires State().Shaped() && blocks != []
      modifies this
      ensures State() == Advance(old(State()))
    {
      var block := blocks[0];
      nextRtpSequenceNumber := Wrap16(nextRtpSequenceNumber + 1);
      if block.nextDataIndex + 1 == DATA_SHARDS {
        FreeBlockHead();
      } else {
        blocks := blocks[0 := block.(nextDataIndex := block.nextDataIndex + 1)];
      }
    }

    method FreeBlockHead()
      modifies this`blocks, this`oldestRtpBaseSequenceNumber, this`synchronizing
      ensures old(blocks) == [] ==> State() == old(State())
      ensures old(blocks) != [] ==>
        State() == old(State()).(blocks := old(blocks)[1..],
                                 oldest := Wrap16(old(blocks)[0].Base() + DATA_SHARDS), synchronizing := false)
    {
      if blocks != [] {
        oldestRtpBaseSequenceNumber := Wrap16(blocks[0].Base() + DATA_SHARDS);
        synchronizing := false;
        blocks := blocks[1..];
      }
    }
  }
}
