/** Cutting a stream of encoded frames into datagrams: one audio datagram a frame and, after every fourth frame of a block
    of equal-sized frames, two parity datagrams. */
module Sender {

  import opened Wrappers
  import opened ByteField
  import opened AudioFec
  import opened Protocol

  // Everything a sender has been given so far. Frames are numbered from 0 without wrapping.
  datatype Stream = Stream(frames: seq<Bytes>, packetDurationMs: u32, ssrc: u32, enableFec: bool)

  ghost predicate HasParity(s: Stream, base: nat) {
    s.enableFec && base % DATA_SHARDS == 0 && base + DATA_SHARDS <= |s.frames| &&
    IsBlock(s.frames[base..base + DATA_SHARDS], |s.frames[base]|)
  }

  ghost function Parity(s: Stream, base: nat, i: nat): (r: Bytes)
    requires HasParity(s, base) && i < FEC_SHARDS
    ensures |r| == |s.frames[base]|
  {
    ParityRow(i, s.frames[base..base + DATA_SHARDS], |s.frames[base]|)
  }

  // The timestamp of frame n: the clock advances by one packet duration a frame.
  function TimestampOf(n: nat, packetDurationMs: u32): u32 {
    Wrap32(n * packetDurationMs)
  }

  lemma TimestampNext(n: nat, packetDurationMs: u32)
    ensures TimestampOf(0, packetDurationMs) == 0
    ensures TimestampOf(n + 1, packetDurationMs) == Wrap32(TimestampOf(n, packetDurationMs) + packetDurationMs)
  {
    assert (n + 1) * packetDurationMs == n * packetDurationMs + packetDurationMs;
    WrapSum32(n * packetDurationMs, packetDurationMs);
  }

  // The packets that the datagrams for frame n carry.
  ghost function AudioPacket(s: Stream, n: nat): ParsedPacket
    requires n < |s.frames|
  {
    Audio(RtpHeader(RTP_PAYLOAD_TYPE_AUDIO, Wrap16(n), TimestampOf(n, s.packetDurationMs), s.ssrc), s.frames[n])
  }

  ghost function ParityPacket(s: Stream, base: nat, i: nat): ParsedPacket
    requires HasParity(s, base) && i < FEC_SHARDS
  {
    Fec(AudioFecHeader(i, RTP_PAYLOAD_TYPE_AUDIO, Wrap16(base), TimestampOf(base, s.packetDurationMs), s.ssrc),
        Parity(s, base, i))
  }

  ghost function SentPackets(s: Stream, n: nat): seq<ParsedPacket>
    requires n < |s.frames|
  {
    [AudioPacket(s, n)] +
    if n % DATA_SHARDS == 3 && HasParity(s, n - 3) then [ParityPacket(s, n - 3, 0), ParityPacket(s, n - 3, 1)] else []
  }

  // The RTP header of a parity datagram continues the sequence numbers of the block, which receivers ignore.
  ghost function ParityRtp(s: Stream, base: nat, i: nat): RtpHeader {
    RtpHeader(RTP_PAYLOAD_TYPE_FEC, Wrap16(base + DATA_SHARDS + i), TimestampOf(base, s.packetDurationMs), s.ssrc)
  }

  ghost function PacketBytes(s: Stream, n: nat, p: ParsedPacket): Bytes {
    match p
    case Audio(rtp, payload) => RtpBytes(rtp) + payload
    case Fec(fec, payload) => RtpBytes(ParityRtp(s, n - n % DATA_SHARDS, fec.fecShardIndex)) + FecHeaderBytes(fec) + payload
  }

  // Every datagram parses back to the packet it was written for.
  lemma SentPacketParses(s: Stream, n: nat, p: ParsedPacket)
    requires n < |s.frames| && p in SentPackets(s, n) && p.payload != []
    ensures ParseDatagram(PacketBytes(s, n, p)) == Ok(p)
  {
    match p
    case Audio(rtp, payload) =>
      AcceptedAudioIsWritten(PacketBytes(s, n, p), rtp, payload);
    case Fec(fec, payload) =>
      FecRoundTrip(ParityRtp(s, n - n % DATA_SHARDS, fec.fecShardIndex), fec, payload);
  }

  // ---------- What goes out, byte by byte ----------

  // The block that frame n completes has parity: it is full, FEC is on, and its four frames are of one size.
  ghost predicate CompletesBlock(s: Stream, n: nat)
    requires n < |s.frames|
  {
    s.enableFec && n % 4 == 3 && |s.frames[n - 3]| == |s.frames[n - 2]| == |s.frames[n - 1]| == |s.frames[n]|
  }

  // The audio datagram of frame n.
  ghost function AudioBytes(s: Stream, n: nat): Bytes
    requires n < |s.frames|
  {
    RtpBytes(RtpHeader(97, n % 0x1_0000, n * s.packetDurationMs % 0x1_0000_0000, s.ssrc)) + s.frames[n]
  }

  // Parity datagram i of the block that frame n completes.
  ghost function ParityBytes(s: Stream, n: nat, i: nat): Bytes
    requires n < |s.frames| && CompletesBlock(s, n) && i < 2
  {
    var time: u32 := (n - 3) * s.packetDurationMs % 0x1_0000_0000;
    RtpBytes(RtpHeader(127, (n + 1 + i) % 0x1_0000, time, s.ssrc)) +
    FecHeaderBytes(AudioFecHeader(i, 97, (n - 3) % 0x1_0000, time, s.ssrc)) +
    ParityRow(i, s.frames[n - 3..n + 1], |s.frames[n]|)
  }

  // One datagram for a frame, and three for a frame that completes a block with parity.
  lemma SentBytes(s: Stream, n: nat)
    requires n < |s.frames|
    ensures
      var packets := SentPackets(s, n);
      |packets| == (if CompletesBlock(s, n) then 3 else 1) && PacketBytes(s, n, packets[0]) == AudioBytes(s, n) &&
      (CompletesBlock(s, n) ==>
        PacketBytes(s, n, packets[1]) == ParityBytes(s, n, 0) && PacketBytes(s, n, packets[2]) == ParityBytes(s, n, 1))
  {
    hide RtpBytes, FecHeaderBytes, ParityRow;
    ParityCompletes(s, n);
  }

  // Each parses back to what it carries, unless the frames are empty.
  lemma BytesParse(s: Stream, n: nat, i: nat)
    requires n < |s.frames| && s.frames[n] != [] && i < 2
    ensures ParseDatagram(AudioBytes(s, n)) ==
      Ok(Audio(RtpHeader(97, n % 0x1_0000, n * s.packetDurationMs % 0x1_0000_0000, s.ssrc), s.frames[n]))
    ensures CompletesBlock(s, n) ==>
      var time: u32 := (n - 3) * s.packetDurationMs % 0x1_0000_0000;
      ParseDatagram(ParityBytes(s, n, i)) ==
        Ok(Fec(AudioFecHeader(i, 97, (n - 3) % 0x1_0000, time, s.ssrc), ParityRow(i, s.frames[n - 3..n + 1], |s.frames[n]|)))
  {
    hide RtpBytes, FecHeaderBytes, ParseDatagram;
    AcceptedAudioIsWritten(AudioBytes(s, n), RtpHeader(97, n % 0x1_0000, n * s.packetDurationMs % 0x1_0000_0000, s.ssrc), s.frames[n]);
    if CompletesBlock(s, n) {
      var time: u32 := (n - 3) * s.packetDurationMs % 0x1_0000_0000;
      FecRoundTrip(RtpHeader(127, (n + 1 + i) % 0x1_0000, time, s.ssrc), AudioFecHeader(i, 97, (n - 3) % 0x1_0000, time, s.ssrc),
                   ParityRow(i, s.frames[n - 3..n + 1], |s.frames[n]|));
    }
  }

  lemma ParityCompletes(s: Stream, n: nat)
    requires n < |s.frames|
    ensures n % 4 == 3 ==> (HasParity(s, n - 3) <==> CompletesBlock(s, n))
  {
    if n % 4 == 3 {
      var block := s.frames[n - 3..n + 1];
      assert block == [s.frames[n - 3], s.frames[n - 2], s.frames[n - 1], s.frames[n]];
      assert HasParity(s, n - 3) ==> |block[1]| == |block[2]| == |block[3]| == |block[0]|;
    }
  }

  // What was sent for a frame does not depend on the frames pushed after it.
  lemma SentPacketsAreStable(s: Stream, later: seq<Bytes>, n: nat)
    requires n < |s.frames|
    ensures SentPackets(s.(frames := s.frames + later), n) == SentPackets(s, n)
  {
    hide ParityRow, TimestampOf, Wrap16, IsBlock;
    if n % DATA_SHARDS == 3 {
      assert (s.frames + later)[n - 3..n + 1] == s.frames[n - 3..n + 1];
    }
  }

  lemma ShardIndex(n: nat, base: nat)
    requires base % DATA_SHARDS == 0 && base <= n < base + DATA_SHARDS
    ensures Wrap16(n) % DATA_SHARDS == n - base == n % DATA_SHARDS
    ensures n - base == 3 ==> (n + 1) % DATA_SHARDS == 0
  {
    hide Wrap16;
    WrapSum(n, 0);
  }

  // The source's comparison of sizes decides exactly whether the block gets parity.
  lemma SizesDecideParity(s: Stream, base: nat, payloads: seq<Shard>)
    requires s.enableFec && base % DATA_SHARDS == 0 && base + DATA_SHARDS <= |s.frames| && |payloads| == DATA_SHARDS
    requires forall j :: 0 <= j < DATA_SHARDS ==> payloads[j] == Some(s.frames[base + j])
    ensures HasParity(s, base) <==>
            forall j :: 0 <= j < DATA_SHARDS ==> ShardLength(payloads[j]) == ShardLength(payloads[0])
    ensures HasParity(s, base) ==> IsBlock(s.frames[base..base + DATA_SHARDS], |s.frames[base]|)
    ensures s.frames[base..base + DATA_SHARDS] ==
            [payloads[0].value, payloads[1].value, payloads[2].value, payloads[3].value]
  {
    var block := s.frames[base..base + DATA_SHARDS];
    assert forall j :: 0 <= j < DATA_SHARDS ==> payloads[j] == Some(block[j]);
  }

  // Encoding into two fresh buffers cannot fail for equal-sized frames.
  method ParityShards(data: seq<Bytes>) returns (parity: seq<Bytes>)
    requires |data| == DATA_SHARDS && IsBlock(data, |data[0]|)
    ensures parity == EncodedParity(data, |data[0]|)
  {
    var parity0, parity1 := new byte[|data[0]|], new byte[|data[0]|];
    var encoded := EncodeAudioBlock(data, parity0, parity1);
    parity := [parity0[..], parity1[..]];
  }

  function ShardLength(shard: Shard): Option<nat> {
    match shard
    case None => None
    case Some(bytes) => Some(|bytes|)
  }

  class AudioPacketizer {
    var sequenceNumber: u16
    var timestamp: u32
    const ssrc: u32
    const packetDurationMs: u32
    const enableFec: bool
    var blockPayloads: seq<Shard>
    var blockBaseSequence: u16
    var blockBaseTimestamp: u32
    // All frames pushed so far, and the number of the first frame of the current block.
    ghost var frames: seq<Bytes>
    ghost var base: nat

    ghost function Pushed(): Stream
      reads this
    {
      Stream(frames, packetDurationMs, ssrc, enableFec)
    }

    // The block under construction holds the frames from base on.
    ghost predicate BlockHolds(count: nat)
      reads this
    {
      base % DATA_SHARDS == 0 && base + count == |frames| && count <= |blockPayloads| == DATA_SHARDS &&
      (forall j :: 0 <= j < count ==> blockPayloads[j] == Some(frames[base + j])) &&
      (count != 0 ==> blockBaseSequence == Wrap16(base) && blockBaseTimestamp == TimestampOf(base, packetDurationMs))
    }

    ghost predicate Valid()
      reads this
    {
      sequenceNumber == Wrap16(|frames|) && timestamp == TimestampOf(|frames|, packetDurationMs) &&
      base <= |frames| < base + DATA_SHARDS && BlockHolds(|frames| - base)
    }

    constructor (packetDurationMs: u32, ssrc: u32, enableFec: bool)
      ensures Valid() && Pushed() == Stream([], packetDurationMs, ssrc, enableFec)
    {
      this.packetDurationMs := packetDurationMs;
      this.ssrc := ssrc;
      this.enableFec := enableFec;
      TimestampNext(0, packetDurationMs);
      sequenceNumber, timestamp := 0, 0;
      blockPayloads := [None, None, None, None];
      blockBaseSequence, blockBaseTimestamp := 0, 0;
      frames, base := [], 0;
    }

    method ParityDatagram(sequence: u16, fecIndex: nat, parity: Bytes) returns (datagram: Bytes)
      requires BlockHolds(DATA_SHARDS) && HasParity(Pushed(), base) && sequence == Wrap16(base + 3)
      requires fecIndex < FEC_SHARDS && parity == Parity(Pushed(), base, fecIndex)
      ensures datagram == PacketBytes(Pushed(), base + 3, ParityPacket(Pushed(), base, fecIndex))
    {
      hide RtpBytes, FecHeaderBytes, ParseDatagram, Parity, TimestampOf, Wrap16, IsBlock;
      ShardIndex(base + 3, base);
      WrapSum(base + 3, fecIndex + 1);
      var rtp := RtpHeader(RTP_PAYLOAD_TYPE_FEC, Wrap16(sequence + fecIndex + 1), blockBaseTimestamp, ssrc);
      var header := AudioFecHeader(fecIndex, RTP_PAYLOAD_TYPE_AUDIO, blockBaseSequence, blockBaseTimestamp, ssrc);
      datagram := WriteFecPacket(rtp, header, parity);
    }

    // The parity datagrams of the block that has just been completed, if its frames are of equal size.
    method ParityDatagrams(sequence: u16) returns (out: seq<Bytes>)
      requires enableFec && BlockHolds(DATA_SHARDS) && sequence == Wrap16(base + 3)
      ensures out ==
        if !HasParity(Pushed(), base) then [] else
          [PacketBytes(Pushed(), base + 3, ParityPacket(Pushed(), base, 0)),
           PacketBytes(Pushed(), base + 3, ParityPacket(Pushed(), base, 1))]
    {
      hide RtpBytes, FecHeaderBytes, ParseDatagram, ParityRow, TimestampOf, Wrap16, HasParity, IsBlock;
      ShardIndex(base + 3, base);
      SizesDecideParity(Pushed(), base, blockPayloads);
      var equalSizes := forall j :: 0 <= j < DATA_SHARDS ==> ShardLength(blockPayloads[j]) == ShardLength(blockPayloads[0]);
      if !equalSizes {
        return [];
      }
      var parity := ParityShards([blockPayloads[0].value, blockPayloads[1].value, blockPayloads[2].value, blockPayloads[3].value]);
      out := [];
      for fecIndex := 0 to FEC_SHARDS
        invariant |out| == fecIndex
        invariant forall i :: 0 <= i < fecIndex ==>
          out[i] == PacketBytes(Pushed(), base + 3, ParityPacket(Pushed(), base, i))
      {
        var datagram := ParityDatagram(sequence, fecIndex, parity[fecIndex]);
        out := out + [datagram];
      }
    }

    // Never fails: the source's error branches are unreachable.
    method PushEncodedFrame(payload: Bytes) returns (r: Result<seq<Bytes>, FecError>)
      requires Valid()
      modifies this
      ensures Valid() && frames == old(frames) + [payload]
      ensures r.Ok?
      ensures
        var packets := SentPackets(Pushed(), |old(frames)|);
        |r.value| == |packets| &&
        forall i :: 0 <= i < |packets| ==> r.value[i] == PacketBytes(Pushed(), |old(frames)|, packets[i])
      ensures
        var s, n := Pushed(), |old(frames)|;
        |r.value| == (if CompletesBlock(s, n) then 3 else 1) && r.value[0] == AudioBytes(s, n) &&
        (CompletesBlock(s, n) ==> r.value[1] == ParityBytes(s, n, 0) && r.value[2] == ParityBytes(s, n, 1))
    {
      hide RtpBytes, FecHeaderBytes, ParseDatagram, Parity, TimestampOf, IsBlock, Wrap16, Wrap32, AudioBytes, ParityBytes,
        CompletesBlock;
      ghost var n := |frames|;
      var sequence, time := sequenceNumber, timestamp;
      var shardIndex := sequence % DATA_SHARDS;
      WrapSum(n, 1);
      ShardIndex(n, base);
      TimestampNext(n, packetDurationMs);

      if shardIndex == 0 {
        blockBaseSequence := sequence;
        blockBaseTimestamp := time;
      }
      blockPayloads := blockPayloads[shardIndex := Some(payload)];

      var rtp := RtpHeader(RTP_PAYLOAD_TYPE_AUDIO, sequence, time, ssrc);
      var datagram := WriteAudioPacket(rtp, payload);
      var out := [datagram];

      sequenceNumber := Wrap16(sequenceNumber + 1);
      timestamp := Wrap32(timestamp + packetDurationMs);
      frames := frames + [payload];

      assert BlockHolds(shardIndex + 1);
      if enableFec && shardIndex + 1 == DATA_SHARDS {
        var parity := ParityDatagrams(sequence);
        out := out + parity;
        blockPayloads := [None, None, None, None];
      }
      if shardIndex + 1 == DATA_SHARDS {
        base := |frames|;
      }
      SentBytes(Pushed(), n);
      return Ok(out);
    }
  }
}
