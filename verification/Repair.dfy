/** Why parity is sent: any four of the six datagrams of a block are enough. From the datagrams the packetizer returned for a
    block of equal frames to the frames in the receiving queue, over whole runs. */
module Repair {

  import opened Wrappers
  import opened AudioFec
  import opened Protocol
  import opened Sender
  import opened QueueModel
  import opened QueueInvariant
  import opened Delivery
  import opened EndToEnd

  // The frames from this position on make a block with parity, and are not empty.
  ghost predicate Protected(s: Stream, position: nat) {
    position % 4 == 0 && position + 3 < |s.frames| && CompletesBlock(s, position + 3) && s.frames[position] != []
  }

  // The six datagrams returned for the frames of a block: four for the frames one by one, and two with the last of them.
  ghost function BlockDatagram(s: Stream, position: nat, k: nat): Bytes
    requires Protected(s, position) && k < SHARDS
  {
    if k < DATA_SHARDS then AudioBytes(s, position + k) else ParityBytes(s, position + 3, k - DATA_SHARDS)
  }

  // Each parses to a packet sent for the block, which carries shard k.
  lemma DatagramOfBlock(s: Stream, position: nat, k: nat)
    requires Protected(s, position) && k < SHARDS
    ensures
      var parsed := ParseDatagram(BlockDatagram(s, position, k));
      parsed.Ok? && SentFor(s, position, parsed.value) && ShardNumber(parsed.value) == k && parsed.value.payload != []
    ensures Uniform(s, position)
  {
    hide ParseDatagram, SentFor, ShardNumber, AudioBytes, ParityBytes;
    if k < DATA_SHARDS {
      AudioOfBlock(s, position, k);
    } else {
      ParityOfBlock(s, position, k - DATA_SHARDS);
    }
  }

  lemma AudioOfBlock(s: Stream, position: nat, k: nat)
    requires Protected(s, position) && k < DATA_SHARDS
    ensures ParseDatagram(AudioBytes(s, position + k)) == Ok(AudioPacket(s, position + k))
    ensures SentFor(s, position, AudioPacket(s, position + k)) && ShardNumber(AudioPacket(s, position + k)) == k
  {
    hide ParseDatagram, AudioBytes, TimestampOf, Wrap16;
    BytesParse(s, position + k, 0);
    BaseOfSequence(position, k);
    Wrapping(position + k, s.packetDurationMs);
  }

  lemma ParityOfBlock(s: Stream, position: nat, i: nat)
    requires Protected(s, position) && i < FEC_SHARDS
    ensures HasParity(s, position) && ParseDatagram(ParityBytes(s, position + 3, i)) == Ok(ParityPacket(s, position, i))
    ensures SentFor(s, position, ParityPacket(s, position, i)) && ShardNumber(ParityPacket(s, position, i)) == DATA_SHARDS + i
  {
    hide ParseDatagram, ParityBytes, TimestampOf, Wrap16, ParityRow;
    BytesParse(s, position + 3, i);
    ParityCompletes(s, position + 3);
    Wrapping(position, s.packetDurationMs);
  }

  lemma Wrapping(n: nat, packetDurationMs: u32)
    ensures TimestampOf(n, packetDurationMs) == n * packetDurationMs % 0x1_0000_0000 && Wrap16(n) == n % 0x1_0000
  {}

  // In an honest world a queued block of which four shards have been accepted is complete, with the frames that were pushed.
  lemma FourSuffice(w: World, s: Stream, i: nat)
    requires WorldInv(w) && w.q.initialized && Honest(w, s) && i < |w.q.blocks|
    requires |ArrivedShards(w, Position(w, w.q.blocks[i]))| >= DATA_SHARDS
    ensures
      var b, position := w.q.blocks[i], Position(w, w.q.blocks[i]);
      b.fullyReassembled && position + DATA_SHARDS <= |s.frames| &&
      b.dataShards == AllPresent(s.frames[position..position + DATA_SHARDS])
  {
    hide Positions, Wrap16, Numbering, Tracked, Accounted, Ordered, ArrivedShards, Window, OnlyHeadInProgress;
    WorldParts(w, i);
    var b, position := w.q.blocks[i], Position(w, w.q.blocks[i]);
    if !b.fullyReassembled {
      ArrivedIsStored(w, i);
    }
    assert HonestBlock(b, s, position);
    assert forall j :: 0 <= j < DATA_SHARDS ==> b.dataShards[j].Some?;
    assert b.dataShards[3].Some?;
  }

  // A packet of a block of equal frames that arrives in time is accepted.
  lemma InTimeIsAccepted(w: World, s: Stream, p: ParsedPacket, position: nat, now: nat)
    requires WorldInv(w) && w.q.Shaped() && w.q.initialized && Honest(w, s) && SentFor(s, position, p) && p.payload != []
    requires Uniform(s, position) && w.oldest <= position < w.oldest + 0x8000
    ensures (position, ShardNumber(p)) in Arrived(w, p, position, now).arrived
  {
    hide Inv, AddPacket, Honest, SentFor, Uniform, BlockIdentity, Tracked, Accounted, Ordered, IsBefore16, Wrap16;
    HonestDuration(w, s);
    IdentityOfSent(s, position, p);
    ArrivingKeepsHonest(w, p, position, now, s);
    IsBefore16Unwrapped(position, w.oldest);
    WindowPosition(w.oldest, position);
  }

  // Event m delivers datagram k of the block while the block is still of interest.
  ghost predicate Delivers(s: Stream, events: seq<Event>, m: nat, position: nat, k: nat)
    requires Protected(s, position)
  {
    m < |events| && k < SHARDS && events[m].Arrive? && events[m].blockPosition == position &&
    ParseDatagram(BlockDatagram(s, position, k)) == Ok(events[m].packet) &&
    var w := Run(Begin(s.packetDurationMs), events[..m]);
    w.q.initialized && w.oldest <= position < w.oldest + 0x8000
  }

  ghost predicate Delivered(s: Stream, events: seq<Event>, position: nat, k: nat)
    requires Protected(s, position)
  {
    exists m: nat :: Delivers(s, events, m, position, k)
  }

  lemma DeliveredIsAccepted(s: Stream, events: seq<Event>, position: nat, k: nat)
    requires HonestRun(s, events) && Protected(s, position) && Delivered(s, events, position, k)
    ensures
      var w := Run(Begin(s.packetDurationMs), events);
      (position, k) in w.arrived && w.start <= position
  {
    hide HonestRun, Protected, Delivers, Run, HonestEvent, Numbered;
    var m: nat :| Delivers(s, events, m, position, k);
    DeliveringIsAccepted(s, events, m, position, k);
    HonestIsNumbered(s, events);
    ArrivalsStay(s.packetDurationMs, events, m);
    ArrivalsStay(s.packetDurationMs, events, m + 1);
  }

  lemma DeliveringIsAccepted(s: Stream, events: seq<Event>, m: nat, position: nat, k: nat)
    requires HonestRun(s, events) && Protected(s, position) && Delivers(s, events, m, position, k)
    ensures m < |events|
    ensures
      var w := Run(Begin(s.packetDurationMs), events[..m]);
      w.q.initialized && w.start <= position &&
      (position, k) in Run(Begin(s.packetDurationMs), events[..m + 1]).arrived
  {
    hide ParseDatagram, BlockDatagram, Arrived, WorldInv, Honest, SentFor, Uniform, HonestEvent, Protected, HonestRun;
    var w := Run(Begin(s.packetDurationMs), events[..m]);
    HonestPrefix(s, events, m);
    HonestRunKeeps(s, events[..m]);
    DatagramOfBlock(s, position, k);
    InTimeIsAccepted(w, s, events[m].packet, position, events[m].now);
    assert events[..m + 1][..m] == events[..m];
    StartIsBehind(w);
  }

  lemma StartIsBehind(w: World)
    requires WorldInv(w) && w.q.initialized
    ensures w.start <= w.oldest
  {}

  lemma HonestPrefix(s: Stream, events: seq<Event>, m: nat)
    requires HonestRun(s, events) && m <= |events|
    ensures HonestRun(s, events[..m])
  {
    hide HonestEvent, Run;
    assert forall k :: 0 <= k < m ==> events[..m][..k] == events[..k];
  }

  lemma HonestIsNumbered(s: Stream, events: seq<Event>)
    requires HonestRun(s, events)
    ensures forall i :: 0 <= i < |events| ==> Numbered(events[i], s.packetDurationMs)
  {
    hide HonestEvent, Run, Numbered;
    forall i | 0 <= i < |events|
      ensures Numbered(events[i], s.packetDurationMs)
    {
      HonestEventIsNumbered(s, Run(Begin(s.packetDurationMs), events[..i]), events[i]);
    }
  }

  // Frame j came out as it was pushed, or as a loss while fewer than four shards of its block were there.
  ghost predicate CameAsSent(w: World, s: Stream, j: nat) {
    exists i :: 0 <= i < |w.emitted| && w.emitted[i].position == j &&
      match w.emitted[i].frame
      case Encoded(payload) => j < |s.frames| && payload == s.frames[j]
      case Missing => |w.emitted[i].arrived| < DATA_SHARDS
  }

  // Whatever else arrives, is lost, or is dequeued in between: once any four of the six datagrams have been delivered, the block
  // holds all four frames as they were pushed, unless it has been passed; and if it has, a loss was only reported for it before
  // four of its shards were there.
  lemma AnyFourRepair(s: Stream, events: seq<Event>, position: nat, delivered: set<nat>)
    requires HonestRun(s, events) && Protected(s, position)
    requires |delivered| >= DATA_SHARDS && forall k :: k in delivered ==> Delivered(s, events, position, k)
    ensures
      var w := Run(Begin(s.packetDurationMs), events);
      if position >= w.oldest then
        exists i :: 0 <= i < |w.q.blocks| && Position(w, w.q.blocks[i]) == position && w.q.blocks[i].fullyReassembled &&
          w.q.blocks[i].dataShards == AllPresent(s.frames[position..position + DATA_SHARDS])
      else
        forall j :: position <= j < position + DATA_SHARDS ==> CameAsSent(w, s, j)
  {
    hide Protected, Delivered, HonestRun, Inv, Honest, Run;
    var w := Run(Begin(s.packetDurationMs), events);
    HonestRunKeeps(s, events);
    forall k | k in delivered
      ensures (position, k) in w.arrived && k < SHARDS && w.start <= position
    {
      DeliveredIsAccepted(s, events, position, k);
      DeliveredIsShard(s, events, position, k);
    }
    SubsetSize(delivered, ArrivedShards(w, position));
    var k :| k in delivered;
    if position >= w.oldest {
      assert Queued(w, position, k);
      var i: nat :| i < |w.q.blocks| && Position(w, w.q.blocks[i]) == position &&
        (w.q.blocks[i].fullyReassembled || HasShard(w.q.blocks[i], k));
      FourSuffice(w, s, i);
    } else {
      PassedIsAsSent(w, s, position, k);
    }
  }

  lemma DeliveredIsShard(s: Stream, events: seq<Event>, position: nat, k: nat)
    requires Protected(s, position) && Delivered(s, events, position, k)
    ensures k < SHARDS
  {}

  lemma PassedIsAsSent(w: World, s: Stream, position: nat, k: nat)
    requires WorldInv(w) && w.q.initialized && Honest(w, s) && (position, k) in w.arrived
    requires w.start <= position < w.oldest && position % DATA_SHARDS == 0
    ensures forall j :: position <= j < position + DATA_SHARDS ==> CameAsSent(w, s, j)
  {
    hide Inv, Numbering, Tracked;
    assert Settlement(w, position);
    forall j | position <= j < position + DATA_SHARDS
      ensures CameAsSent(w, s, j)
    {
      assert Came(w, j);
      var e :| e in w.emitted && e.position == j;
      var i :| 0 <= i < |w.emitted| && w.emitted[i] == e;
      assert Judged(w.emitted[i]) && HonestEmission(w.emitted[i], s);
    }
  }
}
