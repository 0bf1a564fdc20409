/** What comes out is what went in: runs of the receiving queue on packets that a packetizer sent, under any loss,
    duplication and reordering that keeps each arriving packet within half the number space of the receiver. */
module EndToEnd {

  import opened Wrappers
  import opened AudioFec
  import opened Protocol
  import opened Sender
  import opened QueueModel
  import opened QueueInvariant
  import opened Delivery

  // p is one of the packets sent for the block at this position.
  ghost predicate SentFor(s: Stream, position: nat, p: ParsedPacket) {
    position % DATA_SHARDS == 0 &&
    match p
    case Audio(rtp, payload) =>
      var n := position + ShardNumber(p);
      n < |s.frames| && p == AudioPacket(s, n)
    case Fec(fec, payload) =>
      fec.fecShardIndex < FEC_SHARDS && HasParity(s, position) && p == ParityPacket(s, position, fec.fecShardIndex)
  }

  lemma SentPacketsAreSentFor(s: Stream, n: nat, p: ParsedPacket)
    requires n < |s.frames| && p in SentPackets(s, n)
    ensures SentFor(s, n - n % DATA_SHARDS, p)
  {
    hide Wrap16, TimestampOf, Parity, IsBlock;
    WrapSum(n, 0);
    var position := n - n % DATA_SHARDS;
    assert position % DATA_SHARDS == 0;
    if p == AudioPacket(s, n) {
      assert ShardNumber(p) == n % DATA_SHARDS;
    } else {
      assert position == n - 3;
    }
  }

  // All frames of the block that exist have the same size.
  ghost predicate Uniform(s: Stream, position: nat) {
    forall n :: position <= n < position + DATA_SHARDS && n < |s.frames| ==> |s.frames[n]| == |s.frames[position]|
  }

  // A queued block at its position in the stream: every shard is the sender's.
  ghost predicate HonestBlock(b: FecBlock, s: Stream, position: nat) {
    |b.dataShards| == DATA_SHARDS && |b.fecShards| == FEC_SHARDS &&
    (forall j :: 0 <= j < DATA_SHARDS && b.dataShards[j].Some? ==>
      position + j < |s.frames| && b.dataShards[j].value == s.frames[position + j]) &&
    (forall i :: 0 <= i < FEC_SHARDS && b.fecShards[i].Some? ==>
      HasParity(s, position) && b.fecShards[i].value == Parity(s, position, i)) &&
    b.header.payloadType == RTP_PAYLOAD_TYPE_AUDIO && b.header.ssrc == s.ssrc &&
    b.header.baseTimestamp == TimestampOf(position, s.packetDurationMs) &&
    (Uniform(s, position) && position < |s.frames| ==> b.blockSize == |s.frames[position]|)
  }

  ghost predicate HonestEmission(e: Emission, s: Stream) {
    e.frame.Encoded? ==> e.position < |s.frames| && e.frame.payload == s.frames[e.position]
  }

  ghost predicate Honest(w: World, s: Stream) {
    w.q.packetDurationMs == s.packetDurationMs &&
    (forall i :: 0 <= i < |w.q.blocks| ==> HonestBlock(w.q.blocks[i], s, Position(w, w.q.blocks[i]))) &&
    (forall i :: 0 <= i < |w.emitted| ==> HonestEmission(w.emitted[i], s))
  }

  // The packet arrives while its block is within half the number space of the receiver's position.
  predicate InWindow(w: World, position: nat) {
    w.q.initialized ==> -0x8000 <= position - w.oldest <= 0x8000
  }

  ghost predicate HonestEvent(s: Stream, w: World, e: Event) {
    e.Arrive? ==> SentFor(s, e.blockPosition, e.packet) && InWindow(w, e.blockPosition)
  }

  // ---------- Sender and receiver agree on block identity ----------

  lemma OffsetTimestamp(position: nat, offset: nat, duration: u32)
    ensures Wrap32(TimestampOf(position + offset, duration) - Wrap32(offset * duration)) == TimestampOf(position, duration)
  {
    var a, b := position * duration, offset * duration;
    assert (position + offset) * duration == a + b;
    WrapDifference(a, b);
  }

  lemma WrapDifference(a: int, b: int)
    ensures Wrap32(Wrap32(a + b) - Wrap32(b)) == Wrap32(a)
  {}

  lemma BaseOfSequence(position: nat, offset: nat)
    requires position % DATA_SHARDS == 0 && offset < DATA_SHARDS
    ensures
      var sequence := Wrap16(position + offset);
      sequence / DATA_SHARDS * DATA_SHARDS == Wrap16(position) && sequence - Wrap16(position) == offset &&
      sequence % DATA_SHARDS == offset
  {
    hide Wrap16;
    var base := Wrap16(position);
    WrapSum(position, offset);
    SmallWrap(base + offset);
    assert base == base / DATA_SHARDS * DATA_SHARDS;
  }

  lemma SmallWrap(x: nat)
    ensures x < 0x1_0000 ==> Wrap16(x) == x
    ensures x % DATA_SHARDS == 0 && x < 0x1_0000 ==> x + 3 < 0x1_0000
  {}

  // Every datagram of a block, audio or parity, names the same block, at every wrap of the counters.
  lemma IdentityOfSent(s: Stream, position: nat, p: ParsedPacket)
    requires SentFor(s, position, p) && p.payload != []
    ensures BlockIdentity(p, s.packetDurationMs).Ok?
    ensures
      var (header, blockSize) := BlockIdentity(p, s.packetDurationMs).value;
      header.baseSequenceNumber == Wrap16(position) && header.payloadType == RTP_PAYLOAD_TYPE_AUDIO &&
      header.baseTimestamp == TimestampOf(position, s.packetDurationMs) && header.ssrc == s.ssrc &&
      blockSize == |p.payload| && (Uniform(s, position) ==> position < |s.frames| && blockSize == |s.frames[position]|)
  {
    hide TimestampOf, Wrap32, Wrap16, Uniform, HasParity, Parity;
    if Uniform(s, position) {
      UniformSize(s, position, p);
    }
    match p
    case Audio(rtp, payload) => IdentityOfAudio(s, position, p);
    case Fec(fec, payload) => WrapSum(position, 0);
  }

  lemma IdentityOfAudio(s: Stream, position: nat, p: ParsedPacket)
    requires SentFor(s, position, p) && p.payload != [] && p.Audio?
    ensures BlockIdentity(p, s.packetDurationMs) ==
      Ok((AudioFecHeader(0, RTP_PAYLOAD_TYPE_AUDIO, Wrap16(position), TimestampOf(position, s.packetDurationMs), s.ssrc),
          |p.payload|))
  {
    hide TimestampOf, Wrap32, Wrap16;
    var offset := ShardNumber(p);
    BaseOfSequence(position, offset);
    SmallWrap(offset);
    OffsetTimestamp(position, offset, s.packetDurationMs);
  }

  // In a block of equal-sized frames, every packet has that size.
  lemma UniformSize(s: Stream, position: nat, p: ParsedPacket)
    requires SentFor(s, position, p) && Uniform(s, position)
    ensures position < |s.frames| && |p.payload| == |s.frames[position]|
  {
    hide TimestampOf, Wrap16;
  }

  // ---------- Each step keeps the queue's content the sender's ----------

  lemma SettlingKeepsHonest(w: World, now: nat, s: Stream)
    requires WorldInv(w) && w.q.initialized && Honest(w, s)
    ensures w.q.Shaped() && Honest(Moved(w, Settled(w.q, now)), s)
  {
    hide WorldInv, Settled, Position, HonestBlock;
    SettlingKeepsWorld(w, now);
    SettledKeepsDuration(w.q, now);
    var r := Moved(w, Settled(w.q, now));
    forall i | 0 <= i < |r.q.blocks|
      ensures HonestBlock(r.q.blocks[i], s, Position(r, r.q.blocks[i]))
    {
      HonestContent(w.q.blocks[i], r.q.blocks[i], s, Position(w, w.q.blocks[i]));
    }
  }

  // Progress through a block does not touch its content.
  lemma HonestContent(b: FecBlock, b': FecBlock, s: Stream, position: nat)
    requires HonestBlock(b, s, position)
    requires b' == b.(nextDataIndex := b'.nextDataIndex, allowDiscontinuity := b'.allowDiscontinuity)
    ensures HonestBlock(b', s, position)
  {}

  lemma AdvancingKeepsHonest(w: World, e: Emission, s: Stream)
    requires HeadIsOldest(w) && Numbering(w) && Honest(w, s) && HonestEmission(e, s)
    ensures w.q.Shaped() && Honest(WithEmission(w, Advance(w.q), e), s)
  {
    AdvancedQueue(w);
    hide Inv, HonestBlock, HonestEmission, Wrap16;
    var r := WithEmission(w, Advance(w.q), e);
    forall i | 0 <= i < |r.q.blocks|
      ensures HonestBlock(r.q.blocks[i], s, Position(r, r.q.blocks[i]))
    {
      HonestContent(w.q.blocks[Survivor(w, i)], r.q.blocks[i], s, Position(w, w.q.blocks[Survivor(w, i)]));
    }
  }

  lemma PollingKeepsHonest(w: World, now: nat, s: Stream)
    requires WorldInv(w) && Honest(w, s)
    ensures w.q.Shaped() && Honest(Polled(w, now), s)
  {
    hide Wrap16, Inv, Settled, Advance, HonestBlock, Numbering, Tracked, Accounted, Ordered;
    InvParts(w.q);
    PollDivides(w.q, now);
    if w.q.blocks == [] {
      PollingKeepsWorld(w, now);
      EmptyPoll(w, now);
    } else {
      SettlingKeepsWorld(w, now);
      SettlingKeepsHonest(w, now, s);
      var (q, frame) := DequeueReady(w.q, now);
      if frame.Some? {
        PollYields(w.q, now);
        var head, settled := w.q.blocks[0], Moved(w, Settled(w.q, now));
        var e := Emission(Position(w, head) + head.nextDataIndex, frame.value, ArrivedShards(w, Position(w, head)));
        HeadEmissionIsHonest(w, e, s);
        SettledFacts(w.q, now);
        AdvancingKeepsHonest(settled, e, s);
        PollDistance(w, Settled(w.q, now));
        MovedTwice(w, Settled(w.q, now), q);
        assert Polled(w, now) == WithEmission(settled, q, e);
      }
    }
  }

  lemma EmptyPoll(w: World, now: nat)
    requires w.q.blocks == []
    ensures Polled(w, now) == w
  {
    WrapDistance(w.q.oldest, w.q.oldest);
  }

  lemma HeadEmissionIsHonest(w: World, e: Emission, s: Stream)
    requires Honest(w, s) && w.q.blocks != [] && w.q.Shaped()
    requires
      var head := w.q.blocks[0];
      e.position == Position(w, head) + head.nextDataIndex &&
      (e.frame.Encoded? ==> head.dataShards[head.nextDataIndex] == Some(e.frame.payload))
    ensures HonestEmission(e, s)
  {
    assert HonestBlock(w.q.blocks[0], s, Position(w, w.q.blocks[0]));
  }

  lemma InsertingKeepsHonest(w: World, added: FecBlock, i: nat, s: Stream)
    requires Honest(w, s) && i <= |w.q.blocks| && HonestBlock(added, s, Position(w, added))
    ensures Honest(w.(q := w.q.(blocks := w.q.blocks[..i] + [added] + w.q.blocks[i..])), s)
  {
    hide HonestBlock, Wrap16;
    var r := w.(q := w.q.(blocks := w.q.blocks[..i] + [added] + w.q.blocks[i..]));
    forall j | 0 <= j < |r.q.blocks|
      ensures HonestBlock(r.q.blocks[j], s, Position(r, r.q.blocks[j]))
    {
      assert r.q.blocks[j] == if j < i then w.q.blocks[j] else if j == i then added else w.q.blocks[j - 1];
    }
  }

  lemma ReplacingKeepsHonest(w: World, i: nat, b: FecBlock, s: Stream)
    requires Honest(w, s) && i < |w.q.blocks| && b.Base() == w.q.blocks[i].Base() && HonestBlock(b, s, Position(w, b))
    ensures Honest(w.(q := w.q.(blocks := w.q.blocks[i := b])), s)
  {
    hide HonestBlock, Wrap16;
    var r := w.(q := w.q.(blocks := w.q.blocks[i := b]));
    forall j | 0 <= j < |r.q.blocks|
      ensures HonestBlock(r.q.blocks[j], s, Position(r, r.q.blocks[j]))
    {
      assert r.q.blocks[j] == if j == i then b else w.q.blocks[j];
    }
  }

  lemma StoringKeepsHonest(block: FecBlock, p: ParsedPacket, s: Stream, position: nat)
    requires block.Shaped() && block.Base() == Wrap16(position) && HonestBlock(block, s, position) && SentFor(s, position, p)
    requires StoreShard(block, p).Ok? && StoreShard(block, p).value.Some?
    ensures HonestBlock(StoreShard(block, p).value.value, s, position)
  {
    hide TimestampOf, Wrap32, Uniform, Parity, Wrap16;
    if p.Audio? {
      BaseOfSequence(position, ShardNumber(p));
      SmallWrap(ShardNumber(p));
    }
  }

  // Recovery from the sender's shards gives back the sender's frames.
  lemma CompletingKeepsHonest(stored: FecBlock, s: Stream, position: nat)
    requires Pending(stored) && HonestBlock(stored, s, position) && CompleteBlock(stored).Ok?
    ensures HonestBlock(CompleteBlock(stored).value, s, position)
  {
    hide TimestampOf, Uniform, Restored, RecoveryError, FirstLength, Positions, ParityRow;
    if |Positions(stored.dataShards, true)| != DATA_SHARDS && stored.Received() >= DATA_SHARDS {
      CountsAreEnough(stored.dataShards, stored.fecShards, stored.blockSize);
      RecoveredBlock(stored, s, position);
    }
  }

  lemma RecoveredBlock(stored: FecBlock, s: Stream, position: nat)
    requires Pending(stored) && HonestBlock(stored, s, position) && stored.Received() >= DATA_SHARDS
    requires |Positions(stored.dataShards, true)| != DATA_SHARDS
    ensures position + DATA_SHARDS <= |s.frames| && Recoverable(stored.dataShards, stored.fecShards, stored.blockSize)
    ensures Restored(stored.dataShards, stored.fecShards, stored.blockSize) == s.frames[position..position + DATA_SHARDS]
  {
    hide TimestampOf, Uniform, Restored, RecoveryError, FirstLength, ParityRow, Positions;
    StoredParity(stored, s, position);
    var block, len := s.frames[position..position + DATA_SHARDS], |s.frames[position]|;
    assert IsErasure(stored.dataShards, block);
    assert IsErasure(stored.fecShards, EncodedParity(block, len));
    CountsAreEnough(stored.dataShards, stored.fecShards, len);
    ErasureRoundTrip(block, len, stored.dataShards, stored.fecShards);
  }

  // A block that lacks data but has four shards holds parity, so the sender's block had equal-sized frames.
  lemma StoredParity(stored: FecBlock, s: Stream, position: nat)
    requires Pending(stored) && HonestBlock(stored, s, position) && stored.Received() >= DATA_SHARDS
    requires |Positions(stored.dataShards, true)| != DATA_SHARDS
    ensures HasParity(s, position) && |s.frames[position]| == stored.blockSize
  {
    hide TimestampOf, Uniform, ParityRow;
    var i := Positions(stored.fecShards, true)[0];
    assert stored.fecShards[i].Some?;
    assert |stored.fecShards[i].value| == stored.blockSize;
  }

  // ---------- An arriving packet ----------

  // Within the window, the receiver's serial number arithmetic recovers the true position.
  lemma WindowPosition(oldest: nat, position: nat)
    requires -0x8000 <= position - oldest <= 0x8000
    requires !IsBefore16(Wrap16(position), Wrap16(oldest))
    ensures oldest + Wrap16(Wrap16(position) - Wrap16(oldest)) == position
  {
    IsBefore16Unwrapped(position, oldest);
    var d := position - oldest;
    WrapGap(position, oldest);
  }

  lemma WrapGap(x: int, y: int)
    ensures Wrap16(Wrap16(x) - Wrap16(y)) == Wrap16(x - y)
  {}

  lemma SameWorldHonest(w: World, q: Queue, s: Stream)
    requires Honest(w, s) && q.blocks == w.q.blocks && q.oldest == w.q.oldest && q.packetDurationMs == w.q.packetDurationMs
    ensures Honest(w.(q := q), s) && Moved(w, q) == w.(q := q)
  {
    hide HonestBlock;
    WrapDistance(q.oldest, q.oldest);
    assert forall i :: 0 <= i < |q.blocks| ==> Position(w.(q := q), q.blocks[i]) == Position(w, w.q.blocks[i]);
  }

  lemma FreshBlockIsHonest(s: Stream, position: nat, p: ParsedPacket, now: nat)
    requires SentFor(s, position, p) && p.payload != []
    ensures
      BlockIdentity(p, s.packetDurationMs).Ok? &&
      var (header, blockSize) := BlockIdentity(p, s.packetDurationMs).value;
      HonestBlock(NewBlock(header, blockSize, now), s, position)
  {
    hide TimestampOf, BlockIdentity;
    IdentityOfSent(s, position, p);
  }

  lemma AcceptingKeepsHonest(w: World, i: nat, p: ParsedPacket, now: nat, s: Stream)
    requires WorldInv(w) && w.q.initialized && Honest(w, s) && i < |w.q.blocks|
    requires Belongs(p, w.q.blocks[i], w.q.packetDurationMs) && SentFor(s, Position(w, w.q.blocks[i]), p)
    requires w.q.blocks[i].Base() == Wrap16(Position(w, w.q.blocks[i]))
    ensures w.q.Shaped() && Honest(Moved(w, AcceptShard(w.q, i, p, now).0), s)
  {
    hide Wrap16, Inv, BlockInv, StoreShard, CompleteBlock, Settled, WorldInv, Belongs, HonestBlock, SentFor, Position;
    WorldParts(w, i);
    var block, position := w.q.blocks[i], Position(w, w.q.blocks[i]);
    SameWorldHonest(w, w.q, s);
    if !block.fullyReassembled {
      StoringSucceeds(block, p, w.q.packetDurationMs);
      InvBlockShaped(block);
      var stored := StoreShard(block, p).value;
      if stored.Some? {
        StoringKeepsHonest(block, p, s, position);
        CompletingSucceeds(stored.value);
        CompletingKeepsHonest(stored.value, s, position);
        StoringGrows(block, p, w.q.packetDurationMs);
        CompletedWorld(w, i, p, now, s);
      }
    }
  }

  lemma CompletedWorld(w: World, i: nat, p: ParsedPacket, now: nat, s: Stream)
    requires WorldInv(w) && w.q.initialized && Honest(w, s) && i < |w.q.blocks| && w.q.Shaped()
    requires StoreShard(w.q.blocks[i], p).Ok? && StoreShard(w.q.blocks[i], p).value.Some?
    requires StoreShard(w.q.blocks[i], p).value.value.Shaped() && CompleteBlock(StoreShard(w.q.blocks[i], p).value.value).Ok?
    requires
      var b := CompleteBlock(StoreShard(w.q.blocks[i], p).value.value).value;
      BlockInv(b) && Grows(b, w.q.blocks[i]) && (b.fullyReassembled || HasShard(b, ShardNumber(p))) &&
      HonestBlock(b, s, Position(w, w.q.blocks[i]))
    requires !w.q.blocks[i].fullyReassembled && Belongs(p, w.q.blocks[i], w.q.packetDurationMs)
    ensures Honest(Moved(w, AcceptShard(w.q, i, p, now).0), s)
  {
    hide Wrap16, Inv, BlockInv, StoreShard, CompleteBlock, Settled, WorldInv, Belongs, HonestBlock, HasShard;
    var b := CompleteBlock(StoreShard(w.q.blocks[i], p).value.value).value;
    ShardNumberOf(p, w.q.blocks[i], w.q.packetDurationMs);
    GrowingKeepsWorld(w, i, b, ShardNumber(p));
    ReplacingKeepsHonest(w, i, b, s);
    SettlingKeepsHonest(Grown(w, i, b, ShardNumber(p)), now, s);
  }

  // An accepted packet: it is placed at its position and its shard is taken in.
  lemma PlacingAndAcceptingKeepsHonest(w: World, p: ParsedPacket, position: nat, now: nat, s: Stream)
    requires WorldInv(w) && w.q.initialized && Honest(w, s) && SentFor(s, position, p) && InWindow(w, position)
    requires BlockIdentity(p, w.q.packetDurationMs).Ok? && p.payload != []
    requires !IsBefore16(BlockIdentity(p, w.q.packetDurationMs).value.0.baseSequenceNumber, w.q.oldest)
    ensures
      var (header, blockSize) := BlockIdentity(p, w.q.packetDurationMs).value;
      var placed := EnsureBlock(w.q.blocks, header, blockSize, now);
      (Uniform(s, position) ==> placed.Ok?) &&
      (placed.Ok? ==>
        var q := w.q.(blocks := placed.value.0);
        q.Shaped() && AcceptShard(q, placed.value.1, p, now).1.Ok? &&
        Honest(Moved(w, AcceptShard(q, placed.value.1, p, now).0), s))
  {
    hide Wrap16, IsBefore16, Inv, BlockIdentity, EnsureBlock, AcceptShard, WorldInv, HonestBlock, SentFor, Uniform;
    HonestDuration(w, s);
    IdentityOfSent(s, position, p);
    IdentityFacts(p, s.packetDurationMs);
    WorldNumbering(w);
    WindowPosition(w.oldest, position);
    PlacedHonest(w, p, position, now, s);
    var (header, blockSize) := BlockIdentity(p, s.packetDurationMs).value;
    var placed := EnsureBlock(w.q.blocks, header, blockSize, now);
    if placed.Ok? {
      PlacingKeepsWorld(w, header, blockSize, now);
      var (blocks, i) := placed.value;
      var filled := w.(q := w.q.(blocks := blocks));
      AcceptingKeepsHonest(filled, i, p, now, s);
      AcceptingKeepsWorld(filled, i, p, now);
    }
  }

  lemma ArrivingKeepsHonest(w: World, p: ParsedPacket, position: nat, now: nat, s: Stream)
    requires WorldInv(w) && w.q.Shaped() && Honest(w, s) && SentFor(s, position, p) && InWindow(w, position)
    ensures Honest(Arrived(w, p, position, now), s)
    // A packet of a block of equal-sized frames is never rejected.
    ensures p.payload != [] && Uniform(s, position) ==> AddPacket(w.q, p, now).1.Ok?
  {
    hide Wrap16, IsBefore16, Inv, NoteLateness, BlockIdentity, EnsureBlock, AcceptShard, WorldInv, HonestBlock, SentFor, Uniform;
    NoteKeepsBlocks(w.q, p);
    NotingKeepsWorld(w, p);
    var noted := w.(q := NoteLateness(w.q, p));
    SameWorldHonest(w, noted.q, s);
    WorldHasInv(w);
    InvParts(w.q);
    NoIdentity(p, w.q.packetDurationMs);
    if p.payload != [] {
      HonestDuration(w, s);
      IdentityOfSent(s, position, p);
      if w.q.initialized
        && !IsBefore16(BlockIdentity(p, w.q.packetDurationMs).value.0.baseSequenceNumber, w.q.oldest)
      {
        PlacingAndAcceptingKeepsHonest(noted, p, position, now, s);
      }
    }
  }

  lemma NoIdentity(p: ParsedPacket, packetDurationMs: u32)
    ensures p.payload == [] ==> BlockIdentity(p, packetDurationMs).Err?
  {}

  lemma WorldNumbering(w: World)
    requires WorldInv(w) && w.q.initialized
    ensures Wrap16(w.oldest) == w.q.oldest
  {}

  // The block the packet is placed in lies at the packet's position and has the packet's identity.
  lemma PlacedHonest(w: World, p: ParsedPacket, position: nat, now: nat, s: Stream)
    requires Honest(w, s) && SentFor(s, position, p) && p.payload != [] && w.q.packetDurationMs == s.packetDurationMs
    requires BlockIdentity(p, s.packetDurationMs).Ok?
    requires w.oldest + Offset(w.q, Wrap16(position)) == position
    ensures
      var (header, blockSize) := BlockIdentity(p, s.packetDurationMs).value;
      var placed := EnsureBlock(w.q.blocks, header, blockSize, now);
      (placed.Ok? ==>
        Honest(w.(q := w.q.(blocks := placed.value.0)), s) &&
        Position(w, placed.value.0[placed.value.1]) == position &&
        placed.value.0[placed.value.1].Base() == Wrap16(position)) &&
      (Uniform(s, position) ==> placed.Ok?)
  {
    hide Wrap16, IsBefore16, BlockIdentity, HonestBlock, SentFor, Uniform, TimestampOf;
    IdentityOfSent(s, position, p);
    FreshBlockIsHonest(s, position, p, now);
    var (header, blockSize) := BlockIdentity(p, s.packetDurationMs).value;
    var i := Place(w.q.blocks, header.baseSequenceNumber);
    if i < |w.q.blocks| && w.q.blocks[i].Base() == header.baseSequenceNumber {
      HonestIdentity(w.q.blocks[i], s, position);
    } else {
      InsertingKeepsHonest(w, NewBlock(header, blockSize, now), i, s);
    }
  }

  lemma HonestIdentity(b: FecBlock, s: Stream, position: nat)
    requires HonestBlock(b, s, position)
    ensures b.header.payloadType == RTP_PAYLOAD_TYPE_AUDIO && b.header.ssrc == s.ssrc
    ensures b.header.baseTimestamp == TimestampOf(position, s.packetDurationMs)
    ensures Uniform(s, position) && position < |s.frames| ==> b.blockSize == |s.frames[position]|
  {}

  // ---------- Every run ----------

  lemma HonestEventIsNumbered(s: Stream, w: World, e: Event)
    requires HonestEvent(s, w, e)
    ensures Numbered(e, s.packetDurationMs)
  {
    hide BlockIdentity, Wrap16, SentFor;
    if e.Arrive? {
      NoIdentity(e.packet, s.packetDurationMs);
      if e.packet.payload != [] {
        IdentityOfSent(s, e.blockPosition, e.packet);
      }
    }
  }

  lemma StepKeepsHonest(w: World, e: Event, s: Stream)
    requires WorldInv(w) && w.q.Shaped() && Honest(w, s) && HonestEvent(s, w, e)
    ensures WorldInv(Step(w, e)) && Honest(Step(w, e), s)
  {
    hide WorldInv, Honest;
    HonestDuration(w, s);
    HonestEventIsNumbered(s, w, e);
    StepKeepsWorld(w, e);
    match e
    case Arrive(p, position, now) => ArrivingKeepsHonest(w, p, position, now, s);
    case Poll(now) => PollingKeepsHonest(w, now, s);
  }

  lemma HonestDuration(w: World, s: Stream)
    requires Honest(w, s)
    ensures w.q.packetDurationMs == s.packetDurationMs
  {}

  ghost predicate HonestRun(s: Stream, events: seq<Event>) {
    forall n :: 0 <= n < |events| ==> HonestEvent(s, Run(Begin(s.packetDurationMs), events[..n]), events[n])
  }

  lemma {:induction false} HonestRunKeeps(s: Stream, events: seq<Event>)
    requires HonestRun(s, events)
    ensures WorldInv(Run(Begin(s.packetDurationMs), events)) && Honest(Run(Begin(s.packetDurationMs), events), s)
  {
    hide WorldInv, HonestEvent;
    if events == [] {
      BeginInv(s.packetDurationMs);
    } else {
      var n := |events| - 1;
      assert forall k :: 0 <= k < n ==> events[..n][..k] == events[..k];
      HonestRunKeeps(s, events[..n]);
      StepKeepsHonest(Run(Begin(s.packetDurationMs), events[..n]), events[n], s);
    }
  }

  // Frames have come out in strictly increasing stream order; every frame that came out carries the bytes pushed under its
  // number; a loss was reported only where fewer than four of the block's six shards had arrived; and every passed block
  // came out whole or was never heard of.
  ghost predicate AsSent(w: World, s: Stream) {
    (forall i, j :: 0 <= i < j < |w.emitted| ==> w.emitted[i].position < w.emitted[j].position) &&
    (forall i :: 0 <= i < |w.emitted| ==>
      var e := w.emitted[i];
      match e.frame
      case Encoded(payload) => e.position < |s.frames| && payload == s.frames[e.position]
      case Missing => |e.arrived| < DATA_SHARDS && e.position % DATA_SHARDS !in e.arrived) &&
    (w.q.initialized ==>
      forall position :: w.start <= position < w.oldest && position % DATA_SHARDS == 0 ==> Settlement(w, position))
  }

  lemma HonestIsAsSent(w: World, s: Stream)
    requires WorldInv(w) && Honest(w, s)
    ensures AsSent(w, s)
  {
    hide Inv, Numbering, Tracked, HonestBlock;
    forall i | 0 <= i < |w.emitted|
      ensures Judged(w.emitted[i]) && HonestEmission(w.emitted[i], s)
    {}
  }

  // For any stream and any loss, duplication and reordering within the window, at every point of every run.
  lemma DeliveredAsSent(s: Stream, events: seq<Event>)
    requires HonestRun(s, events)
    ensures AsSent(Run(Begin(s.packetDurationMs), events), s)
  {
    hide WorldInv, Honest, AsSent, HonestRun;
    HonestRunKeeps(s, events);
    HonestIsAsSent(Run(Begin(s.packetDurationMs), events), s);
  }
}
