/** What one call does to the receiving queue, said without the functions that do it: when a frame comes out, when a loss is
    reported, when a block is given up on, when the lateness flag moves, and which packets are refused. */
module QueueEffects {

  import opened Wrappers
  import opened AudioFec
  import opened Protocol
  import opened QueueModel
  import opened QueueInvariant
  import opened Delivery

  // A later block is queued, and either no late packet is remembered or the head block has been kept for longer than the
  // playing time of a block and ten milliseconds.
  ghost predicate Overdue(q: Queue, now: nat) {
    |q.blocks| > 1 && (!q.receivedOutOfOrder || now - q.blocks[0].queueTime > (4 * q.packetDurationMs + 10) * 1_000_000)
  }

  // The next frame of the head block is not there.
  ghost predicate HeadLacks(q: Queue)
    requires q.Shaped()
  {
    q.blocks != [] && q.blocks[0].dataShards[q.blocks[0].nextDataIndex].None?
  }

  ghost predicate GivenUp(q: Queue) {
    q.blocks != [] && q.blocks[0].allowDiscontinuity
  }

  // Settling gives up on the head block exactly when its next frame is absent and it is overdue.
  lemma SettlingGivesUp(q: Queue, now: nat)
    requires Inv(q)
    ensures q.Shaped()
    ensures GivenUp(Settled(q, now)) <==> GivenUp(q) || (HeadLacks(q) && Overdue(q, now))
  {
    hide BlockInv, Window, IsBefore16;
    InvShaped(q);
    if q.blocks != [] {
      NextBeforeHead(q);
      ResyncFacts(q);
      if Ready(q) {
        ReadyHeadIsOldest(q);
      }
    }
  }

  // ---------- A dequeue ----------

  // The next frame of the head block comes out when it is there. When it is not, a loss is reported exactly when the block has
  // been given up on, which happens exactly when it is overdue.
  lemma PollIsExact(q: Queue, now: nat)
    requires Inv(q)
    ensures q.Shaped()
    ensures
      var (r, frame) := DequeueReady(q, now);
      if q.blocks == [] then r == q && frame.None?
      else
        var head := q.blocks[0];
        match head.dataShards[head.nextDataIndex]
        case Some(shard) => frame == Some(Encoded(shard))
        case None => frame == if head.allowDiscontinuity || Overdue(q, now) then Some(Missing) else None
    ensures
      var r := DequeueReady(q, now).0;
      r.receivedOutOfOrder == q.receivedOutOfOrder && r.lastOutOfOrder == q.lastOutOfOrder &&
      (q.blocks != [] && (DequeueReady(q, now).1.None? || q.blocks[0].nextDataIndex < 3) ==>
        (GivenUp(r) <==> GivenUp(q) || (HeadLacks(q) && Overdue(q, now)))) &&
      (r.synchronizing <==> q.synchronizing && !(DequeueReady(q, now).1.Some? && q.blocks != [] && q.blocks[0].nextDataIndex == 3))
  {
    hide BlockInv, Window, IsBefore16, Wrap16, Overdue, Settled, Advance, OnlyHeadInProgress;
    InvShaped(q);
    SettlingGivesUp(q, now);
    SettledFacts(q, now);
    SettledState(q, now);
    var s := Settled(q, now);
    if q.blocks != [] {
      assert s.blocks[0] == q.blocks[0].(allowDiscontinuity := s.blocks[0].allowDiscontinuity);
      HeadIsReady(s);
      AdvancedState(s);
    }
  }

  lemma SettledState(q: Queue, now: nat)
    requires q.Shaped()
    ensures
      var s := Settled(q, now);
      s == q.(blocks := s.blocks, next := s.next, oldest := s.oldest)
  {}

  lemma AdvancedState(q: Queue)
    requires q.Shaped() && q.blocks != []
    ensures
      var r := Advance(q);
      r.receivedOutOfOrder == q.receivedOutOfOrder && r.lastOutOfOrder == q.lastOutOfOrder &&
      (r.synchronizing <==> q.synchronizing && q.blocks[0].nextDataIndex != 3) &&
      (q.blocks[0].nextDataIndex < 3 ==> (GivenUp(r) <==> GivenUp(q)))
  {}

  lemma HeadIsReady(q: Queue)
    requires q.Shaped() && q.blocks != [] && q.next == Wrap16(q.blocks[0].Base() + q.blocks[0].nextDataIndex)
    ensures Ready(q) <==> GivenUp(q) || !HeadLacks(q)
  {}

  // ---------- Noticing late packets ----------

  // How far a lies after b in serial numbers.
  function Ahead(a: u16, b: u16): int {
    (a - b) % 0x1_0000
  }

  // Parity never moves the flag. An audio packet from before the oldest block raises it once a block has been finished; any
  // other lowers it exactly when the oldest number has come to lie before the late one that is remembered.
  lemma LatenessIsExact(q: Queue, p: ParsedPacket, now: nat)
    requires q.Shaped()
    ensures
      var r := AddPacket(q, p, now).0;
      r.synchronizing == q.synchronizing &&
      match p
      case Fec(_, _) => r.receivedOutOfOrder == q.receivedOutOfOrder && r.lastOutOfOrder == q.lastOutOfOrder
      case Audio(rtp, _) =>
        if !q.synchronizing && Ahead(rtp.sequenceNumber, q.oldest) >= 0x8000
        then r.receivedOutOfOrder && r.lastOutOfOrder == rtp.sequenceNumber
        else r.lastOutOfOrder == q.lastOutOfOrder &&
             (r.receivedOutOfOrder <==> q.receivedOutOfOrder && Ahead(q.oldest, q.lastOutOfOrder) < 0x8000)
  {
    hide AcceptShard, Place, NoteLateness, BlockIdentity, IsBefore16, Wrap16;
    NoteKeepsBlocks(q, p);
    NotingIsExact(q, p);
    match BlockIdentity(p, q.packetDurationMs)
    case Err(_) =>
    case Ok((header, blockSize)) =>
      if q.initialized && !IsBefore16(header.baseSequenceNumber, q.oldest) {
        match EnsureBlock(q.blocks, header, blockSize, now)
        case Err(_) =>
        case Ok((blocks, i)) => AcceptingKeepsFlag(NoteLateness(q, p).(blocks := blocks), i, p, now);
      }
  }

  lemma NotingIsExact(q: Queue, p: ParsedPacket)
    ensures
      var r := NoteLateness(q, p);
      match p
      case Fec(_, _) => r == q
      case Audio(rtp, _) =>
        r == if !q.synchronizing && Ahead(rtp.sequenceNumber, q.oldest) >= 0x8000
             then q.(receivedOutOfOrder := true, lastOutOfOrder := rtp.sequenceNumber)
             else q.(receivedOutOfOrder := q.receivedOutOfOrder && Ahead(q.oldest, q.lastOutOfOrder) < 0x8000)
  {}

  lemma AcceptingKeepsFlag(q: Queue, i: nat, p: ParsedPacket, now: nat)
    requires q.Shaped() && i < |q.blocks|
    ensures
      var r := AcceptShard(q, i, p, now).0;
      r == q.(blocks := r.blocks, next := r.next, oldest := r.oldest)
  {
    hide Settled, Wrap16, Positions, Restored, RecoveryError, FirstLength;
    if !q.blocks[i].fullyReassembled {
      match StoreShard(q.blocks[i], p)
      case Err(_) =>
      case Ok(None) =>
      case Ok(Some(stored)) =>
        match CompleteBlock(stored)
        case Err(_) =>
        case Ok(block) => SettledState(q.(blocks := q.blocks[i := block]), now);
    }
  }

  // ---------- What a packet claims, and whether it is refused ----------

  function ClaimedBase(p: ParsedPacket): u16 {
    match p
    case Audio(rtp, _) => rtp.sequenceNumber - rtp.sequenceNumber % 4
    case Fec(fec, _) => fec.baseSequenceNumber
  }

  function ClaimedTimestamp(p: ParsedPacket, packetDurationMs: u32): u32 {
    match p
    case Audio(rtp, _) => (rtp.timestamp - rtp.sequenceNumber % 4 * packetDurationMs) % 0x1_0000_0000
    case Fec(fec, _) => fec.baseTimestamp
  }

  function ClaimedType(p: ParsedPacket): nat {
    match p
    case Audio(rtp, _) => rtp.packetType
    case Fec(fec, _) => fec.payloadType
  }

  function ClaimedSource(p: ParsedPacket): u32 {
    match p
    case Audio(rtp, _) => rtp.ssrc
    case Fec(fec, _) => fec.ssrc
  }

  ghost predicate WellFormed(p: ParsedPacket) {
    p.payload != [] &&
    (p.Fec? ==> p.fec.baseSequenceNumber % 4 == 0 && p.fec.fecShardIndex < 2 && p.fec.payloadType == RTP_PAYLOAD_TYPE_AUDIO)
  }

  // The packet is for a block that is still of interest.
  ghost predicate Wanted(q: Queue, p: ParsedPacket) {
    WellFormed(p) && q.initialized && Ahead(ClaimedBase(p), q.oldest) < 0x8000
  }

  ghost predicate Agrees(b: FecBlock, p: ParsedPacket, packetDurationMs: u32) {
    b.blockSize == |p.payload| && b.header.payloadType == ClaimedType(p) &&
    b.header.baseTimestamp == ClaimedTimestamp(p, packetDurationMs) && b.header.ssrc == ClaimedSource(p)
  }

  ghost predicate Disagreeing(q: Queue, p: ParsedPacket) {
    Wanted(q, p) &&
    exists i :: 0 <= i < |q.blocks| && q.blocks[i].Base() == ClaimedBase(p) && !Agrees(q.blocks[i], p, q.packetDurationMs)
  }

  ghost predicate Missized(q: Queue, p: ParsedPacket) {
    Wanted(q, p) &&
    exists i :: 0 <= i < |q.blocks| && q.blocks[i].Base() == ClaimedBase(p) && q.blocks[i].blockSize != |p.payload|
  }

  lemma IdentityIsClaimed(p: ParsedPacket, packetDurationMs: u32)
    ensures BlockIdentity(p, packetDurationMs).Ok? <==> WellFormed(p)
    ensures WellFormed(p) ==>
      var (header, blockSize) := BlockIdentity(p, packetDurationMs).value;
      blockSize == |p.payload| && header.baseSequenceNumber == ClaimedBase(p) && header.payloadType == ClaimedType(p) &&
      header.baseTimestamp == ClaimedTimestamp(p, packetDurationMs) && header.ssrc == ClaimedSource(p)
    ensures !WellFormed(p) ==>
      BlockIdentity(p, packetDurationMs) == Err(if p.Audio? then EmptyAudioPayload else InvalidFecHeader)
  {
    if p.Audio? {
      var offset := p.rtp.sequenceNumber % 4;
      assert Wrap16(p.rtp.sequenceNumber - p.rtp.sequenceNumber / DATA_SHARDS * DATA_SHARDS) == offset;
      TimestampOfBase(p.rtp.timestamp, offset * packetDurationMs);
    }
  }

  lemma TimestampOfBase(timestamp: u32, elapsed: nat)
    ensures Wrap32(timestamp - Wrap32(elapsed)) == (timestamp - elapsed) % 0x1_0000_0000
  {}

  // Blocks lie in serial order, so the place of a base is where its block is, if it is queued at all.
  lemma PlaceIsExact(q: Queue, base: u16)
    requires Inv(q) && Ahead(base, q.oldest) < 0x8000
    ensures
      var i := Place(q.blocks, base);
      forall j :: 0 <= j < |q.blocks| && q.blocks[j].Base() == base ==> i == j
  {
    hide BlockInv, OnlyHeadInProgress, Place;
    var i := Place(q.blocks, base);
    forall j | 0 <= j < |q.blocks| && q.blocks[j].Base() == base
      ensures i == j
    {
      if i < j {
        BeforeByOffset(base, q.blocks[i].Base(), q.oldest);
      }
    }
  }

  // A packet is refused exactly for its own form, or for disagreeing with the block it names.
  lemma RefusalIsExact(q: Queue, p: ParsedPacket, now: nat)
    requires Inv(q)
    ensures
      var (r, result) := AddPacket(q, p, now);
      (result.Ok? <==> WellFormed(p) && !Disagreeing(q, p)) &&
      (result == Err(EmptyAudioPayload) <==> p.Audio? && !WellFormed(p)) &&
      (result == Err(InvalidFecHeader) <==> p.Fec? && !WellFormed(p)) &&
      (result == Err(BlockSizeMismatch) <==> Missized(q, p))
    // The block of the very first packet is dropped, and so is a packet from before the oldest block.
    ensures
      var r := AddPacket(q, p, now).0;
      (!q.initialized && WellFormed(p) ==>
        r.initialized && r.blocks == [] && r.oldest == r.next == (ClaimedBase(p) + 4) % 0x1_0000) &&
      (q.initialized && !Wanted(q, p) ==> r == q.(receivedOutOfOrder := r.receivedOutOfOrder, lastOutOfOrder := r.lastOutOfOrder))
  {
    hide Wrap16, BlockInv, Window, OnlyHeadInProgress, Place, BlockIdentity, AcceptShard, NoteLateness, WellFormed;
    InvShaped(q);
    NoteKeepsBlocks(q, p);
    NotingKeepsInv(q, p);
    IdentityIsClaimed(p, q.packetDurationMs);
    NextBase(ClaimedBase(p));
    if WellFormed(p) && q.initialized {
      IdentityFacts(p, q.packetDurationMs);
      BeforeOldest(ClaimedBase(p), q.oldest);
      DistanceIsAhead(ClaimedBase(p), q.oldest);
      var (header, blockSize) := BlockIdentity(p, q.packetDurationMs).value;
      if Wanted(q, p) {
        PlaceIsExact(q, ClaimedBase(p));
        if EnsureBlock(q.blocks, header, blockSize, now).Ok? {
          var noted := NoteLateness(q, p);
          PlacingKeepsInv(noted, header, blockSize, now);
          var (blocks, i) := EnsureBlock(q.blocks, header, blockSize, now).value;
          AcceptingKeepsInv(noted.(blocks := blocks), i, p, now);
        }
      }
    }
  }

  lemma DistanceIsAhead(a: u16, b: u16)
    ensures Wrap16(a - b) == Ahead(a, b)
  {}

  lemma NextBase(base: u16)
    ensures Wrap16(base + DATA_SHARDS) == (base + 4) % 0x1_0000
  {}

  // ---------- What an accepted packet does ----------

  // Frames first, then parity.
  function Shards(b: FecBlock): seq<Shard> {
    b.dataShards + b.fecShards
  }

  // The packet brings a shard that its block can use.
  ghost predicate Brings(earlier: FecBlock, p: ParsedPacket)
    requires earlier.Shaped()
  {
    !earlier.fullyReassembled && ShardNumber(p) < SHARDS && Shards(earlier)[ShardNumber(p)].None?
  }

  // The block holds what it held and the packet's own shard; it becomes complete with the fourth shard, and otherwise nothing
  // else changes.
  ghost predicate Took(b: FecBlock, earlier: FecBlock, p: ParsedPacket)
    requires earlier.Shaped() && ShardNumber(p) < SHARDS
  {
    var own := ShardNumber(p);
    b == earlier.(dataShards := b.dataShards, fecShards := b.fecShards, fullyReassembled := b.fullyReassembled) && b.Shaped() &&
    if !Brings(earlier, p) then b == earlier
    else
      (forall j :: 0 <= j < SHARDS && Shards(earlier)[j].Some? ==> Shards(b)[j] == Shards(earlier)[j]) &&
      Shards(b)[own] == Some(p.payload) &&
      (b.fullyReassembled <==> |PresentSet(Shards(earlier)) + {own}| >= 4) &&
      (!b.fullyReassembled ==> forall j :: 0 <= j < SHARDS && j != own ==> Shards(b)[j] == Shards(earlier)[j])
  }

  lemma StoringTakes(block: FecBlock, p: ParsedPacket, packetDurationMs: u32)
    requires BlockInv(block) && !block.fullyReassembled && Belongs(p, block, packetDurationMs)
    ensures block.Shaped() && ShardNumber(p) < SHARDS && StoreShard(block, p).Ok?
    ensures StoreShard(block, p).value.Some? <==> Brings(block, p)
    ensures Brings(block, p) ==>
      var stored := StoreShard(block, p).value.value;
      Pending(stored) && Shards(stored) == Shards(block)[ShardNumber(p) := Some(p.payload)] &&
      stored == block.(dataShards := stored.dataShards, fecShards := stored.fecShards)
  {
    hide Positions;
    InvBlockShaped(block);
    IdentityFacts(p, packetDurationMs);
    ShardNumberInBlock(p, packetDurationMs);
    StoringSucceeds(block, p, packetDurationMs);
  }

  lemma CompletingTakes(stored: FecBlock)
    requires Pending(stored)
    ensures CompleteBlock(stored).Ok?
    ensures
      var b := CompleteBlock(stored).value;
      b == stored.(dataShards := b.dataShards, fullyReassembled := b.fullyReassembled) && BlockInv(b) && b.Shaped() &&
      (b.fullyReassembled <==> |PresentSet(Shards(stored))| >= 4) &&
      (!b.fullyReassembled ==> b == stored) &&
      forall j :: 0 <= j < SHARDS && Shards(stored)[j].Some? ==> Shards(b)[j] == Shards(stored)[j]
  {
    hide Positions, Restored, RecoveryError, FirstLength, PresentSet;
    CompletingSucceeds(stored);
    PresentCount(Shards(stored));
    PositionsConcat(stored.dataShards, stored.fecShards);
    InvBlockShaped(CompleteBlock(stored).value);
    if stored.Received() >= DATA_SHARDS {
      CountsAreEnough(stored.dataShards, stored.fecShards, stored.blockSize);
      RestoredKeepsReceived(stored.dataShards, stored.fecShards, stored.blockSize);
    } else {
      IncompleteKeepsShards(stored);
    }
  }

  lemma AcceptingTakes(block: FecBlock, p: ParsedPacket, packetDurationMs: u32)
    requires BlockInv(block) && !block.fullyReassembled && Belongs(p, block, packetDurationMs)
    ensures block.Shaped() && ShardNumber(p) < SHARDS && StoreShard(block, p).Ok?
    ensures StoreShard(block, p).value.Some? <==> Brings(block, p)
    ensures Brings(block, p) ==>
      var stored := StoreShard(block, p).value.value;
      stored.Shaped() && CompleteBlock(stored).Ok? && BlockInv(CompleteBlock(stored).value) &&
      Took(CompleteBlock(stored).value, block, p)
  {
    hide BlockInv, StoreShard, CompleteBlock, PresentSet, Belongs;
    StoringTakes(block, p, packetDurationMs);
    if Brings(block, p) {
      var stored := StoreShard(block, p).value.value;
      PendingShaped(stored);
      CompletingTakes(stored);
      PresentSetWith(Shards(block), ShardNumber(p), p.payload);
    }
  }

  lemma PendingShaped(stored: FecBlock)
    requires Pending(stored)
    ensures stored.Shaped()
  {}

  lemma PresentSetWith(shards: seq<Shard>, k: nat, payload: Bytes)
    requires k < |shards|
    ensures PresentSet(shards[k := Some(payload)]) == PresentSet(shards) + {k}
  {}

  // After taking in, the queue is settled: it gives up on the head exactly when that is overdue, and waits for the head.
  ghost predicate SettledAfter(r: Queue, earlier: Queue, now: nat)
    requires r.Shaped() && r.blocks != []
  {
    (GivenUp(r) <==> GivenUp(earlier) || (HeadLacks(r) && Overdue(r, now))) &&
    r.oldest == r.blocks[0].Base() && r.next == (r.blocks[0].Base() + r.blocks[0].nextDataIndex) % 0x1_0000
  }

  lemma AcceptIsExact(q: Queue, i: nat, p: ParsedPacket, now: nat)
    requires Inv(q) && i < |q.blocks| && Belongs(p, q.blocks[i], q.packetDurationMs)
    ensures q.Shaped() && ShardNumber(p) < SHARDS
    ensures
      var r := AcceptShard(q, i, p, now).0;
      if !Brings(q.blocks[i], p) then r == q
      else
        |r.blocks| == |q.blocks| && SettledAfter(r, q, now) &&
        r == q.(blocks := r.blocks, next := r.next, oldest := r.oldest) &&
        (forall j :: 0 < j < |r.blocks| && j != i ==> r.blocks[j] == q.blocks[j]) &&
        (i > 0 ==> r.blocks[0] == q.blocks[0].(allowDiscontinuity := r.blocks[0].allowDiscontinuity)) &&
        Took(r.blocks[i].(allowDiscontinuity := q.blocks[i].allowDiscontinuity), q.blocks[i], p)
  {
    hide BlockInv, StoreShard, CompleteBlock, Settled, Belongs, Took, Brings, Wrap16, Window, OnlyHeadInProgress, Overdue, HeadLacks;
    InvShaped(q);
    InvBlock(q, i);
    var block := q.blocks[i];
    ShardNumberOf(p, block, q.packetDurationMs);
    if block.fullyReassembled {
      NothingToBring(block, p);
    } else {
      AcceptingTakes(block, p, q.packetDurationMs);
      if Brings(block, p) {
        var b := CompleteBlock(StoreShard(block, p).value.value).value;
        TookInPlace(b, block, p);
        UpdatingKeepsInv(q, i, b);
        SettlingIsExact(q.(blocks := q.blocks[i := b]), now);
      }
    }
  }

  lemma NothingToBring(block: FecBlock, p: ParsedPacket)
    requires block.Shaped() && block.fullyReassembled
    ensures !Brings(block, p)
  {}

  lemma TookInPlace(b: FecBlock, earlier: FecBlock, p: ParsedPacket)
    requires earlier.Shaped() && ShardNumber(p) < SHARDS && Took(b, earlier, p)
    ensures b.Base() == earlier.Base() && b.nextDataIndex == earlier.nextDataIndex
    ensures b.allowDiscontinuity == earlier.allowDiscontinuity && b.(allowDiscontinuity := earlier.allowDiscontinuity) == b
  {}

  lemma SettlingIsExact(q: Queue, now: nat)
    requires Inv(q) && q.blocks != []
    ensures q.Shaped()
    ensures
      var s := Settled(q, now);
      SettledAfter(s, q, now) && s == q.(blocks := s.blocks, next := s.next, oldest := s.oldest) &&
      s.blocks == q.blocks[0 := q.blocks[0].(allowDiscontinuity := s.blocks[0].allowDiscontinuity)]
  {
    hide BlockInv, Settled, Window, OnlyHeadInProgress;
    InvShaped(q);
    SettledFacts(q, now);
    SettlingGivesUp(q, now);
    var s := Settled(q, now);
    assert q.blocks[0 := q.blocks[0]] == q.blocks;
    assert s.blocks[0] == q.blocks[0].(allowDiscontinuity := s.blocks[0].allowDiscontinuity);
  }

  // A block nothing has been stored in yet, for the block that the packet names.
  ghost predicate IsFresh(b: FecBlock, p: ParsedPacket, packetDurationMs: u32, now: nat) {
    b.Base() == ClaimedBase(p) && Agrees(b, p, packetDurationMs) && b.queueTime == now && b.nextDataIndex == 0 &&
    !b.fullyReassembled && !b.allowDiscontinuity && b.Shaped() && forall j :: 0 <= j < SHARDS ==> Shards(b)[j].None?
  }

  // The queue q with the block at index i taken in and one head given up on or not.
  ghost predicate Updated(r: Queue, q: Queue, i: nat) {
    i < |q.blocks| == |r.blocks| && r.packetDurationMs == q.packetDurationMs &&
    (forall j :: 0 < j < |r.blocks| && j != i ==> r.blocks[j] == q.blocks[j]) &&
    (i > 0 ==> r.blocks[0] == q.blocks[0].(allowDiscontinuity := r.blocks[0].allowDiscontinuity))
  }

  // A packet that is not refused, for a block that is still of interest: its block is in the queue already or is put in at i,
  // with this moment as its time; the block takes the packet's shard, and the queue is settled if there was something to take.
  lemma ArrivalIsExact(q: Queue, p: ParsedPacket, now: nat) returns (placed: Queue, i: nat)
    requires Inv(q) && Wanted(q, p) && !Disagreeing(q, p)
    ensures ShardNumber(p) < SHARDS && i < |placed.blocks| && placed.blocks[i].Base() == ClaimedBase(p) && Inv(placed)
    ensures
      placed.oldest == q.oldest && placed.next == q.next && placed.packetDurationMs == q.packetDurationMs &&
      placed.initialized && (GivenUp(placed) <==> GivenUp(q)) &&
      if exists j :: 0 <= j < |q.blocks| && q.blocks[j].Base() == ClaimedBase(p) then placed.blocks == q.blocks
      else
        i <= |q.blocks| && placed.blocks == q.blocks[..i] + [placed.blocks[i]] + q.blocks[i..] &&
        IsFresh(placed.blocks[i], p, q.packetDurationMs, now)
    ensures
      var (r, result) := AddPacket(q, p, now);
      Inv(r) && result.Ok? && Updated(r, placed, i) &&
      if !Brings(placed.blocks[i], p)
      then r.blocks == placed.blocks && r.oldest == q.oldest && r.next == q.next
      else
        SettledAfter(r, placed, now) &&
        Took(r.blocks[i].(allowDiscontinuity := placed.blocks[i].allowDiscontinuity), placed.blocks[i], p)
  {
    hide Inv, AddPacket, AcceptShard, BlockIdentity, NoteLateness, WellFormed, Brings, Took, SettledAfter, IsFresh;
    NoteKeepsBlocks(q, p);
    NotingKeepsInv(q, p);
    AddPacketFacts(q, p, now);
    ArrivalDivides(q, p, now);
    var (header, blockSize) := BlockIdentity(p, q.packetDurationMs).value;
    var noted, ensured := NoteLateness(q, p), EnsureBlock(q.blocks, header, blockSize, now).value;
    EnsuringIsExact(noted, p, now);
    placed, i := noted.(blocks := ensured.0), ensured.1;
    AcceptIsExact(placed, i, p, now);
  }

  lemma ArrivalDivides(q: Queue, p: ParsedPacket, now: nat)
    requires Inv(q) && Wanted(q, p) && !Disagreeing(q, p)
    ensures BlockIdentity(p, q.packetDurationMs).Ok? && q.Shaped()
    ensures
      var (header, blockSize) := BlockIdentity(p, q.packetDurationMs).value;
      var ensured := EnsureBlock(q.blocks, header, blockSize, now);
      ensured.Ok? && ensured.value.0[ensured.value.1].Base() == ClaimedBase(p) &&
      var placed := NoteLateness(q, p).(blocks := ensured.value.0);
      Inv(placed) && Belongs(p, ensured.value.0[ensured.value.1], q.packetDurationMs) &&
      AddPacket(q, p, now) == AcceptShard(placed, ensured.value.1, p, now) && AddPacket(q, p, now).1.Ok?
  {
    hide Wrap16, BlockInv, Window, OnlyHeadInProgress, Place, BlockIdentity, AcceptShard, NoteLateness, WellFormed, IsBefore16;
    InvShaped(q);
    NoteKeepsBlocks(q, p);
    NotingKeepsInv(q, p);
    IdentityIsClaimed(p, q.packetDurationMs);
    IdentityFacts(p, q.packetDurationMs);
    BeforeOldest(ClaimedBase(p), q.oldest);
    DistanceIsAhead(ClaimedBase(p), q.oldest);
    RefusalIsExact(q, p, now);
    var (header, blockSize) := BlockIdentity(p, q.packetDurationMs).value;
    PlaceIsExact(q, ClaimedBase(p));
    PlacingKeepsInv(NoteLateness(q, p), header, blockSize, now);
  }

  lemma EnsuringIsExact(q: Queue, p: ParsedPacket, now: nat)
    requires Inv(q) && Wanted(q, p) && BlockIdentity(p, q.packetDurationMs).Ok?
    requires
      var (header, blockSize) := BlockIdentity(p, q.packetDurationMs).value;
      EnsureBlock(q.blocks, header, blockSize, now).Ok?
    ensures
      var (header, blockSize) := BlockIdentity(p, q.packetDurationMs).value;
      var (blocks, i) := EnsureBlock(q.blocks, header, blockSize, now).value;
      (GivenUp(q.(blocks := blocks)) <==> GivenUp(q)) &&
      if exists j :: 0 <= j < |q.blocks| && q.blocks[j].Base() == ClaimedBase(p) then blocks == q.blocks
      else
        i <= |q.blocks| && blocks == q.blocks[..i] + [blocks[i]] + q.blocks[i..] &&
        IsFresh(blocks[i], p, q.packetDurationMs, now)
  {
    hide Wrap16, BlockInv, Window, Place, BlockIdentity, WellFormed;
    IdentityIsClaimed(p, q.packetDurationMs);
    PlaceIsExact(q, ClaimedBase(p));
    if GivenUp(q) {
      DistanceIsAhead(ClaimedBase(p), q.oldest);
      HeadIsNotOvertaken(q, ClaimedBase(p));
    }
  }
}
