/** The invariant of the receiving queue, kept by every packet, valid or not, and by every dequeue. */
module QueueInvariant {

  import opened Wrappers
  import opened AudioFec
  import opened Protocol
  import opened QueueModel

  ghost predicate BlockInv(b: FecBlock) {
    b.Shaped() && b.Base() % DATA_SHARDS == 0 && b.blockSize > 0 &&
    SizesAgree(b.dataShards, b.blockSize) && SizesAgree(b.fecShards, b.blockSize) &&
    (b.fullyReassembled <==> forall j :: 0 <= j < DATA_SHARDS ==> b.dataShards[j].Some?) &&
    (b.Received() >= DATA_SHARDS ==> b.fullyReassembled)
  }

  // The distance of a base sequence number from the oldest one that is still of interest.
  function Offset(q: Queue, base: u16): u16 {
    Wrap16(base - q.oldest)
  }

  function HeadIndex(q: Queue): nat {
    if q.blocks == [] then 0 else q.blocks[0].nextDataIndex
  }

  // Blocks lie in the half of the number space that starts at oldest, in strictly increasing order.
  ghost predicate Window(q: Queue) {
    (forall i :: 0 <= i < |q.blocks| ==> Offset(q, q.blocks[i].Base()) < 0x8000) &&
    (forall i, j :: 0 <= i < j < |q.blocks| ==> Offset(q, q.blocks[i].Base()) < Offset(q, q.blocks[j].Base()))
  }

  // Only the head block can be partly consumed or given up on, and then it is the oldest block.
  ghost predicate OnlyHeadInProgress(q: Queue) {
    (forall i :: 0 < i < |q.blocks| ==> q.blocks[i].nextDataIndex == 0 && !q.blocks[i].allowDiscontinuity) &&
    (q.blocks != [] && (q.blocks[0].nextDataIndex > 0 || q.blocks[0].allowDiscontinuity) ==> q.blocks[0].Base() == q.oldest)
  }

  ghost predicate Inv(q: Queue) {
    q.oldest % DATA_SHARDS == 0 && (!q.initialized ==> q.blocks == []) &&
    (forall i :: 0 <= i < |q.blocks| ==> BlockInv(q.blocks[i])) &&
    Window(q) && OnlyHeadInProgress(q) && q.next == Wrap16(q.oldest + HeadIndex(q))
  }

  lemma InvShaped(q: Queue)
    requires Inv(q)
    ensures q.Shaped()
  {}

  lemma InitialInv(packetDurationMs: u32)
    ensures Inv(NewQueue(packetDurationMs))
  {}

  // ---------- Serial numbers within the window ----------

  lemma BeforeOldest(a: u16, oldest: u16)
    ensures IsBefore16(a, oldest) <==> Wrap16(a - oldest) >= 0x8000
  {}

  lemma BeforeByOffset(a: u16, b: u16, oldest: u16)
    requires Wrap16(a - oldest) < 0x8000 && Wrap16(b - oldest) < 0x8000
    ensures IsBefore16(a, b) <==> Wrap16(a - oldest) < Wrap16(b - oldest)
    ensures a == b <==> Wrap16(a - oldest) == Wrap16(b - oldest)
  {}

  lemma OffsetFromLater(a: u16, b: u16, oldest: u16)
    requires Wrap16(a - oldest) <= Wrap16(b - oldest)
    ensures Wrap16(b - a) == Wrap16(b - oldest) - Wrap16(a - oldest)
  {}

  // ---------- Counting shards ----------

  lemma AllPositions(shards: seq<Shard>)
    ensures |Positions(shards, true)| == |shards| <==> forall i :: 0 <= i < |shards| ==> shards[i].Some?
  {
    PositionsPartition(shards);
    var missing := Positions(shards, false);
    if missing == [] {
      assert forall i :: 0 <= i < |shards| && shards[i].None? ==> i in missing;
    } else {
      assert shards[missing[0]].None?;
    }
  }

  lemma CountsAreEnough(data: seq<Shard>, parity: seq<Shard>, len: nat)
    requires |data| == DATA_SHARDS && |parity| == FEC_SHARDS && SizesAgree(data, len) && SizesAgree(parity, len)
    requires |Positions(data, true)| + |Positions(parity, true)| >= DATA_SHARDS
    ensures RecoveryError(data, parity).None? && FirstLength(data + parity) == Some(len)
    ensures Recoverable(data, parity, len)
  {
    hide FirstLength, Positions;
    PositionsPartition(data);
    FewPresent(parity);
    var i := SomePresent(data);
    assert (data + parity)[i].Some?;
    assert SizesAgree(data + parity, len);
    FirstLengthExists(data + parity, len, i);
  }

  // ---------- Storing and completing ----------

  // A packet that belongs to the block: right base and size.
  ghost predicate Belongs(p: ParsedPacket, block: FecBlock, packetDurationMs: u32) {
    var identity := BlockIdentity(p, packetDurationMs);
    identity.Ok? && identity.value.0.baseSequenceNumber == block.Base() && identity.value.1 == block.blockSize
  }

  lemma IdentityFacts(p: ParsedPacket, packetDurationMs: u32)
    requires BlockIdentity(p, packetDurationMs).Ok?
    ensures
      var (header, blockSize) := BlockIdentity(p, packetDurationMs).value;
      header.baseSequenceNumber % DATA_SHARDS == 0 && blockSize == |p.payload| > 0 &&
      (p.Audio? ==> Wrap16(p.rtp.sequenceNumber - header.baseSequenceNumber) < DATA_SHARDS) &&
      (p.Fec? ==> p.fec.fecShardIndex < FEC_SHARDS)
  {}

  // A block that has taken a shard but has not been completed yet.
  ghost predicate Pending(b: FecBlock) {
    b.Shaped() && b.Base() % DATA_SHARDS == 0 && b.blockSize > 0 && !b.fullyReassembled &&
    SizesAgree(b.dataShards, b.blockSize) && SizesAgree(b.fecShards, b.blockSize)
  }

  // Storing cannot hit the shard index checks.
  lemma StoringSucceeds(block: FecBlock, p: ParsedPacket, packetDurationMs: u32)
    requires BlockInv(block) && !block.fullyReassembled && Belongs(p, block, packetDurationMs)
    ensures StoreShard(block, p).Ok?
    ensures StoreShard(block, p).value.Some? ==> Pending(StoreShard(block, p).value.value)
  {
    hide Positions;
    IdentityFacts(p, packetDurationMs);
  }

  // Completing cannot fail, and changes nothing but the data shards and the flag.
  lemma CompletingSucceeds(stored: FecBlock)
    requires Pending(stored)
    ensures CompleteBlock(stored).Ok?
    ensures
      var b := CompleteBlock(stored).value;
      BlockInv(b) && b == stored.(dataShards := b.dataShards, fullyReassembled := b.fullyReassembled)
    ensures CompleteBlock(stored).value.fullyReassembled <==> stored.Received() >= DATA_SHARDS
  {
    hide Positions, Restored, RecoveryError, FirstLength;
    AllPositions(stored.dataShards);
    if stored.Received() >= DATA_SHARDS {
      CountsAreEnough(stored.dataShards, stored.fecShards, stored.blockSize);
    }
  }

  // ---------- Every operation keeps the invariant ----------

  lemma NotingKeepsInv(q: Queue, p: ParsedPacket)
    requires Inv(q)
    ensures Inv(NoteLateness(q, p))
  {
    hide NoteLateness, BlockInv, Wrap16;
    NoteKeepsBlocks(q, p);
  }

  // Sorted insertion at the position the source's loop finds.
  lemma InsertionKeepsWindow(q: Queue, added: FecBlock, i: nat)
    requires Window(q) && i <= |q.blocks| && Offset(q, added.Base()) < 0x8000
    requires forall j :: 0 <= j < i ==> q.blocks[j].Base() != added.Base() && !IsBefore16(added.Base(), q.blocks[j].Base())
    requires i < |q.blocks| ==> q.blocks[i].Base() != added.Base() && IsBefore16(added.Base(), q.blocks[i].Base())
    ensures Window(q.(blocks := q.blocks[..i] + [added] + q.blocks[i..]))
  {
    hide Wrap16, IsBefore16;
    var base := added.Base();
    forall j | 0 <= j < |q.blocks|
      ensures j < i ==> Offset(q, q.blocks[j].Base()) < Offset(q, base)
      ensures j >= i ==> Offset(q, base) < Offset(q, q.blocks[j].Base())
    {
      BeforeByOffset(base, q.blocks[j].Base(), q.oldest);
      if j > i {
        BeforeByOffset(base, q.blocks[i].Base(), q.oldest);
      }
    }
    InsertionSorted(Offsets(q), Offset(q, base), i);
    var r := q.(blocks := q.blocks[..i] + [added] + q.blocks[i..]);
    InsertedOffsets(q, added, i);
    WindowByOffsets(r);
  }

  lemma InsertedOffsets(q: Queue, added: FecBlock, i: nat)
    requires i <= |q.blocks|
    ensures Offsets(q.(blocks := q.blocks[..i] + [added] + q.blocks[i..])) ==
      Offsets(q)[..i] + [Offset(q, added.Base())] + Offsets(q)[i..]
  {
    hide Wrap16;
  }

  lemma WindowByOffsets(q: Queue)
    requires forall j :: 0 <= j < |Offsets(q)| ==> Offsets(q)[j] < 0x8000
    requires forall j, k :: 0 <= j < k < |Offsets(q)| ==> Offsets(q)[j] < Offsets(q)[k]
    ensures Window(q)
  {
    hide Wrap16;
    assert forall j :: 0 <= j < |q.blocks| ==> Offsets(q)[j] == Offset(q, q.blocks[j].Base());
  }

  function Offsets(q: Queue): seq<u16> {
    seq(|q.blocks|, j requires 0 <= j < |q.blocks| => Offset(q, q.blocks[j].Base()))
  }

  lemma InsertionSorted(xs: seq<u16>, x: u16, i: nat)
    requires i <= |xs|
    requires forall j, k :: 0 <= j < k < |xs| ==> xs[j] < xs[k]
    requires forall j :: 0 <= j < i ==> xs[j] < x
    requires forall j :: i <= j < |xs| ==> x < xs[j]
    ensures
      var ys := xs[..i] + [x] + xs[i..];
      forall j, k :: 0 <= j < k < |ys| ==> ys[j] < ys[k]
  {}

  lemma PlacingKeepsInv(q: Queue, header: AudioFecHeader, blockSize: nat, now: nat)
    requires Inv(q) && q.initialized && header.baseSequenceNumber % DATA_SHARDS == 0 && blockSize > 0
    requires !IsBefore16(header.baseSequenceNumber, q.oldest)
    requires EnsureBlock(q.blocks, header, blockSize, now).Ok?
    ensures
      var (blocks, i) := EnsureBlock(q.blocks, header, blockSize, now).value;
      Inv(q.(blocks := blocks)) && blocks[i].Base() == header.baseSequenceNumber && blocks[i].blockSize == blockSize
  {
    hide Wrap16, IsBefore16, BlockInv, Window;
    var base, i := header.baseSequenceNumber, Place(q.blocks, header.baseSequenceNumber);
    if i < |q.blocks| && q.blocks[i].Base() == base {
    } else {
      BeforeOldest(base, q.oldest);
      EmptyBlockInv(header, blockSize, now);
      var added := NewBlock(header, blockSize, now);
      InsertionKeepsWindow(q, added, i);
      if q.blocks != [] && (q.blocks[0].nextDataIndex > 0 || q.blocks[0].allowDiscontinuity) {
        HeadIsNotOvertaken(q, base);
      }
      InsertionKeepsRest(q, added, i);
    }
  }

  lemma InsertionKeepsRest(q: Queue, added: FecBlock, i: nat)
    requires Inv(q) && q.initialized && i <= |q.blocks| && BlockInv(added)
    requires added.nextDataIndex == 0 && !added.allowDiscontinuity
    requires Window(q.(blocks := q.blocks[..i] + [added] + q.blocks[i..]))
    requires q.blocks != [] && (q.blocks[0].nextDataIndex > 0 || q.blocks[0].allowDiscontinuity) ==> i > 0
    ensures Inv(q.(blocks := q.blocks[..i] + [added] + q.blocks[i..]))
  {
    hide Wrap16, BlockInv, Window;
    var r := q.(blocks := q.blocks[..i] + [added] + q.blocks[i..]);
    forall j | 0 <= j < |r.blocks|
      ensures r.blocks[j] == if j < i then q.blocks[j] else if j == i then added else q.blocks[j - 1]
    {}
  }

  // A head block in progress is the oldest block, so nothing that is still accepted goes before it.
  lemma HeadIsNotOvertaken(q: Queue, base: u16)
    requires Inv(q) && q.blocks != [] && Offset(q, base) < 0x8000
    requires q.blocks[0].nextDataIndex > 0 || q.blocks[0].allowDiscontinuity
    ensures !IsBefore16(base, q.blocks[0].Base())
  {
    BeforeByOffset(base, q.oldest, q.oldest);
  }

  lemma EmptyBlockInv(header: AudioFecHeader, blockSize: nat, now: nat)
    requires header.baseSequenceNumber % DATA_SHARDS == 0 && blockSize > 0
    ensures BlockInv(NewBlock(header, blockSize, now))
  {}

  lemma UpdatingKeepsInv(q: Queue, i: nat, b: FecBlock)
    requires Inv(q) && i < |q.blocks| && BlockInv(b) && b.Base() == q.blocks[i].Base()
    requires b.nextDataIndex == q.blocks[i].nextDataIndex && b.allowDiscontinuity == q.blocks[i].allowDiscontinuity
    ensures Inv(q.(blocks := q.blocks[i := b]))
  {
    hide Wrap16, BlockInv;
    var r := q.(blocks := q.blocks[i := b]);
    assert forall j :: 0 <= j < |q.blocks| ==> Offset(r, r.blocks[j].Base()) == Offset(q, q.blocks[j].Base());
  }

  lemma CancelIndex(base: u16, oldest: u16, index: nat)
    ensures Wrap16(base + index) == Wrap16(oldest + index) <==> base == oldest
  {}

  // The next number is before the head exactly when the head is not the oldest block.
  lemma NextBeforeHead(q: Queue)
    requires Inv(q) && q.blocks != []
    ensures IsBefore16(q.next, q.blocks[0].Base()) <==> q.blocks[0].Base() != q.oldest
    ensures q.blocks[0].Base() != q.oldest ==> q.blocks[0].nextDataIndex == 0 && q.next == q.oldest
  {
    var base := q.blocks[0].Base();
    BeforeByOffset(q.oldest, base, q.oldest);
    if base == q.oldest {
      assert q.blocks[0].Shaped();
      BeforeByOffset(q.next, base, q.oldest);
    }
  }

  lemma ResyncFacts(q: Queue)
    requires Inv(q) && q.blocks != []
    ensures
      var r, head := Resynchronized(q), q.blocks[0];
      Inv(r) && r == q.(next := r.next, oldest := r.oldest) &&
      r.oldest == head.Base() && r.next == Wrap16(head.Base() + head.nextDataIndex)
  {
    hide IsBefore16, BlockInv, Window, Wrap16;
    NextBeforeHead(q);
    BaseIsAligned(q.blocks[0]);
    WrapOfSerial(q.blocks[0].Base());
    if q.blocks[0].Base() != q.oldest {
      MovingKeepsWindow(q, Resynchronized(q));
    }
  }

  lemma WrapOfSerial(x: u16)
    ensures Wrap16(x) == x
  {}

  // Moving oldest up to the head block keeps the window.
  lemma MovingKeepsWindow(q: Queue, r: Queue)
    requires Window(q) && q.blocks != [] && r.blocks == q.blocks && r.oldest == q.blocks[0].Base()
    ensures Window(r)
  {
    hide Wrap16;
    forall i | 0 <= i < |q.blocks|
      ensures Offset(r, q.blocks[i].Base()) == Offset(q, q.blocks[i].Base()) - Offset(q, q.blocks[0].Base())
    {
      OffsetFromLater(q.blocks[0].Base(), q.blocks[i].Base(), q.oldest);
    }
  }

  // A ready queue has its oldest block at the head.
  lemma ReadyHeadIsOldest(q: Queue)
    requires Inv(q) && Ready(q)
    ensures q.blocks != [] && q.blocks[0].Base() == q.oldest
  {
    hide Wrap16;
    CancelIndex(q.blocks[0].Base(), q.oldest, q.blocks[0].nextDataIndex);
  }

  // The head block is given up on only when its next frame is missing and too few shards of it are there.
  lemma SettledFacts(q: Queue, now: nat)
    requires Inv(q)
    ensures Inv(Settled(q, now))
    ensures q.blocks == [] ==> Settled(q, now) == q
    ensures q.blocks != [] ==>
      var s, head := Settled(q, now), q.blocks[0];
      s.oldest == head.Base() && s.next == Wrap16(head.Base() + head.nextDataIndex) &&
      s == q.(next := s.next, oldest := s.oldest, blocks := s.blocks) &&
      (s.blocks == q.blocks ||
       (s.blocks == q.blocks[0 := head.(allowDiscontinuity := true)] && !head.allowDiscontinuity &&
        head.dataShards[head.nextDataIndex].None?))
  {
    hide IsBefore16;
    if q.blocks != [] {
      var head, r := q.blocks[0], Resynchronized(q);
      NextBeforeHead(q);
      ResyncFacts(q);
      if Ready(q) {
        ReadyHeadIsOldest(q);
      } else if HandleMissing(q, now) != r {
        UpdatingAllowKeepsInv(r);
      }
    }
  }

  lemma UpdatingAllowKeepsInv(q: Queue)
    requires Inv(q) && q.blocks != [] && q.blocks[0].Base() == q.oldest
    ensures Inv(q.(blocks := q.blocks[0 := q.blocks[0].(allowDiscontinuity := true)]))
  {
    hide Wrap16, Positions;
    var b := q.blocks[0].(allowDiscontinuity := true);
    var r := q.(blocks := q.blocks[0 := b]);
    assert BlockInv(b);
    hide BlockInv;
    assert forall j :: 0 <= j < |q.blocks| ==> Offset(r, r.blocks[j].Base()) == Offset(q, q.blocks[j].Base());
  }

  lemma OffsetOfOldest(oldest: u16)
    ensures Wrap16(oldest - oldest) == 0
  {}

  lemma OffsetAfterBlock(b: u16, oldest: u16)
    requires b % DATA_SHARDS == 0 == oldest % DATA_SHARDS && 0 < Wrap16(b - oldest) < 0x8000
    ensures Wrap16(b - Wrap16(oldest + DATA_SHARDS)) == Wrap16(b - oldest) - DATA_SHARDS
    ensures Wrap16(oldest + DATA_SHARDS) % DATA_SHARDS == 0
  {}

  lemma NextStep(base: u16, index: nat)
    ensures Wrap16(Wrap16(base + index) + 1) == Wrap16(base + index + 1)
    ensures Wrap16(base + DATA_SHARDS) % DATA_SHARDS == base % DATA_SHARDS
    ensures Wrap16(Wrap16(base + DATA_SHARDS)) == Wrap16(base + DATA_SHARDS)
  {}

  lemma AdvancingKeepsInv(q: Queue)
    requires Inv(q) && q.blocks != [] && q.blocks[0].Base() == q.oldest
    ensures Inv(Advance(q))
  {
    hide Wrap16, BlockInv;
    InvShaped(q);
    var head, r := q.blocks[0], Advance(q);
    NextStep(head.Base(), head.nextDataIndex);
    AdvancedHead(head);
    if head.nextDataIndex + 1 == DATA_SHARDS {
      FinishingKeepsInv(q, r.next);
    } else {
      assert forall j :: 0 <= j < |q.blocks| ==> Offset(r, r.blocks[j].Base()) == Offset(q, q.blocks[j].Base());
    }
  }

  lemma FinishingKeepsInv(q: Queue, next: u16)
    requires Inv(q) && q.blocks != [] && q.blocks[0].Base() == q.oldest
    requires next == Wrap16(q.oldest + DATA_SHARDS)
    ensures Inv(q.(blocks := q.blocks[1..], next := next, oldest := next, synchronizing := false))
  {
    hide Wrap16, BlockInv;
    var r := q.(blocks := q.blocks[1..], next := next, oldest := next, synchronizing := false);
    NextStep(q.oldest, 0);
    OffsetOfOldest(q.oldest);
    forall i | 0 <= i < |r.blocks|
      ensures Offset(r, r.blocks[i].Base()) == Offset(q, q.blocks[i + 1].Base()) - DATA_SHARDS
    {
      BaseIsAligned(q.blocks[i + 1]);
      assert Offset(q, q.blocks[0].Base()) < Offset(q, q.blocks[i + 1].Base());
      OffsetAfterBlock(q.blocks[i + 1].Base(), q.oldest);
    }
    assert Window(r);
    assert forall i :: 0 <= i < |r.blocks| ==> r.blocks[i] == q.blocks[i + 1];
  }

  lemma BaseIsAligned(b: FecBlock)
    requires BlockInv(b)
    ensures b.Base() % DATA_SHARDS == 0 && b.nextDataIndex < DATA_SHARDS
  {}

  lemma AdvancedHead(b: FecBlock)
    requires BlockInv(b)
    ensures b.nextDataIndex + 1 < DATA_SHARDS ==> BlockInv(b.(nextDataIndex := b.nextDataIndex + 1))
  {}

  function Outstanding(blocks: seq<FecBlock>): int {
    if blocks == [] then 0 else Outstanding(blocks[..|blocks| - 1]) + DATA_SHARDS - blocks[|blocks| - 1].nextDataIndex
  }

  // How dequeuing divides: settle, then advance if there is a frame.
  lemma PollDivides(q: Queue, now: nat)
    requires Inv(q)
    ensures q.Shaped()
    ensures
      var (r, frame) := DequeueReady(q, now);
      (frame.None? ==> r == Settled(q, now)) &&
      (frame.Some? ==> Settled(q, now).blocks != [] && r == Advance(Settled(q, now)))
  {
    hide Advance, Settled, BlockInv;
    InvShaped(q);
  }

  // A frame comes from the head block, which becomes the oldest block, at the position its index names: delivery is in
  // order within a block and only whole blocks are ever passed over. A loss is reported only for a shard that is absent
  // from a block with fewer than four shards.
  lemma PollYields(q: Queue, now: nat)
    requires Inv(q) && q.Shaped() && DequeueReady(q, now).1.Some?
    ensures
      var (r, frame) := DequeueReady(q, now);
      Inv(r) && r.initialized == q.initialized && q.blocks != [] &&
      var head := q.blocks[0];
      (frame.value.Encoded? ==> head.dataShards[head.nextDataIndex] == Some(frame.value.payload)) &&
      (frame.value.Missing? ==> head.dataShards[head.nextDataIndex].None? && head.Received() < DATA_SHARDS) &&
      r.next == Wrap16(head.Base() + head.nextDataIndex + 1) &&
      (if head.nextDataIndex == 3 then r.blocks == q.blocks[1..] && r.oldest == Wrap16(head.Base() + DATA_SHARDS)
       else |r.blocks| == |q.blocks| && r.blocks[1..] == q.blocks[1..] && r.oldest == head.Base() &&
            r.blocks[0] == head.(nextDataIndex := head.nextDataIndex + 1, allowDiscontinuity := r.blocks[0].allowDiscontinuity))
  {
    hide Wrap16, IsBefore16, Settled, Positions, Window, OnlyHeadInProgress;
    SettledFacts(q, now);
    PollDivides(q, now);
    var s, head := Settled(q, now), q.blocks[0];
    AdvancingKeepsInv(s);
    NextStep(head.Base(), head.nextDataIndex);
    assert s.blocks[0] == head.(allowDiscontinuity := s.blocks[0].allowDiscontinuity);
    assert BlockInv(head);
  }

  // When no frame comes out, at most one block is queued, or a late packet was noticed and the head is recent.
  lemma PollWaits(q: Queue, now: nat)
    requires Inv(q) && q.Shaped() && DequeueReady(q, now).1.None?
    ensures
      var r := DequeueReady(q, now).0;
      Inv(r) && r.initialized == q.initialized &&
      r.blocks == q.blocks && (q.blocks == [] ==> r == q) && (q.blocks != [] ==> r.oldest == q.blocks[0].Base()) &&
      (|q.blocks| <= 1 || (q.receivedOutOfOrder && now - q.blocks[0].queueTime <= RecoveryWindow(q.packetDurationMs)))
  {
    hide Wrap16, IsBefore16, Positions, Advance, BlockInv, Window, OnlyHeadInProgress;
    SettledFacts(q, now);
    var s := Settled(q, now);
    if q.blocks != [] {
      var head := q.blocks[0];
      assert s.blocks[0] == head.(allowDiscontinuity := s.blocks[0].allowDiscontinuity);
    }
  }

  lemma AcceptingKeepsInv(q: Queue, i: nat, p: ParsedPacket, now: nat)
    requires Inv(q) && i < |q.blocks| && Belongs(p, q.blocks[i], q.packetDurationMs)
    ensures Inv(AcceptShard(q, i, p, now).0) && AcceptShard(q, i, p, now).1.Ok?
    ensures AcceptShard(q, i, p, now).0.initialized == q.initialized
  {
    hide Positions, CompleteBlock, StoreShard, Settled;
    InvShaped(q);
    if !q.blocks[i].fullyReassembled {
      StoringSucceeds(q.blocks[i], p, q.packetDurationMs);
      var stored := StoreShard(q.blocks[i], p).value;
      if stored.Some? {
        StoredKeepsPlace(q.blocks[i], p);
        CompletingSucceeds(stored.value);
        var block := CompleteBlock(stored.value).value;
        UpdatingKeepsInv(q, i, block);
        SettledFacts(q.(blocks := q.blocks[i := block]), now);
      }
    }
  }

  lemma StoredKeepsPlace(block: FecBlock, p: ParsedPacket)
    requires block.Shaped() && StoreShard(block, p).Ok? && StoreShard(block, p).value.Some?
    ensures
      var stored := StoreShard(block, p).value.value;
      stored == block.(dataShards := stored.dataShards, fecShards := stored.fecShards)
  {}

  // Every packet, valid or not, keeps the invariant. A rejected packet leaves the blocks and the position as they were,
  // and rejection is only ever for the packet's own form or for disagreement with its block: the shard index checks and
  // the recovery error are never reached.
  lemma AddPacketFacts(q: Queue, p: ParsedPacket, now: nat)
    requires Inv(q)
    ensures
      var (r, result) := AddPacket(q, p, now);
      Inv(r) && (q.initialized ==> r.initialized) &&
      (result.Err? ==>
        r == q.(lastOutOfOrder := r.lastOutOfOrder, receivedOutOfOrder := r.receivedOutOfOrder) &&
        result.error in {EmptyAudioPayload, InvalidFecHeader, BlockSizeMismatch, InconsistentIdentity})
  {
    hide Wrap16, IsBefore16, BlockInv, Window, OnlyHeadInProgress, Place, BlockIdentity, AcceptShard, NoteLateness;
    InvShaped(q);
    NoteKeepsBlocks(q, p);
    NotingKeepsInv(q, p);
    var noted, identity := NoteLateness(q, p), BlockIdentity(p, q.packetDurationMs);
    IdentityErrors(p, q.packetDurationMs);
    if identity.Ok? {
      var (header, blockSize) := identity.value;
      IdentityFacts(p, q.packetDurationMs);
      if !q.initialized {
        NextStep(header.baseSequenceNumber, 0);
        StartInv(noted, Wrap16(header.baseSequenceNumber + DATA_SHARDS));
      } else if !IsBefore16(header.baseSequenceNumber, q.oldest) && EnsureBlock(q.blocks, header, blockSize, now).Ok? {
        PlacingKeepsInv(noted, header, blockSize, now);
        var (blocks, i) := EnsureBlock(q.blocks, header, blockSize, now).value;
        AcceptingKeepsInv(noted.(blocks := blocks), i, p, now);
      }
    }
  }

  lemma IdentityErrors(p: ParsedPacket, packetDurationMs: u32)
    ensures
      var identity := BlockIdentity(p, packetDurationMs);
      identity.Err? ==> identity.error in {EmptyAudioPayload, InvalidFecHeader}
  {}

  lemma StartInv(q: Queue, next: u16)
    requires Inv(q) && !q.initialized && next % DATA_SHARDS == 0
    ensures Inv(q.(initialized := true, next := next, oldest := next))
  {}

  // ---------- The packet duration never changes ----------

  lemma SettledKeepsDuration(q: Queue, now: nat)
    requires q.Shaped()
    ensures Settled(q, now).packetDurationMs == q.packetDurationMs
  {}

  lemma DequeueKeepsDuration(q: Queue, now: nat)
    requires q.Shaped()
    ensures DequeueReady(q, now).0.packetDurationMs == q.packetDurationMs
  {
    hide Settled, Wrap16;
    SettledShaped(q, now);
    SettledKeepsDuration(q, now);
  }

  lemma SettledShaped(q: Queue, now: nat)
    requires q.Shaped()
    ensures Settled(q, now).Shaped()
  {}

  lemma AcceptKeepsDuration(q: Queue, i: nat, p: ParsedPacket, now: nat)
    requires q.Shaped() && i < |q.blocks|
    ensures AcceptShard(q, i, p, now).0.packetDurationMs == q.packetDurationMs
  {
    hide Settled, Wrap16, Positions, Restored, RecoveryError, FirstLength;
    if !q.blocks[i].fullyReassembled {
      match StoreShard(q.blocks[i], p)
      case Err(_) =>
      case Ok(None) =>
      case Ok(Some(stored)) =>
        match CompleteBlock(stored)
        case Err(_) =>
        case Ok(block) => SettledKeepsDuration(q.(blocks := q.blocks[i := block]), now);
    }
  }

  lemma AddPacketKeepsDuration(q: Queue, p: ParsedPacket, now: nat)
    requires q.Shaped()
    ensures AddPacket(q, p, now).0.packetDurationMs == q.packetDurationMs
  {
    hide AcceptShard, Place, NoteLateness, BlockIdentity, IsBefore16, Wrap16;
    NoteKeepsBlocks(q, p);
    match BlockIdentity(p, q.packetDurationMs)
    case Err(_) =>
    case Ok((header, blockSize)) =>
      if q.initialized && !IsBefore16(header.baseSequenceNumber, q.oldest) {
        match EnsureBlock(q.blocks, header, blockSize, now)
        case Err(_) =>
        case Ok((blocks, i)) =>
          AcceptKeepsDuration(NoteLateness(q, p).(blocks := blocks), i, p, now);
      }
  }
}
