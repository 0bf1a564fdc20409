/** Whole runs of the receiving queue, with positions that do not wrap. For every run on arbitrary packets: frames come out in
    strictly increasing order, a loss is reported only for a block of which fewer than four shards had arrived, and every
    block that has been passed was either delivered completely or had not been heard of at all. */
module Delivery {

  import opened AudioFec
  import opened Protocol
  import opened QueueModel
  import opened QueueInvariant

  const SHARDS: nat := DATA_SHARDS + FEC_SHARDS

  // A dequeued frame, its position in the stream, and the shards of its block that had arrived by then.
  datatype Emission = Emission(position: nat, frame: Frame, arrived: set<nat>)

  // start and oldest are the unwrapped positions of the first block of interest at the beginning and now. arrived holds the
  // accepted packets, as block position and shard number.
  datatype World = World(q: Queue, start: nat, oldest: nat, arrived: set<(nat, nat)>, emitted: seq<Emission>)

  // For an arriving packet, blockPosition is where its block lies in the stream; it fixes the numbering at the first packet.
  datatype Event =
    | Arrive(packet: ParsedPacket, blockPosition: nat, now: nat)
    | Poll(now: nat)

  function Position(w: World, b: FecBlock): nat {
    w.oldest + Offset(w.q, b.Base())
  }

  function NextPosition(w: World): nat {
    w.oldest + HeadIndex(w.q)
  }

  function ShardNumber(p: ParsedPacket): nat {
    match p
    case Audio(rtp, _) => rtp.sequenceNumber % DATA_SHARDS
    case Fec(fec, _) => DATA_SHARDS + fec.fecShardIndex
  }

  function EmittedPositions(es: seq<Emission>): set<nat> {
    set e | e in es :: e.position
  }

  function ArrivedShards(w: World, position: nat): set<nat> {
    set k | 0 <= k < SHARDS && (position, k) in w.arrived
  }

  // ---------- Runs ----------

  // The world around a queue that has moved on by itself.
  function Moved(w: World, q: Queue): World {
    w.(q := q, oldest := w.oldest + Wrap16(q.oldest - w.q.oldest))
  }

  predicate IsRecorded(w: World, p: ParsedPacket) {
    w.q.initialized && BlockIdentity(p, w.q.packetDurationMs).Ok? &&
    !IsBefore16(BlockIdentity(p, w.q.packetDurationMs).value.0.baseSequenceNumber, w.q.oldest)
  }

  function Recorded(w: World, p: ParsedPacket): (nat, nat)
    requires IsRecorded(w, p)
  {
    (w.oldest + Offset(w.q, BlockIdentity(p, w.q.packetDurationMs).value.0.baseSequenceNumber), ShardNumber(p))
  }

  ghost function Arrived(w: World, p: ParsedPacket, blockPosition: nat, now: nat): World
    requires w.q.Shaped()
  {
    var (q, result) := AddPacket(w.q, p, now);
    if w.q.initialized then
      Moved(w, q).(arrived := w.arrived + if result.Ok? && IsRecorded(w, p) then {Recorded(w, p)} else {})
    else if q.initialized then World(q, blockPosition + DATA_SHARDS, blockPosition + DATA_SHARDS, {}, [])
    else w.(q := q)
  }

  function Polled(w: World, now: nat): World
    requires w.q.Shaped()
  {
    var (q, frame) := DequeueReady(w.q, now);
    var r := Moved(w, q);
    if frame.None? || w.q.blocks == [] then r else
      var base := Position(w, w.q.blocks[0]);
      r.(emitted := w.emitted + [Emission(base + w.q.blocks[0].nextDataIndex, frame.value, ArrivedShards(w, base))])
  }

  ghost function Step(w: World, e: Event): (r: World)
    requires w.q.Shaped()
    ensures r.q.Shaped()
  {
    match e
    case Arrive(p, blockPosition, now) => Arrived(w, p, blockPosition, now)
    case Poll(now) => Polled(w, now)
  }

  ghost function Run(w: World, events: seq<Event>): (r: World)
    requires w.q.Shaped()
    ensures r.q.Shaped()
  {
    if events == [] then w else Step(Run(w, events[..|events| - 1]), events[|events| - 1])
  }

  function Begin(packetDurationMs: u32): World {
    World(NewQueue(packetDurationMs), 0, 0, {}, [])
  }

  // The position given with a packet agrees with the packet's own block.
  ghost predicate Numbered(e: Event, packetDurationMs: u32) {
    e.Arrive? && BlockIdentity(e.packet, packetDurationMs).Ok? ==>
      Wrap16(e.blockPosition) == BlockIdentity(e.packet, packetDurationMs).value.0.baseSequenceNumber
  }

  // ---------- The invariant of runs ----------

  predicate HasShard(b: FecBlock, k: nat) {
    k < |b.dataShards + b.fecShards| && (b.dataShards + b.fecShards)[k].Some?
  }

  ghost predicate Numbering(w: World) {
    w.start % DATA_SHARDS == 0 == w.oldest % DATA_SHARDS && w.start <= w.oldest && Wrap16(w.oldest) == w.q.oldest
  }

  ghost predicate Queued(w: World, position: nat, k: nat) {
    exists i :: 0 <= i < |w.q.blocks| && Position(w, w.q.blocks[i]) == position &&
      (w.q.blocks[i].fullyReassembled || HasShard(w.q.blocks[i], k))
  }

  // Every accepted shard is still queued, unless its block has been passed.
  ghost predicate Tracked(w: World) {
    forall position, k :: (position, k) in w.arrived ==>
      position % DATA_SHARDS == 0 && k < SHARDS && (position < w.oldest || Queued(w, position, k))
  }

  predicate Came(w: World, p: nat) {
    p in EmittedPositions(w.emitted)
  }

  // All four frames of a block came out, or none did and nothing of the block had ever been accepted.
  ghost predicate Settlement(w: World, position: nat) {
    (Came(w, position) && Came(w, position + 1) && Came(w, position + 2) && Came(w, position + 3)) ||
    (!Came(w, position) && !Came(w, position + 1) && !Came(w, position + 2) && !Came(w, position + 3) &&
     forall k :: (position, k) !in w.arrived)
  }

  ghost predicate Accounted(w: World) {
    (forall position :: w.start <= position < w.oldest && position % DATA_SHARDS == 0 ==> Settlement(w, position)) &&
    (forall p :: w.oldest <= p < NextPosition(w) ==> Came(w, p))
  }

  ghost predicate Ordered(w: World) {
    (forall i, j :: 0 <= i < j < |w.emitted| ==> w.emitted[i].position < w.emitted[j].position) &&
    (forall i :: 0 <= i < |w.emitted| ==> w.start <= w.emitted[i].position < NextPosition(w))
  }

  // A loss is reported only where fewer than four shards, and not the frame's own, had arrived.
  ghost predicate Judged(e: Emission) {
    e.frame.Missing? ==> |e.arrived| < DATA_SHARDS && e.position % DATA_SHARDS !in e.arrived
  }

  ghost predicate WorldInv(w: World) {
    Inv(w.q) &&
    if w.q.initialized then
      Numbering(w) && Tracked(w) && Accounted(w) && Ordered(w) && forall i :: 0 <= i < |w.emitted| ==> Judged(w.emitted[i])
    else w.arrived == {} && w.emitted == []
  }

  lemma BeginInv(packetDurationMs: u32)
    ensures WorldInv(Begin(packetDurationMs))
  {
    InitialInv(packetDurationMs);
  }

  // ---------- Positions ----------

  lemma WrapDistance(a: u16, b: u16)
    ensures Wrap16(a + Wrap16(b - a)) == b
    ensures a == b ==> Wrap16(b - a) == 0
  {}

  lemma AlignedDistance(a: u16, b: u16)
    requires a % DATA_SHARDS == 0 == b % DATA_SHARDS
    ensures Wrap16(b - a) % DATA_SHARDS == 0
  {}

  // Moving oldest forward to a block, or past it, leaves the positions of that block and of all later ones as they were.
  lemma PositionIsStable(w: World, q: Queue, b: FecBlock)
    requires Wrap16(q.oldest - w.q.oldest) <= Offset(w.q, b.Base())
    ensures Position(Moved(w, q), b) == Position(w, b)
  {
    OffsetFromLater(q.oldest, b.Base(), w.q.oldest);
  }

  lemma MovedNumbering(w: World, q: Queue)
    requires Numbering(w) && w.q.oldest % DATA_SHARDS == 0 == q.oldest % DATA_SHARDS
    ensures Numbering(Moved(w, q))
  {
    hide Wrap16;
    WrapDistance(w.q.oldest, q.oldest);
    WrapSum(w.oldest, Wrap16(q.oldest - w.q.oldest));
    AlignedDistance(w.q.oldest, q.oldest);
  }

  lemma PositionsAscend(w: World, i: nat, j: nat)
    requires Inv(w.q) && i <= j < |w.q.blocks|
    ensures Position(w, w.q.blocks[i]) <= Position(w, w.q.blocks[j])
    ensures i < j ==> Position(w, w.q.blocks[i]) < Position(w, w.q.blocks[j])
  {
    hide BlockInv;
  }

  lemma PositionAligned(w: World, i: nat)
    requires Inv(w.q) && Numbering(w) && i < |w.q.blocks|
    ensures Position(w, w.q.blocks[i]) % DATA_SHARDS == 0
  {
    hide Wrap16, Inv;
    InvParts(w.q);
    InvBlock(w.q, i);
    BaseIsAligned(w.q.blocks[i]);
    AlignedDistance(w.q.oldest, w.q.blocks[i].Base());
    AlignedSum(w.oldest, Offset(w.q, w.q.blocks[i].Base()));
  }

  lemma InvBlock(q: Queue, i: nat)
    requires Inv(q) && i < |q.blocks|
    ensures BlockInv(q.blocks[i])
  {
    hide BlockInv;
  }

  lemma AlignedSum(a: int, b: int)
    requires a % DATA_SHARDS == 0 == b % DATA_SHARDS
    ensures (a + b) % DATA_SHARDS == 0
  {}

  // ---------- Settling: oldest moves to the head block ----------

  // The same blocks at the same positions; only the head may have been given up on.
  ghost predicate SameBlocks(w: World, r: World) {
    |r.q.blocks| == |w.q.blocks| &&
    forall i :: 0 <= i < |r.q.blocks| ==>
      r.q.blocks[i] == w.q.blocks[i].(allowDiscontinuity := r.q.blocks[i].allowDiscontinuity) &&
      Position(r, r.q.blocks[i]) == Position(w, w.q.blocks[i])
  }

  // The head block moved to, with no block before it.
  lemma MovingToHead(w: World, q: Queue)
    requires WorldInv(w) && w.q.initialized && Inv(q) && q.initialized
    requires |q.blocks| == |w.q.blocks| > 0 && q.oldest == w.q.blocks[0].Base()
    requires forall i :: 0 <= i < |q.blocks| ==>
      q.blocks[i] == w.q.blocks[i].(allowDiscontinuity := q.blocks[i].allowDiscontinuity)
    ensures WorldInv(Moved(w, q))
    ensures Moved(w, q).oldest == Position(w, w.q.blocks[0])
    ensures SameBlocks(w, Moved(w, q))
  {
    hide Wrap16, Inv;
    var r := Moved(w, q);
    InvParts(w.q);
    InvParts(q);
    MovedNumbering(w, q);
    forall i | 0 <= i < |q.blocks|
      ensures Position(r, q.blocks[i]) == Position(w, w.q.blocks[i])
    {
      PositionsAscend(w, 0, i);
      PositionIsStable(w, q, q.blocks[i]);
    }
    OffsetOfOldest(q.oldest);
    MovingKeepsTracked(w, r);
    MovingKeepsAccounted(w, r);
    if HeadIndex(w.q) > 0 {
      HeadProgress(w);
    }
  }

  lemma InvParts(q: Queue)
    requires Inv(q)
    ensures q.Shaped() && q.oldest % DATA_SHARDS == 0 && (!q.initialized ==> q.blocks == [])
    ensures Window(q) && OnlyHeadInProgress(q)
  {}

  // A partly consumed head block is already the oldest one.
  lemma HeadProgress(w: World)
    requires Inv(w.q) && HeadIndex(w.q) > 0
    ensures w.oldest == Position(w, w.q.blocks[0])
  {
    OffsetOfOldest(w.q.oldest);
  }

  // r is w with oldest moved up to the head block and the blocks themselves in place.
  ghost predicate AtHead(w: World, r: World) {
    r == w.(q := r.q, oldest := r.oldest) && w.q.blocks != [] && SameBlocks(w, r) &&
    r.oldest == Position(w, w.q.blocks[0])
  }

  lemma MovingKeepsTracked(w: World, r: World)
    requires Inv(w.q) && Tracked(w) && AtHead(w, r)
    ensures Tracked(r)
  {
    hide Inv, Position;
    forall position, k | (position, k) in r.arrived
      ensures position % DATA_SHARDS == 0 && k < SHARDS && (position < r.oldest || Queued(r, position, k))
    {
      if position >= r.oldest {
        HeadIsNotEarlier(w);
        assert Queued(w, position, k);
      }
    }
  }

  lemma HeadIsNotEarlier(w: World)
    requires w.q.blocks != []
    ensures w.oldest <= Position(w, w.q.blocks[0])
  {}

  lemma MovingKeepsAccounted(w: World, r: World)
    requires Inv(w.q) && Numbering(w) && Tracked(w) && Accounted(w) && Ordered(w) && AtHead(w, r)
    ensures Accounted(r)
  {
    hide Inv, Position;
    HeadIsNotEarlier(w);
    forall position | r.start <= position < r.oldest && position % DATA_SHARDS == 0
      ensures Settlement(r, position)
    {
      if position < w.oldest {
        assert Settlement(w, position);
      } else {
        PassedBlockIsUnknown(w, position);
      }
      SameSettlement(w, r, position);
    }
    forall p | r.oldest <= p < NextPosition(r)
      ensures Came(r, p)
    {
      HeadProgress(w);
      assert Came(w, p);
    }
  }

  lemma NotYetCame(w: World, p: nat)
    requires Ordered(w) && NextPosition(w) <= p
    ensures !Came(w, p)
  {}

  lemma SameSettlement(w: World, r: World, position: nat)
    requires Settlement(w, position) && r.emitted == w.emitted && r.arrived == w.arrived
    ensures Settlement(r, position)
  {}

  // Nothing lies between oldest and the head block.
  lemma PassedBlockIsUnknown(w: World, position: nat)
    requires Inv(w.q) && Numbering(w) && Tracked(w) && Ordered(w) && w.q.blocks != []
    requires w.oldest <= position < Position(w, w.q.blocks[0]) && position % DATA_SHARDS == 0
    ensures Settlement(w, position)
  {
    hide Inv, Position;
    if HeadIndex(w.q) > 0 {
      HeadProgress(w);
    }
    NotYetCame(w, position);
    NotYetCame(w, position + 1);
    NotYetCame(w, position + 2);
    NotYetCame(w, position + 3);
    forall k
      ensures (position, k) !in w.arrived
    {
      if (position, k) in w.arrived {
        assert Queued(w, position, k);
        var i :| 0 <= i < |w.q.blocks| && Position(w, w.q.blocks[i]) == position &&
          (w.q.blocks[i].fullyReassembled || HasShard(w.q.blocks[i], k));
        PositionsAscend(w, 0, i);
      }
    }
  }

  lemma SettlingKeepsWorld(w: World, now: nat)
    requires WorldInv(w) && w.q.initialized
    ensures w.q.Shaped()
    ensures WorldInv(Moved(w, Settled(w.q, now)))
    ensures w.q.blocks == [] ==> Moved(w, Settled(w.q, now)) == w
    ensures w.q.blocks != [] ==>
      Moved(w, Settled(w.q, now)).oldest == Position(w, w.q.blocks[0]) &&
      Settled(w.q, now).oldest == w.q.blocks[0].Base()
    ensures SameBlocks(w, Moved(w, Settled(w.q, now)))
  {
    hide Wrap16, Inv, Settled, Numbering, Tracked, Accounted, Ordered;
    InvParts(w.q);
    SettledFacts(w.q, now);
    var s := Settled(w.q, now);
    if w.q.blocks == [] {
      WrapDistance(w.q.oldest, w.q.oldest);
    } else {
      assert forall i :: 0 <= i < |s.blocks| ==>
        s.blocks[i] == w.q.blocks[i].(allowDiscontinuity := s.blocks[i].allowDiscontinuity);
      MovingToHead(w, s);
    }
  }

  // ---------- Advancing: one frame leaves the head block ----------

  function WithEmission(w: World, q: Queue, e: Emission): World {
    Moved(w, q).(emitted := w.emitted + [e])
  }

  lemma EmissionAdded(w: World, q: Queue, e: Emission)
    ensures forall p :: Came(WithEmission(w, q, e), p) <==> Came(w, p) || p == e.position
  {
    var r := WithEmission(w, q, e);
    assert e == r.emitted[|w.emitted|];
    assert forall x :: x in r.emitted <==> x in w.emitted || x == e;
  }

  // The head block is the oldest block.
  ghost predicate HeadIsOldest(w: World) {
    w.q.initialized && Inv(w.q) && w.q.blocks != [] && w.q.blocks[0].Base() == w.q.oldest
  }

  // The block of w that is block i after the head has advanced.
  function Survivor(w: World, i: nat): nat
    requires w.q.blocks != []
  {
    if w.q.blocks[0].nextDataIndex == 3 then i + 1 else i
  }

  lemma AdvancedQueue(w: World)
    requires HeadIsOldest(w) && Numbering(w)
    ensures w.q.Shaped()
    ensures
      var q, r, index := Advance(w.q), Moved(w, Advance(w.q)), w.q.blocks[0].nextDataIndex;
      Inv(q) && q.initialized && Numbering(r) && index < DATA_SHARDS && Position(w, w.q.blocks[0]) == w.oldest &&
      r.oldest == (if index == 3 then w.oldest + DATA_SHARDS else w.oldest) &&
      |q.blocks| == (if index == 3 then |w.q.blocks| - 1 else |w.q.blocks|)
    ensures NextPosition(Moved(w, Advance(w.q))) == NextPosition(w) + 1
    ensures forall i :: 0 <= i < |Advance(w.q).blocks| ==>
      Advance(w.q).blocks[i] ==
        w.q.blocks[Survivor(w, i)].(nextDataIndex := Advance(w.q).blocks[i].nextDataIndex) &&
      Position(Moved(w, Advance(w.q)), Advance(w.q).blocks[i]) == Position(w, w.q.blocks[Survivor(w, i)])
  {
    hide Wrap16, BlockInv;
    InvShaped(w.q);
    AdvancingKeepsInv(w.q);
    BaseIsAligned(w.q.blocks[0]);
    MovedNumbering(w, Advance(w.q));
    AdvanceDistance(w.q.oldest);
    OffsetOfOldest(w.q.oldest);
    forall i | 0 <= i < |Advance(w.q).blocks|
      ensures Position(Moved(w, Advance(w.q)), Advance(w.q).blocks[i]) == Position(w, w.q.blocks[Survivor(w, i)])
    {
      AdvancedPosition(w, i);
    }
  }

  lemma AdvancedPosition(w: World, i: nat)
    requires HeadIsOldest(w) && Numbering(w) && w.q.Shaped() && i < |Advance(w.q).blocks|
    ensures Position(Moved(w, Advance(w.q)), Advance(w.q).blocks[i]) == Position(w, w.q.blocks[Survivor(w, i)])
  {
    hide Wrap16, BlockInv, Window, OnlyHeadInProgress;
    AdvanceDistance(w.q.oldest);
    if w.q.blocks[0].nextDataIndex == 3 {
      PositionsAscend(w, 0, i + 1);
      PositionAligned(w, i + 1);
      OffsetOfOldest(w.q.oldest);
      PositionIsStable(w, Advance(w.q), w.q.blocks[i + 1]);
    }
  }

  lemma AdvanceDistance(oldest: u16)
    ensures Wrap16(Wrap16(oldest + DATA_SHARDS) - oldest) == DATA_SHARDS && Wrap16(oldest - oldest) == 0
  {}

  lemma AdvancingKeepsWorld(w: World, e: Emission)
    requires WorldInv(w) && HeadIsOldest(w) && Judged(e) && e.position == NextPosition(w)
    ensures w.q.Shaped()
    ensures WorldInv(WithEmission(w, Advance(w.q), e))
  {
    hide Wrap16, Inv, Advance;
    AdvancedQueue(w);
    EmissionAdded(w, Advance(w.q), e);
    AdvancingKeepsTracked(w, e);
    AdvancingKeepsAccounted(w, e);
  }

  lemma AdvancingKeepsTracked(w: World, e: Emission)
    requires HeadIsOldest(w) && Numbering(w) && Tracked(w) && w.q.Shaped()
    ensures Tracked(WithEmission(w, Advance(w.q), e))
  {
    hide Inv, Advance, Wrap16;
    AdvancedQueue(w);
    var r, index := WithEmission(w, Advance(w.q), e), w.q.blocks[0].nextDataIndex;
    forall position, k | (position, k) in r.arrived
      ensures position % DATA_SHARDS == 0 && k < SHARDS && (position < r.oldest || Queued(r, position, k))
    {
      if position >= r.oldest {
        assert Queued(w, position, k);
        var i :| 0 <= i < |w.q.blocks| && Position(w, w.q.blocks[i]) == position &&
          (w.q.blocks[i].fullyReassembled || HasShard(w.q.blocks[i], k));
        var j := if index == 3 then i - 1 else i;
        assert j >= 0 && Position(r, r.q.blocks[j]) == position;
      }
    }
  }

  lemma AdvancingKeepsAccounted(w: World, e: Emission)
    requires HeadIsOldest(w) && Numbering(w) && Accounted(w) && Ordered(w) && w.q.Shaped()
    requires e.position == NextPosition(w)
    ensures Accounted(WithEmission(w, Advance(w.q), e))
  {
    hide Inv, Advance, Wrap16;
    AdvancedQueue(w);
    EmissionAdded(w, Advance(w.q), e);
    var r, index := WithEmission(w, Advance(w.q), e), w.q.blocks[0].nextDataIndex;
    forall position | r.start <= position < r.oldest && position % DATA_SHARDS == 0
      ensures Settlement(r, position)
    {
      if position < w.oldest {
        assert Settlement(w, position);
      } else {
        assert position == w.oldest && index == 3;
        assert Came(w, w.oldest) && Came(w, w.oldest + 1) && Came(w, w.oldest + 2);
      }
    }
    forall p | r.oldest <= p < NextPosition(r)
      ensures Came(r, p)
    {
      assert p == e.position || Came(w, p);
    }
  }

  // ---------- Counting the shards that had arrived ----------

  function PresentSet(shards: seq<Shard>): set<nat> {
    set k | 0 <= k < |shards| && shards[k].Some?
  }

  lemma PresentSetStep(shards: seq<Shard>)
    requires shards != []
    ensures
      var n := |shards| - 1;
      PresentSet(shards) == PresentSet(shards[..n]) + (if shards[n].Some? then {n} else {}) &&
      n !in PresentSet(shards[..n])
  {}

  lemma {:induction false} PresentCount(shards: seq<Shard>)
    ensures |PresentSet(shards)| == |Positions(shards, true)|
  {
    if shards == [] {
    } else {
      PresentSetStep(shards);
      PresentCount(shards[..|shards| - 1]);
      hide PresentSet;
    }
  }

  lemma {:induction false} PositionsConcat(a: seq<Shard>, b: seq<Shard>)
    ensures |Positions(a + b, true)| == |Positions(a, true)| + |Positions(b, true)|
  {
    if b == [] {
      assert a + b == a;
    } else {
      assert (a + b)[..|a + b| - 1] == a + b[..|b| - 1];
      PositionsConcat(a, b[..|b| - 1]);
    }
  }

  lemma SubsetSize(a: set<nat>, b: set<nat>)
    requires a <= b
    ensures |a| <= |b|
  {
    assert b == a + (b - a);
  }

  // What had arrived of an incomplete queued block is stored in it.
  lemma ArrivedIsStored(w: World, i: nat)
    requires WorldInv(w) && w.q.initialized && i < |w.q.blocks| && !w.q.blocks[i].fullyReassembled
    ensures forall k :: k in ArrivedShards(w, Position(w, w.q.blocks[i])) ==> HasShard(w.q.blocks[i], k)
    ensures |ArrivedShards(w, Position(w, w.q.blocks[i]))| <= w.q.blocks[i].Received()
  {
    hide Inv, Wrap16, Positions;
    var b, base := w.q.blocks[i], Position(w, w.q.blocks[i]);
    forall k | k in ArrivedShards(w, base)
      ensures HasShard(b, k)
    {
      assert Queued(w, base, k);
      var j :| 0 <= j < |w.q.blocks| && Position(w, w.q.blocks[j]) == base &&
        (w.q.blocks[j].fullyReassembled || HasShard(w.q.blocks[j], k));
      PositionsAscend(w, if i < j then i else j, if i < j then j else i);
    }
    var shards := b.dataShards + b.fecShards;
    SubsetSize(ArrivedShards(w, base), PresentSet(shards));
    PresentCount(shards);
    PositionsConcat(b.dataShards, b.fecShards);
  }

  lemma HeadPosition(w: World)
    requires WorldInv(w) && w.q.initialized && w.q.blocks != []
    ensures Position(w, w.q.blocks[0]) % DATA_SHARDS == 0 && w.q.blocks[0].nextDataIndex < DATA_SHARDS
  {
    hide Wrap16, Tracked, Accounted, Ordered;
    assert BlockInv(w.q.blocks[0]);
    PositionAligned(w, 0);
  }

  lemma LossIsJudged(w: World, e: Emission)
    requires WorldInv(w) && w.q.initialized && w.q.blocks != [] && w.q.Shaped()
    requires
      var head := w.q.blocks[0];
      e.position == Position(w, head) + head.nextDataIndex && e.arrived == ArrivedShards(w, Position(w, head)) &&
      (e.frame.Missing? ==> head.dataShards[head.nextDataIndex].None? && head.Received() < DATA_SHARDS)
    ensures Judged(e)
  {
    hide Inv, Wrap16, Positions, WorldInv, ArrivedShards;
    WorldParts(w, 0);
    if e.frame.Missing? {
      var head := w.q.blocks[0];
      HeadPosition(w);
      ArrivedIsStored(w, 0);
      assert !HasShard(head, head.nextDataIndex);
    }
  }

  // ---------- Polling ----------

  lemma MovedTwice(w: World, s: Queue, t: Queue)
    requires Wrap16(s.oldest - w.q.oldest) + Wrap16(t.oldest - s.oldest) < 0x1_0000
    ensures Moved(Moved(w, s), t) == Moved(w, t)
  {
    hide Wrap16;
    WrapGaps(w.q.oldest, s.oldest);
    WrapGaps(s.oldest, t.oldest);
    WrapGaps(w.q.oldest, t.oldest);
  }

  lemma WrapGaps(a: u16, b: u16)
    ensures Wrap16(b - a) == if b >= a then b - a else b - a + 0x1_0000
  {}

  lemma PollingKeepsWorld(w: World, now: nat)
    requires WorldInv(w)
    ensures w.q.Shaped()
    ensures WorldInv(Polled(w, now)) && Polled(w, now).q.initialized == w.q.initialized
  {
    hide Wrap16, Inv, Settled, Advance, Numbering, Tracked, Accounted, Ordered;
    InvParts(w.q);
    PollDivides(w.q, now);
    var (q, frame) := DequeueReady(w.q, now);
    if frame.None? {
      PollWaits(w.q, now);
    } else {
      PollYields(w.q, now);
    }
    if w.q.blocks == [] {
      WrapDistance(w.q.oldest, w.q.oldest);
    } else {
      SettlingKeepsWorld(w, now);
      var s := Settled(w.q, now);
      if frame.Some? {
        var head := w.q.blocks[0];
        var e := Emission(Position(w, head) + head.nextDataIndex, frame.value, ArrivedShards(w, Position(w, head)));
        LossIsJudged(w, e);
        SettledFacts(w.q, now);
        var settled := Moved(w, s);
        AdvancingKeepsWorld(settled, e);
        PollDistance(w, s);
        MovedTwice(w, s, q);
        assert Polled(w, now) == WithEmission(settled, q, e);
      }
    }
  }

  lemma PollDistance(w: World, s: Queue)
    requires Inv(w.q) && Inv(s) && s.Shaped() && w.q.blocks != [] && s.blocks != []
    requires s.oldest == w.q.blocks[0].Base() == s.blocks[0].Base()
    ensures Wrap16(s.oldest - w.q.oldest) + Wrap16(Advance(s).oldest - s.oldest) < 0x1_0000
  {
    hide BlockInv;
    AdvanceDistance(s.oldest);
  }

  // ---------- Arriving ----------

  lemma SameWindowKeepsWorld(w: World, q: Queue)
    requires WorldInv(w) && w.q.initialized && Inv(q)
    requires q == w.q.(lastOutOfOrder := q.lastOutOfOrder, receivedOutOfOrder := q.receivedOutOfOrder)
    ensures WorldInv(w.(q := q)) && Moved(w, q) == w.(q := q)
  {
    hide Wrap16, Inv;
    var r := w.(q := q);
    WrapDistance(q.oldest, q.oldest);
    forall position, k | Queued(w, position, k)
      ensures Queued(r, position, k)
    {
      var i :| 0 <= i < |w.q.blocks| && Position(w, w.q.blocks[i]) == position &&
        (w.q.blocks[i].fullyReassembled || HasShard(w.q.blocks[i], k));
      assert Position(r, r.q.blocks[i]) == position;
    }
    assert forall position :: Settlement(w, position) ==> Settlement(r, position);
    assert forall p :: Came(w, p) ==> Came(r, p);
  }

  // A new block in the queue, wherever it is inserted, takes nothing away.
  lemma InsertingKeepsWorld(w: World, added: FecBlock, i: nat)
    requires WorldInv(w) && w.q.initialized && i <= |w.q.blocks| && added.nextDataIndex == 0
    requires HeadIndex(w.q) > 0 ==> i > 0
    requires Inv(w.q.(blocks := w.q.blocks[..i] + [added] + w.q.blocks[i..]))
    ensures WorldInv(w.(q := w.q.(blocks := w.q.blocks[..i] + [added] + w.q.blocks[i..])))
  {
    hide Wrap16, Inv;
    var r := w.(q := w.q.(blocks := w.q.blocks[..i] + [added] + w.q.blocks[i..]));
    assert HeadIndex(r.q) == HeadIndex(w.q);
    forall position, k | Queued(w, position, k)
      ensures Queued(r, position, k)
    {
      var j :| 0 <= j < |w.q.blocks| && Position(w, w.q.blocks[j]) == position &&
        (w.q.blocks[j].fullyReassembled || HasShard(w.q.blocks[j], k));
      var j' := if j < i then j else j + 1;
      assert r.q.blocks[j'] == w.q.blocks[j] && Position(r, r.q.blocks[j']) == position;
    }
    assert forall position :: Settlement(w, position) ==> Settlement(r, position);
    assert forall p :: Came(w, p) ==> Came(r, p);
  }

  // b is block i with shards added.
  ghost predicate Grows(b: FecBlock, earlier: FecBlock) {
    b.Base() == earlier.Base() && b.nextDataIndex == earlier.nextDataIndex && b.allowDiscontinuity == earlier.allowDiscontinuity &&
    (earlier.fullyReassembled ==> b.fullyReassembled) &&
    forall k :: HasShard(earlier, k) ==> b.fullyReassembled || HasShard(b, k)
  }

  function Grown(w: World, i: nat, b: FecBlock, k: nat): World
    requires i < |w.q.blocks|
  {
    w.(q := w.q.(blocks := w.q.blocks[i := b]), arrived := w.arrived + {(Position(w, w.q.blocks[i]), k)})
  }

  lemma GrowingKeepsTracked(w: World, i: nat, b: FecBlock, k: nat)
    requires Tracked(w) && i < |w.q.blocks| && Grows(b, w.q.blocks[i])
    requires Position(w, w.q.blocks[i]) % DATA_SHARDS == 0
    requires k < SHARDS && (b.fullyReassembled || HasShard(b, k))
    ensures Tracked(Grown(w, i, b, k))
  {
    hide Wrap16, HasShard;
    var r, base := Grown(w, i, b, k), Position(w, w.q.blocks[i]);
    assert r.q.blocks[i] == b && Position(r, b) == base;
    assert Queued(r, base, k);
    forall position, k' | Queued(w, position, k')
      ensures Queued(r, position, k')
    {
      var j :| 0 <= j < |w.q.blocks| && Position(w, w.q.blocks[j]) == position &&
        (w.q.blocks[j].fullyReassembled || HasShard(w.q.blocks[j], k'));
      assert Position(r, r.q.blocks[j]) == position;
    }
  }

  // Recording a shard of a block that has not been passed changes no settlement.
  lemma RecordingKeepsAccounted(w: World, r: World, base: nat, k: nat)
    requires Accounted(w) && w.oldest <= base
    requires r == w.(q := r.q, arrived := w.arrived + {(base, k)}) && HeadIndex(r.q) == HeadIndex(w.q)
    ensures Accounted(r)
  {
    forall position | r.start <= position < r.oldest && position % DATA_SHARDS == 0
      ensures Settlement(r, position)
    {
      assert Settlement(w, position);
    }
    assert forall p :: Came(w, p) ==> Came(r, p);
  }

  lemma GrowingKeepsWorld(w: World, i: nat, b: FecBlock, k: nat)
    requires WorldInv(w) && w.q.initialized && i < |w.q.blocks| && BlockInv(b) && Grows(b, w.q.blocks[i])
    requires k < SHARDS && (b.fullyReassembled || HasShard(b, k))
    ensures WorldInv(Grown(w, i, b, k))
  {
    hide Wrap16, Inv, BlockInv, Tracked, Accounted, Grows;
    GrowsInPlace(b, w.q.blocks[i]);
    UpdatingKeepsInv(w.q, i, b);
    PositionAligned(w, i);
    GrowingKeepsTracked(w, i, b, k);
    RecordingKeepsAccounted(w, Grown(w, i, b, k), Position(w, w.q.blocks[i]), k);
  }

  lemma GrowsInPlace(b: FecBlock, earlier: FecBlock)
    requires Grows(b, earlier)
    ensures b.Base() == earlier.Base() && b.nextDataIndex == earlier.nextDataIndex && b.allowDiscontinuity == earlier.allowDiscontinuity
  {}

  // ---------- A packet meets its block ----------

  lemma ShardNumberInBlock(p: ParsedPacket, packetDurationMs: u32)
    requires BlockIdentity(p, packetDurationMs).Ok?
    ensures ShardNumber(p) < SHARDS
    ensures p.Audio? ==>
      ShardNumber(p) == Wrap16(p.rtp.sequenceNumber - BlockIdentity(p, packetDurationMs).value.0.baseSequenceNumber)
  {}

  // Storing and completing only ever add shards, and the packet's own shard is there afterwards.
  lemma StoringGrows(block: FecBlock, p: ParsedPacket, packetDurationMs: u32)
    requires BlockInv(block) && !block.fullyReassembled && Belongs(p, block, packetDurationMs)
    ensures StoreShard(block, p).Ok?
    ensures StoreShard(block, p).value.None? ==> HasShard(block, ShardNumber(p))
    ensures StoreShard(block, p).value.Some? ==>
      StoreShard(block, p).value.value.Shaped() && CompleteBlock(StoreShard(block, p).value.value).Ok? &&
      var b := CompleteBlock(StoreShard(block, p).value.value).value;
      BlockInv(b) && Grows(b, block) && (b.fullyReassembled || HasShard(b, ShardNumber(p)))
  {
    hide Positions, Restored, RecoveryError, FirstLength, BlockInv;
    StoringSucceeds(block, p, packetDurationMs);
    ShardNumberInBlock(p, packetDurationMs);
    InvBlockShaped(block);
    if StoreShard(block, p).value.Some? {
      var stored := StoreShard(block, p).value.value;
      CompletingSucceeds(stored);
      if !CompleteBlock(stored).value.fullyReassembled {
        IncompleteKeepsShards(stored);
      }
    }
  }

  lemma InvBlockShaped(block: FecBlock)
    requires BlockInv(block)
    ensures block.Shaped()
  {}

  lemma IncompleteKeepsShards(stored: FecBlock)
    requires stored.Shaped() && CompleteBlock(stored).Ok? && !CompleteBlock(stored).value.fullyReassembled
    ensures CompleteBlock(stored).value == stored
  {
    hide Positions, Restored, RecoveryError, FirstLength;
  }

  lemma AcceptingKeepsWorld(w: World, i: nat, p: ParsedPacket, now: nat)
    requires WorldInv(w) && w.q.initialized && i < |w.q.blocks| && Belongs(p, w.q.blocks[i], w.q.packetDurationMs)
    ensures w.q.Shaped() && AcceptShard(w.q, i, p, now).1.Ok?
    ensures
      var q, id := AcceptShard(w.q, i, p, now).0, (Position(w, w.q.blocks[i]), ShardNumber(p));
      WorldInv(Moved(w, q).(arrived := w.arrived + {id})) && q.initialized
  {
    hide Wrap16, Inv, BlockInv, StoreShard, CompleteBlock, Settled, WorldInv, Belongs;
    WorldParts(w, i);
    var block, k := w.q.blocks[i], ShardNumber(p);
    ShardNumberOf(p, block, w.q.packetDurationMs);
    AcceptingKeepsInv(w.q, i, p, now);
    if block.fullyReassembled {
      RecordingInPlace(w, i, k);
    } else {
      StoringGrows(block, p, w.q.packetDurationMs);
      var stored := StoreShard(block, p).value;
      if stored.None? {
        RecordingInPlace(w, i, k);
      } else {
        var b := CompleteBlock(stored.value).value;
        GrowingKeepsWorld(w, i, b, k);
        SettlingKeepsWorld(Grown(w, i, b, k), now);
      }
    }
  }

  lemma WorldParts(w: World, i: nat)
    requires WorldInv(w) && i < |w.q.blocks|
    ensures Inv(w.q) && w.q.Shaped() && BlockInv(w.q.blocks[i])
  {}

  lemma ShardNumberOf(p: ParsedPacket, block: FecBlock, packetDurationMs: u32)
    requires Belongs(p, block, packetDurationMs)
    ensures ShardNumber(p) < SHARDS
  {}

  lemma RecordingInPlace(w: World, i: nat, k: nat)
    requires WorldInv(w) && w.q.initialized && i < |w.q.blocks| && k < SHARDS
    requires w.q.blocks[i].fullyReassembled || HasShard(w.q.blocks[i], k)
    ensures WorldInv(Moved(w, w.q).(arrived := w.arrived + {(Position(w, w.q.blocks[i]), k)}))
  {
    hide Wrap16, Inv, BlockInv, WorldInv;
    WorldParts(w, i);
    GrowingKeepsWorld(w, i, w.q.blocks[i], k);
    WrapDistance(w.q.oldest, w.q.oldest);
    assert w.q.blocks[i := w.q.blocks[i]] == w.q.blocks;
  }

  lemma ArrivingKeepsWorld(w: World, p: ParsedPacket, blockPosition: nat, now: nat)
    requires WorldInv(w) && w.q.Shaped() && Numbered(Arrive(p, blockPosition, now), w.q.packetDurationMs)
    ensures WorldInv(Arrived(w, p, blockPosition, now))
  {
    hide Wrap16, IsBefore16, Inv, NoteLateness, BlockIdentity, EnsureBlock, AcceptShard, WorldInv;
    var identity, noted := BlockIdentity(p, w.q.packetDurationMs), NoteLateness(w.q, p);
    NoteKeepsBlocks(w.q, p);
    NotingKeepsWorld(w, p);
    assert w.arrived + {} == w.arrived;
    if identity.Ok? {
      IdentityFacts(p, w.q.packetDurationMs);
      var (header, blockSize) := identity.value;
      if !w.q.initialized {
        StartingWorld(w, noted, header.baseSequenceNumber, blockPosition);
      } else if !IsBefore16(header.baseSequenceNumber, w.q.oldest) && EnsureBlock(w.q.blocks, header, blockSize, now).Ok? {
        PlacingKeepsWorld(w.(q := noted), header, blockSize, now);
        var (blocks, i) := EnsureBlock(w.q.blocks, header, blockSize, now).value;
        AcceptingKeepsWorld(w.(q := noted.(blocks := blocks)), i, p, now);
      }
    }
  }

  lemma ArrivedEmits(w: World, p: ParsedPacket, position: nat, now: nat)
    requires WorldInv(w) && w.q.Shaped()
    ensures Arrived(w, p, position, now).emitted == w.emitted
  {
    hide AddPacket, IsRecorded, Inv, Numbering, Tracked, Accounted, Ordered;
  }

  lemma NotingKeepsWorld(w: World, p: ParsedPacket)
    requires WorldInv(w)
    ensures WorldInv(w.(q := NoteLateness(w.q, p)))
    ensures w.q.initialized ==> Moved(w, NoteLateness(w.q, p)) == w.(q := NoteLateness(w.q, p))
    ensures Inv(w.q)
  {
    hide NoteLateness, Inv, Wrap16;
    NotingKeepsInv(w.q, p);
    NoteKeepsBlocks(w.q, p);
    if w.q.initialized {
      SameWindowKeepsWorld(w, NoteLateness(w.q, p));
    }
  }

  lemma StartingWorld(w: World, noted: Queue, base: u16, blockPosition: nat)
    requires WorldInv(w.(q := noted)) && !noted.initialized && base % DATA_SHARDS == 0 && Wrap16(blockPosition) == base
    ensures
      var next := Wrap16(base + DATA_SHARDS);
      WorldInv(World(noted.(initialized := true, next := next, oldest := next),
                     blockPosition + DATA_SHARDS, blockPosition + DATA_SHARDS, {}, []))
  {
    hide Wrap16;
    NextStep(base, 0);
    WrapSum(blockPosition, DATA_SHARDS);
    WrapSum(blockPosition, 0);
    StartInv(noted, Wrap16(base + DATA_SHARDS));
    InvParts(noted);
  }

  lemma PlacingKeepsWorld(w: World, header: AudioFecHeader, blockSize: nat, now: nat)
    requires WorldInv(w) && w.q.initialized && header.baseSequenceNumber % DATA_SHARDS == 0 && blockSize > 0
    requires !IsBefore16(header.baseSequenceNumber, w.q.oldest)
    requires EnsureBlock(w.q.blocks, header, blockSize, now).Ok?
    ensures
      var (blocks, i) := EnsureBlock(w.q.blocks, header, blockSize, now).value;
      WorldInv(w.(q := w.q.(blocks := blocks))) && blocks[i].Base() == header.baseSequenceNumber &&
      blocks[i].blockSize == blockSize
  {
    hide Wrap16, IsBefore16, Inv, WorldInv;
    var base, i := header.baseSequenceNumber, Place(w.q.blocks, header.baseSequenceNumber);
    WorldHasInv(w);
    PlacingKeepsInv(w.q, header, blockSize, now);
    if i < |w.q.blocks| && w.q.blocks[i].Base() == base {
    } else {
      if HeadIndex(w.q) > 0 {
        BeforeOldest(base, w.q.oldest);
        HeadIsNotOvertaken(w.q, base);
      }
      InsertingKeepsWorld(w, NewBlock(header, blockSize, now), i);
    }
  }

  lemma WorldHasInv(w: World)
    requires WorldInv(w)
    ensures Inv(w.q)
  {}

  // ---------- Every run ----------

  lemma StepKeepsWorld(w: World, e: Event)
    requires WorldInv(w) && w.q.Shaped() && Numbered(e, w.q.packetDurationMs)
    ensures WorldInv(Step(w, e))
  {
    hide WorldInv;
    match e
    case Arrive(p, blockPosition, now) => ArrivingKeepsWorld(w, p, blockPosition, now);
    case Poll(now) => PollingKeepsWorld(w, now);
  }

  lemma ArrivalsGrow(w: World, e: Event)
    requires WorldInv(w) && w.q.Shaped()
    ensures w.arrived <= Step(w, e).arrived
  {
    hide Inv, Numbering, Tracked, Accounted, Ordered, AddPacket, DequeueReady, IsRecorded, Recorded;
  }

  lemma {:induction false} RunKeepsWorld(packetDurationMs: u32, events: seq<Event>)
    requires forall i :: 0 <= i < |events| ==> Numbered(events[i], packetDurationMs)
    ensures WorldInv(Run(Begin(packetDurationMs), events))
    ensures Run(Begin(packetDurationMs), events).q.packetDurationMs == packetDurationMs
  {
    if events == [] {
      BeginInv(packetDurationMs);
    } else {
      var n := |events| - 1;
      RunKeepsWorld(packetDurationMs, events[..n]);
      var w := Run(Begin(packetDurationMs), events[..n]);
      StepKeepsWorld(w, events[n]);
      StepKeepsDuration(w, events[n]);
    }
  }

  lemma StepKeepsDuration(w: World, e: Event)
    requires w.q.Shaped()
    ensures Step(w, e).q.packetDurationMs == w.q.packetDurationMs
  {
    hide Settled, Advance, AddPacket, DequeueReady, Wrap16;
    match e
    case Arrive(p, _, now) => AddPacketKeepsDuration(w.q, p, now);
    case Poll(now) => DequeueKeepsDuration(w.q, now);
  }

  lemma StartIsFixed(w: World, e: Event)
    requires WorldInv(w) && w.q.Shaped() && w.q.initialized
    ensures Step(w, e).q.initialized && Step(w, e).start == w.start
  {
    hide Inv, Numbering, Tracked, Accounted, Ordered, AddPacket, DequeueReady, IsRecorded, Recorded;
    match e
    case Arrive(p, _, now) => AddPacketFacts(w.q, p, now);
    case Poll(now) => PollingKeepsWorld(w, now);
  }

  // What has been accepted stays accepted, and the numbering stays as it was begun.
  lemma {:induction false} ArrivalsStay(packetDurationMs: u32, events: seq<Event>, m: nat)
    requires m <= |events| && forall i :: 0 <= i < |events| ==> Numbered(events[i], packetDurationMs)
    ensures
      var w, r := Run(Begin(packetDurationMs), events[..m]), Run(Begin(packetDurationMs), events);
      w.arrived <= r.arrived && (w.q.initialized ==> r.q.initialized && r.start == w.start)
  {
    hide Step, WorldInv, Numbered;
    if m == |events| {
      assert events[..m] == events;
    } else {
      var n := |events| - 1;
      ArrivalsStay(packetDurationMs, events[..n], m);
      assert events[..n][..m] == events[..m];
      RunKeepsWorld(packetDurationMs, events[..n]);
      var w := Run(Begin(packetDurationMs), events[..n]);
      ArrivalsGrow(w, events[n]);
      if w.q.initialized {
        StartIsFixed(w, events[n]);
      }
    }
  }
}
