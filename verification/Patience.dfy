/** When a loss is reported, over whole runs and in terms of what arrived: only after the block has been given up on, and that only
    while a later block had been heard of and either no late packet was remembered or the block had been waited for long enough,
    counted from the first packet of it that was accepted. */
module Patience {

  import opened Wrappers
  import opened AudioFec
  import opened Protocol
  import opened QueueModel
  import opened QueueInvariant
  import opened Delivery
  import opened QueueEffects

  // ---------- What has been heard of ----------

  ghost predicate Heard(w: World, position: nat) {
    exists k :: (position, k) in w.arrived
  }

  ghost predicate LaterHeard(w: World, position: nat) {
    exists later: nat, k: nat :: later > position && (later, k) in w.arrived
  }

  ghost predicate AllHeard(w: World) {
    forall i :: 0 <= i < |w.q.blocks| ==> Heard(w, Position(w, w.q.blocks[i]))
  }

  // The block at this position, first heard of at the given time, may be given up on now.
  ghost predicate MayGiveUp(w: World, position: nat, first: nat, now: nat) {
    |ArrivedShards(w, position)| < DATA_SHARDS && LaterHeard(w, position) &&
    (!w.q.receivedOutOfOrder || now - first > (4 * w.q.packetDurationMs + 10) * 1_000_000)
  }

  // An incomplete head block that is overdue may be given up on.
  lemma OverdueMayGiveUp(w: World, now: nat)
    requires WorldInv(w) && w.q.initialized && AllHeard(w) && w.q.Shaped() && HeadLacks(w.q) && Overdue(w.q, now)
    ensures MayGiveUp(w, Position(w, w.q.blocks[0]), w.q.blocks[0].queueTime, now)
  {
    hide Wrap16, Inv, Numbering, Tracked, Accounted, Ordered, ArrivedShards;
    WorldParts(w, 0);
    ArrivedIsStored(w, 0);
    PositionsAscend(w, 0, 1);
    assert Heard(w, Position(w, w.q.blocks[1]));
  }

  // ---------- One step ----------

  // Block i of r was in w, at the same position and for the same time.
  ghost predicate WasThere(w: World, r: World, i: nat, j: nat)
    requires i < |r.q.blocks|
  {
    j < |w.q.blocks| && Position(r, r.q.blocks[i]) == Position(w, w.q.blocks[j]) &&
    r.q.blocks[i].queueTime == w.q.blocks[j].queueTime
  }

  ghost predicate IsNew(w: World, r: World, i: nat, now: nat)
    requires i < |r.q.blocks|
  {
    var position := Position(r, r.q.blocks[i]);
    !Heard(w, position) && Heard(r, position) && r.q.blocks[i].queueTime == now
  }

  // What a step does to the blocks: each was there, or is first heard of now; and one is given up on only if it may be.
  ghost predicate Orderly(w: World, r: World, now: nat) {
    w.arrived <= r.arrived &&
    forall i :: 0 <= i < |r.q.blocks| ==>
      ((exists j: nat :: WasThere(w, r, i, j)) || IsNew(w, r, i, now)) &&
      (r.q.blocks[i].allowDiscontinuity ==>
        (exists j: nat :: WasThere(w, r, i, j) && w.q.blocks[j].allowDiscontinuity) ||
        MayGiveUp(r, Position(r, r.q.blocks[i]), r.q.blocks[i].queueTime, now))
  }

  lemma PollingIsOrderly(w: World, now: nat)
    requires WorldInv(w) && w.q.initialized && AllHeard(w)
    ensures w.q.Shaped()
    ensures Orderly(w, Polled(w, now), now)
  {
    hide Wrap16, Inv, DequeueReady, WorldInv, MayGiveUp, Overdue, Position, Polled;
    WorldHasInv(w);
    InvShaped(w.q);
    PollIsExact(w.q, now);
    if w.q.blocks == [] {
      EmptyPollKeeps(w, now);
    } else {
      PollSurvivors(w, now);
      PollMayGiveUp(w, now);
      PolledQueue(w, now);
    }
  }

  lemma PolledQueue(w: World, now: nat)
    requires w.q.Shaped()
    ensures Polled(w, now).q == DequeueReady(w.q, now).0
  {
    hide DequeueReady;
  }

  lemma EmptyPollKeeps(w: World, now: nat)
    requires w.q.blocks == []
    ensures w.q.Shaped() && Polled(w, now) == w
  {
    WrapDistance(w.q.oldest, w.q.oldest);
  }

  lemma PollMayGiveUp(w: World, now: nat)
    requires WorldInv(w) && w.q.initialized && AllHeard(w) && w.q.blocks != []
    ensures w.q.Shaped()
    ensures HeadLacks(w.q) && Overdue(w.q, now) ==>
      MayGiveUp(Polled(w, now), Position(w, w.q.blocks[0]), w.q.blocks[0].queueTime, now)
  {
    hide Inv, WorldInv, MayGiveUp, Overdue, Position, Polled, DequeueReady;
    WorldHasInv(w);
    PollIsExact(w.q, now);
    PollSurvivors(w, now);
    PolledQueue(w, now);
    if HeadLacks(w.q) && Overdue(w.q, now) {
      OverdueMayGiveUp(w, now);
      SameArrivals(w, Polled(w, now), Position(w, w.q.blocks[0]), w.q.blocks[0].queueTime, now);
    }
  }

  // A loss comes from a block that was given up on, now or before.
  lemma PollEmits(w: World, now: nat)
    requires WorldInv(w) && w.q.initialized && AllHeard(w)
    ensures w.q.Shaped()
    ensures
      var r := Polled(w, now);
      r.emitted == w.emitted ||
      (w.q.blocks != [] && |r.emitted| == |w.emitted| + 1 && r.emitted[..|w.emitted|] == w.emitted &&
       var e, base := r.emitted[|w.emitted|], Position(w, w.q.blocks[0]);
       e.position - e.position % DATA_SHARDS == base &&
       (e.frame.Missing? ==> w.q.blocks[0].allowDiscontinuity || MayGiveUp(r, base, w.q.blocks[0].queueTime, now)))
  {
    hide Wrap16, Inv, Settled, Advance, Numbering, Tracked, Accounted, Ordered, MayGiveUp, Overdue, DequeueReady;
    WorldHasInv(w);
    PollIsExact(w.q, now);
    if w.q.blocks != [] {
      HeadPosition(w);
      PollMayGiveUp(w, now);
    }
  }

  lemma SameArrivals(w: World, r: World, position: nat, first: nat, now: nat)
    requires MayGiveUp(w, position, first, now)
    requires r.arrived == w.arrived && r.q.receivedOutOfOrder == w.q.receivedOutOfOrder
    requires r.q.packetDurationMs == w.q.packetDurationMs
    ensures MayGiveUp(r, position, first, now)
  {
    assert ArrivedShards(r, position) == ArrivedShards(w, position);
  }

  // The block of w that is block i after a dequeue.
  function Survived(w: World, now: nat, i: nat): nat
    requires w.q.Shaped() && w.q.blocks != []
  {
    if DequeueReady(w.q, now).1.Some? then Survivor(w, i) else i
  }

  lemma PollSurvivors(w: World, now: nat)
    requires WorldInv(w) && w.q.initialized && w.q.blocks != []
    ensures w.q.Shaped()
    ensures
      var r := Polled(w, now);
      r.arrived == w.arrived && r.q.packetDurationMs == w.q.packetDurationMs &&
      forall i :: 0 <= i < |r.q.blocks| ==>
        WasThere(w, r, i, Survived(w, now, i)) &&
        (i > 0 || Survived(w, now, i) > 0 ==> !r.q.blocks[i].allowDiscontinuity)
  {
    hide Wrap16, Inv, Settled, Advance, Tracked, Accounted, Ordered, DequeueReady;
    InvParts(w.q);
    PollDivides(w.q, now);
    DequeueKeepsDuration(w.q, now);
    SettlingKeepsWorld(w, now);
    PollingKeepsWorld(w, now);
    InvParts(Polled(w, now).q);
    var s := Settled(w.q, now);
    var settled := Moved(w, s);
    var (q, frame) := DequeueReady(w.q, now);
    if frame.Some? {
      SettledFacts(w.q, now);
      AdvancedQueue(settled);
      PollDistance(w, s);
      MovedTwice(w, s, q);
    }
  }

  // ---------- An arrival ----------

  lemma UnwantedChangesNothing(w: World, p: ParsedPacket, position: nat, now: nat)
    requires WorldInv(w) && w.q.Shaped() && w.q.initialized && (!Wanted(w.q, p) || Disagreeing(w.q, p))
    ensures
      var r := Arrived(w, p, position, now);
      r == w.(q := r.q) &&
      r.q == w.q.(receivedOutOfOrder := r.q.receivedOutOfOrder, lastOutOfOrder := r.q.lastOutOfOrder)
  {
    hide Wrap16, Inv, AddPacket, Numbering, Tracked, Accounted, Ordered, WellFormed, BlockIdentity;
    RefusalIsExact(w.q, p, now);
    AddPacketFacts(w.q, p, now);
    WrapDistance(w.q.oldest, w.q.oldest);
    NotRecorded(w, p);
    assert w.arrived + {} == w.arrived;
  }

  lemma NotRecorded(w: World, p: ParsedPacket)
    ensures IsRecorded(w, p) <==> Wanted(w.q, p)
    ensures IsRecorded(w, p) ==> Recorded(w, p) == (w.oldest + Offset(w.q, ClaimedBase(p)), ShardNumber(p))
  {
    IdentityIsClaimed(p, w.q.packetDurationMs);
    hide WellFormed, BlockIdentity;
    BeforeOldest(ClaimedBase(p), w.q.oldest);
    DistanceIsAhead(ClaimedBase(p), w.q.oldest);
  }

  lemma UnchangedIsOrderly(w: World, r: World, now: nat)
    requires r == w.(q := r.q)
    requires r.q == w.q.(receivedOutOfOrder := r.q.receivedOutOfOrder, lastOutOfOrder := r.q.lastOutOfOrder)
    ensures Orderly(w, r, now)
  {
    hide Wrap16, MayGiveUp;
    forall i | 0 <= i < |r.q.blocks|
      ensures exists j: nat :: WasThere(w, r, i, j) && w.q.blocks[j] == r.q.blocks[i]
    {
      assert WasThere(w, r, i, i);
    }
  }

  // Nothing of a block that is not queued and not passed has been heard.
  lemma UnknownIsUnheard(w: World, p: ParsedPacket)
    requires WorldInv(w) && w.q.initialized
    requires forall j :: 0 <= j < |w.q.blocks| ==> w.q.blocks[j].Base() != ClaimedBase(p)
    ensures !Heard(w, w.oldest + Offset(w.q, ClaimedBase(p)))
  {
    hide Inv, Wrap16, Numbering, Accounted, Ordered;
    var position := w.oldest + Offset(w.q, ClaimedBase(p));
    if Heard(w, position) {
      var k :| (position, k) in w.arrived;
      assert Queued(w, position, k);
      var j :| 0 <= j < |w.q.blocks| && Position(w, w.q.blocks[j]) == position &&
        (w.q.blocks[j].fullyReassembled || HasShard(w.q.blocks[j], k));
      SameOffset(w.q.blocks[j].Base(), ClaimedBase(p), w.q.oldest);
    }
  }

  lemma SameOffset(a: u16, b: u16, oldest: u16)
    requires Wrap16(a - oldest) == Wrap16(b - oldest)
    ensures a == b
  {}

  // The queue after the packet's block has been put in.
  ghost predicate PutIn(q: Queue, p: ParsedPacket, now: nat, placed: Queue, i: nat) {
    q.initialized && Inv(placed) && i < |placed.blocks| && placed.oldest == q.oldest &&
    placed.blocks[i].Base() == ClaimedBase(p) && (GivenUp(placed) <==> GivenUp(q)) &&
    if exists j :: 0 <= j < |q.blocks| && q.blocks[j].Base() == ClaimedBase(p) then placed.blocks == q.blocks
    else
      i <= |q.blocks| && placed.blocks == q.blocks[..i] + [placed.blocks[i]] + q.blocks[i..] &&
      placed.blocks[i].queueTime == now && !placed.blocks[i].allowDiscontinuity
  }

  // And after the packet has been taken in.
  ghost predicate TakenIn(q: Queue, r: Queue, now: nat, placed: Queue) {
    hide Inv;
    placed.blocks != [] && Inv(r) && r.Shaped() && |r.blocks| == |placed.blocks| && r.initialized &&
    (forall j :: 0 <= j < |r.blocks| ==>
      r.blocks[j].Base() == placed.blocks[j].Base() && r.blocks[j].queueTime == placed.blocks[j].queueTime) &&
    (r.oldest == q.oldest || r.oldest == placed.blocks[0].Base()) &&
    (GivenUp(r) ==> GivenUp(placed) || (HeadLacks(r) && Overdue(r, now)))
  }

  ghost predicate Takes(w: World, r: World, p: ParsedPacket, now: nat, placed: Queue) {
    TakenIn(w.q, r.q, now, placed) &&
    r == Moved(w, r.q).(arrived := w.arrived + {(w.oldest + Offset(w.q, ClaimedBase(p)), ShardNumber(p))})
  }

  lemma WantedIsTaken(w: World, p: ParsedPacket, position: nat, now: nat) returns (placed: Queue, i: nat)
    requires WorldInv(w) && w.q.Shaped() && Wanted(w.q, p) && !Disagreeing(w.q, p)
    ensures PutIn(w.q, p, now, placed, i) && Takes(w, Arrived(w, p, position, now), p, now, placed)
  {
    hide Wrap16, Inv, AddPacket, WorldInv, BlockIdentity, Disagreeing, IsRecorded, Recorded, TakenIn, PutIn, Wanted;
    WorldHasInv(w);
    RefusalIsExact(w.q, p, now);
    placed, i := QueueTakes(w.q, p, now);
    NotRecorded(w, p);
    WantedIsStarted(w.q, p);
  }

  lemma WantedIsStarted(q: Queue, p: ParsedPacket)
    requires Wanted(q, p)
    ensures q.initialized && WellFormed(p)
  {}

  lemma QueueTakes(q: Queue, p: ParsedPacket, now: nat) returns (placed: Queue, i: nat)
    requires Inv(q) && q.Shaped() && Wanted(q, p) && !Disagreeing(q, p)
    ensures PutIn(q, p, now, placed, i) && TakenIn(q, AddPacket(q, p, now).0, now, placed)
  {
    hide Wrap16, Inv, AddPacket, WellFormed, Brings, Overdue, HeadLacks, Disagreeing;
    placed, i := ArrivalIsExact(q, p, now);
    var r := AddPacket(q, p, now).0;
    InvShaped(r);
    AddPacketFacts(q, p, now);
    if Brings(placed.blocks[i], p) {
      assert Took(r.blocks[i].(allowDiscontinuity := placed.blocks[i].allowDiscontinuity), placed.blocks[i], p);
    }
  }

  lemma TakingPositions(w: World, r: World, p: ParsedPacket, now: nat, placed: Queue, i: nat)
    requires PutIn(w.q, p, now, placed, i) && Takes(w, r, p, now, placed)
    ensures forall j :: 0 <= j < |r.q.blocks| ==> Position(r, r.q.blocks[j]) == Position(w, placed.blocks[j])
    ensures Position(r, r.q.blocks[i]) == w.oldest + Offset(w.q, ClaimedBase(p))
  {
    hide Wrap16, Inv, Overdue, HeadLacks, GivenUp;
    WrapDistance(w.q.oldest, w.q.oldest);
    forall j | 0 <= j < |r.q.blocks|
      ensures Position(r, r.q.blocks[j]) == Position(w, placed.blocks[j])
    {
      if r.q.oldest != w.q.oldest {
        PositionsAscend(w.(q := placed), 0, j);
        PositionIsStable(w, r.q, placed.blocks[j]);
      }
    }
  }

  lemma TakingIsOrderly(w: World, r: World, p: ParsedPacket, now: nat, placed: Queue, i: nat)
    requires WorldInv(w) && AllHeard(w) && WorldInv(r) && PutIn(w.q, p, now, placed, i) && Takes(w, r, p, now, placed)
    ensures Orderly(w, r, now)
  {
    hide Inv, Overdue, HeadLacks, WorldInv, Position, WasThere, IsNew, MayGiveUp, PutIn, AllHeard, Wrap16;
    TakingPositions(w, r, p, now, placed, i);
    forall j | 0 <= j < |r.q.blocks|
      ensures (exists k: nat :: WasThere(w, r, j, k)) || IsNew(w, r, j, now)
    {
      TakenFrom(w, r, p, now, placed, i, j);
    }
    OnlyHeadGivenUp(r.q);
    if GivenUp(r.q) {
      TakenFrom(w, r, p, now, placed, i, 0);
      if !GivenUp(placed) {
        OrderlyIsHeard(w, r, now);
        OverdueMayGiveUp(r, now);
      }
    }
  }

  lemma OnlyHeadGivenUp(q: Queue)
    requires Inv(q)
    ensures forall j :: 0 < j < |q.blocks| ==> !q.blocks[j].allowDiscontinuity
  {}

  lemma OrderlyIsHeard(w: World, r: World, now: nat)
    requires AllHeard(w) && w.arrived <= r.arrived
    requires forall i :: 0 <= i < |r.q.blocks| ==> (exists j: nat :: WasThere(w, r, i, j)) || IsNew(w, r, i, now)
    ensures AllHeard(r)
  {
    hide Wrap16, Position;
    forall i | 0 <= i < |r.q.blocks|
      ensures Heard(r, Position(r, r.q.blocks[i]))
    {
      if !IsNew(w, r, i, now) {
        var j: nat :| WasThere(w, r, i, j);
        assert Heard(w, Position(w, w.q.blocks[j]));
        var k :| (Position(w, w.q.blocks[j]), k) in w.arrived;
        assert (Position(r, r.q.blocks[i]), k) in r.arrived;
      }
    }
  }

  // Where block j came from.
  lemma TakenFrom(w: World, r: World, p: ParsedPacket, now: nat, placed: Queue, i: nat, j: nat)
    requires WorldInv(w) && PutIn(w.q, p, now, placed, i) && Takes(w, r, p, now, placed) && j < |r.q.blocks|
    requires forall j :: 0 <= j < |r.q.blocks| ==> Position(r, r.q.blocks[j]) == Position(w, placed.blocks[j])
    requires Position(r, r.q.blocks[i]) == w.oldest + Offset(w.q, ClaimedBase(p))
    ensures (exists k: nat :: WasThere(w, r, j, k)) || IsNew(w, r, j, now)
    ensures j == 0 && GivenUp(placed) ==> WasThere(w, r, 0, 0) && GivenUp(w.q)
  {
    hide Wrap16, Inv, Overdue, HeadLacks, WorldInv, Position, Offset;
    if exists k :: 0 <= k < |w.q.blocks| && w.q.blocks[k].Base() == ClaimedBase(p) {
      assert WasThere(w, r, j, j);
    } else if j == i {
      UnknownIsUnheard(w, p);
      assert (Position(r, r.q.blocks[i]), ShardNumber(p)) in r.arrived;
    } else {
      assert WasThere(w, r, j, if j < i then j else j - 1);
    }
  }

  lemma StepIsOrderly(w: World, e: Event)
    requires WorldInv(w) && w.q.initialized && w.q.Shaped() && AllHeard(w) && Numbered(e, w.q.packetDurationMs)
    ensures Orderly(w, Step(w, e), TimeOf(e))
  {
    hide WorldInv, Orderly, AllHeard, Arrived, Polled, Wanted, Disagreeing, PutIn, Takes, Numbered;
    match e
    case Poll(now) => PollingIsOrderly(w, now);
    case Arrive(p, position, now) =>
      ArrivingKeepsWorld(w, p, position, now);
      if Wanted(w.q, p) && !Disagreeing(w.q, p) {
        var placed, i := WantedIsTaken(w, p, position, now);
        TakingIsOrderly(w, Arrived(w, p, position, now), p, now, placed, i);
      } else {
        UnwantedChangesNothing(w, p, position, now);
        UnchangedIsOrderly(w, Arrived(w, p, position, now), now);
      }
  }

  // ---------- Every run ----------

  function TimeOf(e: Event): nat {
    e.now
  }

  // When the first packet of the block at this position was accepted.
  ghost function FirstHeard(d: u32, events: seq<Event>, position: nat): Option<nat> {
    if events == [] then None
    else
      var n := |events| - 1;
      var earlier := FirstHeard(d, events[..n], position);
      if earlier.Some? then earlier
      else if Heard(Run(Begin(d), events), position) then Some(TimeOf(events[n]))
      else None
  }

  // At event m the block at this position could be given up on.
  ghost predicate GaveUp(d: u32, events: seq<Event>, m: nat, position: nat) {
    m < |events| &&
    var first := FirstHeard(d, events[..m + 1], position);
    first.Some? && MayGiveUp(Run(Begin(d), events[..m + 1]), position, first.value, TimeOf(events[m]))
  }

  ghost predicate WasGivenUp(d: u32, events: seq<Event>, position: nat) {
    exists m: nat :: GaveUp(d, events, m, position)
  }

  ghost predicate AllNumbered(d: u32, events: seq<Event>) {
    forall i :: 0 <= i < |events| ==> Numbered(events[i], d)
  }

  function BlockOf(e: Emission): nat {
    e.position - e.position % DATA_SHARDS
  }

  ghost predicate BlocksTimely(d: u32, events: seq<Event>) {
    var w := Run(Begin(d), events);
    w.q.initialized ==>
      forall i :: 0 <= i < |w.q.blocks| ==>
        var position := Position(w, w.q.blocks[i]);
        FirstHeard(d, events, position) == Some(w.q.blocks[i].queueTime) &&
        (w.q.blocks[i].allowDiscontinuity ==> WasGivenUp(d, events, position))
  }

  ghost predicate LossesTimely(d: u32, events: seq<Event>) {
    var w := Run(Begin(d), events);
    forall i :: 0 <= i < |w.emitted| && w.emitted[i].frame.Missing? ==> WasGivenUp(d, events, BlockOf(w.emitted[i]))
  }

  lemma {:induction false} FirstHeardIsHeard(d: u32, events: seq<Event>, position: nat)
    requires AllNumbered(d, events)
    ensures FirstHeard(d, events, position).Some? <==> Heard(Run(Begin(d), events), position)
  {
    hide WorldInv, Step;
    if events != [] {
      var n := |events| - 1;
      FirstHeardIsHeard(d, events[..n], position);
      RunKeepsWorld(d, events[..n]);
      ArrivalsGrow(Run(Begin(d), events[..n]), events[n]);
    }
  }

  lemma GaveUpStays(d: u32, events: seq<Event>, position: nat)
    requires events != []
    ensures WasGivenUp(d, events[..|events| - 1], position) ==> WasGivenUp(d, events, position)
  {
    hide MayGiveUp, FirstHeard, Run;
    var n := |events| - 1;
    if WasGivenUp(d, events[..n], position) {
      var m: nat :| GaveUp(d, events[..n], m, position);
      assert events[..n][..m + 1] == events[..m + 1];
      assert GaveUp(d, events, m, position);
    }
  }

  lemma TimelyIsHeard(d: u32, events: seq<Event>)
    requires AllNumbered(d, events) && BlocksTimely(d, events) && Run(Begin(d), events).q.initialized
    ensures AllHeard(Run(Begin(d), events))
  {
    hide FirstHeard, Run, Heard, Position;
    var w := Run(Begin(d), events);
    forall i | 0 <= i < |w.q.blocks|
      ensures Heard(w, Position(w, w.q.blocks[i]))
    {
      FirstHeardIsHeard(d, events, Position(w, w.q.blocks[i]));
    }
  }

  lemma StartIsEmpty(w: World, e: Event)
    requires WorldInv(w) && w.q.Shaped() && !w.q.initialized
    ensures Step(w, e).q.blocks == [] && Step(w, e).emitted == []
  {
    hide BlockInv, AddPacket, DequeueReady, IsRecorded, Recorded, WellFormed, Wanted;
    match e
    case Poll(now) => EmptyPollKeeps(w, now);
    case Arrive(p, position, now) =>
      RefusalIsExact(w.q, p, now);
      AddPacketFacts(w.q, p, now);
  }

  // A block that may be given up on now, and was first heard of when it says.
  lemma GivenUpNow(d: u32, events: seq<Event>, position: nat, first: nat)
    requires events != [] && FirstHeard(d, events, position) == Some(first)
    requires MayGiveUp(Run(Begin(d), events), position, first, TimeOf(events[|events| - 1]))
    ensures WasGivenUp(d, events, position)
  {
    hide MayGiveUp, FirstHeard, Run;
    assert events[..|events|] == events;
    assert GaveUp(d, events, |events| - 1, position);
  }

  lemma {:induction false} RunIsTimely(d: u32, events: seq<Event>)
    requires AllNumbered(d, events)
    ensures BlocksTimely(d, events) && LossesTimely(d, events)
  {
    hide Step, Position, WasGivenUp, FirstHeard, WorldInv, Numbered;
    RunKeepsWorld(d, events);
    if events != [] {
      var n := |events| - 1;
      RunIsTimely(d, events[..n]);
      RunKeepsWorld(d, events[..n]);
      var w := Run(Begin(d), events[..n]);
      if w.q.initialized {
        TimelyIsHeard(d, events[..n]);
        StepIsOrderly(w, events[n]);
        BlocksStayTimely(d, events);
        LossesStayTimely(d, events);
      } else {
        StartIsEmpty(w, events[n]);
      }
    }
  }

  lemma BlocksStayTimely(d: u32, events: seq<Event>)
    requires AllNumbered(d, events) && events != []
    requires
      var n := |events| - 1;
      var w := Run(Begin(d), events[..n]);
      w.q.initialized && BlocksTimely(d, events[..n]) && Orderly(w, Run(Begin(d), events), TimeOf(events[n]))
    ensures BlocksTimely(d, events)
  {
    hide Run, Position, WasGivenUp, MayGiveUp, Heard, Numbered, FirstHeard;
    var n := |events| - 1;
    var w, r := Run(Begin(d), events[..n]), Run(Begin(d), events);
    forall i | 0 <= i < |r.q.blocks|
      ensures FirstHeard(d, events, Position(r, r.q.blocks[i])) == Some(r.q.blocks[i].queueTime)
      ensures r.q.blocks[i].allowDiscontinuity ==> WasGivenUp(d, events, Position(r, r.q.blocks[i]))
    {
      var position := Position(r, r.q.blocks[i]);
      FirstHeardNext(d, events, position);
      FirstHeardIsHeard(d, events[..n], position);
      GaveUpStays(d, events, position);
      if MayGiveUp(r, position, r.q.blocks[i].queueTime, TimeOf(events[n])) {
        GivenUpNow(d, events, position, r.q.blocks[i].queueTime);
      }
    }
  }

  lemma FirstHeardNext(d: u32, events: seq<Event>, position: nat)
    requires events != []
    ensures
      var n := |events| - 1;
      var earlier := FirstHeard(d, events[..n], position);
      (earlier.Some? ==> FirstHeard(d, events, position) == earlier) &&
      (earlier.None? && Heard(Run(Begin(d), events), position) ==> FirstHeard(d, events, position) == Some(TimeOf(events[n])))
  {
    hide Run, Heard;
  }

  lemma LossesStayTimely(d: u32, events: seq<Event>)
    requires AllNumbered(d, events) && events != []
    requires
      var n := |events| - 1;
      Run(Begin(d), events[..n]).q.initialized && BlocksTimely(d, events[..n]) && LossesTimely(d, events[..n])
    ensures LossesTimely(d, events)
  {
    hide Run, Position, WasGivenUp, MayGiveUp, Heard, WorldInv, FirstHeard, Numbered, Polled, Arrived;
    var n := |events| - 1;
    var w, r := Run(Begin(d), events[..n]), Run(Begin(d), events);
    RunKeepsWorld(d, events[..n]);
    RunNext(d, events);
    TimelyIsHeard(d, events[..n]);
    match events[n] {
      case Arrive(p, position, now) => ArrivedEmits(w, p, position, now);
      case Poll(now) =>
        PollEmits(w, now);
        if r.emitted != w.emitted {
          var base := Position(w, w.q.blocks[0]);
          FirstHeardNext(d, events, base);
          GaveUpStays(d, events, base);
          if MayGiveUp(r, base, w.q.blocks[0].queueTime, now) {
            GivenUpNow(d, events, base, w.q.blocks[0].queueTime);
          }
        }
    }
    forall i | 0 <= i < |r.emitted| && r.emitted[i].frame.Missing?
      ensures WasGivenUp(d, events, BlockOf(r.emitted[i]))
    {
      if i < |w.emitted| {
        assert r.emitted[i] == w.emitted[i];
        GaveUpStays(d, events, BlockOf(w.emitted[i]));
      }
    }
  }

  lemma RunNext(d: u32, events: seq<Event>)
    requires events != []
    ensures Run(Begin(d), events) == Step(Run(Begin(d), events[..|events| - 1]), events[|events| - 1])
  {}

  // The head block's next frame is absent and it has not been given up on: a dequeue reports the loss exactly when a later block
  // has been heard of and either no late packet is remembered or the first packet of the block is old enough.
  lemma WaitIsExact(d: u32, events: seq<Event>, now: nat)
    requires AllNumbered(d, events)
    ensures
      var w := Run(Begin(d), events);
      w.q.Shaped() && (w.q.initialized && HeadLacks(w.q) && !GivenUp(w.q) ==>
        var position := Position(w, w.q.blocks[0]);
        FirstHeard(d, events, position).Some? &&
        DequeueReady(w.q, now).1 ==
          if LaterHeard(w, position) &&
            (!w.q.receivedOutOfOrder || now - FirstHeard(d, events, position).value > (4 * d + 10) * 1_000_000)
          then Some(Missing) else None)
  {
    hide Run, DequeueReady, Inv, BlocksTimely, LaterHeard, HeadLacks, GivenUp;
    RunKeepsWorld(d, events);
    var w := Run(Begin(d), events);
    WorldHasInv(w);
    InvShaped(w.q);
    if w.q.initialized && HeadLacks(w.q) && !GivenUp(w.q) {
      RunIsTimely(d, events);
      HeadIsTimely(d, events);
      HeadState(w.q);
      PollIsExact(w.q, now);
      LaterIsQueued(w);
    }
  }

  lemma HeadState(q: Queue)
    requires q.Shaped() && HeadLacks(q) && !GivenUp(q)
    ensures q.blocks != [] && !q.blocks[0].allowDiscontinuity && q.blocks[0].dataShards[q.blocks[0].nextDataIndex].None?
  {}

  lemma HeadIsTimely(d: u32, events: seq<Event>)
    requires BlocksTimely(d, events)
    ensures
      var w := Run(Begin(d), events);
      w.q.initialized && w.q.blocks != [] ==>
        FirstHeard(d, events, Position(w, w.q.blocks[0])) == Some(w.q.blocks[0].queueTime)
    ensures
      var w := Run(Begin(d), events);
      AllNumbered(d, events) && w.q.initialized ==> AllHeard(w)
  {
    hide Run, FirstHeard, Position;
    if AllNumbered(d, events) && Run(Begin(d), events).q.initialized {
      TimelyIsHeard(d, events);
    }
  }

  // A block after the head has been heard of exactly when one is queued.
  lemma LaterIsQueued(w: World)
    requires WorldInv(w) && w.q.initialized && w.q.blocks != [] && AllHeard(w)
    ensures LaterHeard(w, Position(w, w.q.blocks[0])) <==> |w.q.blocks| > 1
  {
    hide Inv, Numbering, Accounted, Ordered, Position;
    HeadIsNotEarlier(w);
    if |w.q.blocks| > 1 {
      PositionsAscend(w, 0, 1);
      assert Heard(w, Position(w, w.q.blocks[1]));
    }
    if LaterHeard(w, Position(w, w.q.blocks[0])) {
      var later: nat, k: nat :| later > Position(w, w.q.blocks[0]) && (later, k) in w.arrived;
      assert Queued(w, later, k);
    }
  }

  // ---------- Late packets over runs ----------

  ghost predicate BlockFinished(w: World) {
    exists i :: 0 <= i < |w.emitted| && w.emitted[i].position % DATA_SHARDS == 3
  }

  predicate IsAudio(e: Event) {
    e.Arrive? && e.packet.Audio?
  }

  // Where an audio packet belongs in the stream.
  function AudioPosition(e: Event): nat
    requires IsAudio(e)
  {
    e.blockPosition + e.packet.rtp.sequenceNumber % 4
  }

  // Audio packets carry the number of their position.
  ghost predicate AudioNumbered(events: seq<Event>) {
    forall i :: 0 <= i < |events| && IsAudio(events[i]) ==>
      AudioPosition(events[i]) % 0x1_0000 == events[i].packet.rtp.sequenceNumber
  }

  // Event m is an audio packet from before the oldest block, once a block has been finished.
  ghost predicate IsLate(d: u32, events: seq<Event>, m: nat) {
    m < |events| && IsAudio(events[m]) &&
    var w := Run(Begin(d), events[..m]);
    BlockFinished(w) && (AudioPosition(events[m]) - w.oldest) % 0x1_0000 >= 0x8000
  }

  // Event k is an audio packet in time that finds the late packet m half the number space or more behind.
  ghost predicate Forgets(d: u32, events: seq<Event>, m: nat, k: nat) {
    m < |events| && k < |events| && IsAudio(events[m]) && IsAudio(events[k]) && !IsLate(d, events, k) &&
    (Run(Begin(d), events[..k]).oldest - AudioPosition(events[m])) % 0x1_0000 >= 0x8000
  }

  // The last late packet, not forgotten since.
  ghost predicate Remembered(d: u32, events: seq<Event>, m: nat) {
    IsLate(d, events, m) && forall k :: m < k < |events| ==> !IsLate(d, events, k) && !Forgets(d, events, m, k)
  }

  // Within the window, late means from before the oldest block.
  lemma LateIsEarlier(d: u32, events: seq<Event>, m: nat)
    requires m < |events| && IsAudio(events[m])
    requires
      var oldest := Run(Begin(d), events[..m]).oldest;
      -0x8000 <= AudioPosition(events[m]) - oldest < 0x8000
    ensures
      var w := Run(Begin(d), events[..m]);
      IsLate(d, events, m) <==> BlockFinished(w) && AudioPosition(events[m]) < w.oldest
  {
    hide Run, BlockFinished;
  }

  lemma PrefixAgrees(d: u32, events: seq<Event>, n: nat, m: nat, k: nat)
    requires m < n && k < n && n < |events|
    ensures IsLate(d, events, m) <==> IsLate(d, events[..n], m)
    ensures Forgets(d, events, m, k) <==> Forgets(d, events[..n], m, k)
  {
    hide Run, BlockFinished;
    assert events[..n][..m] == events[..m] && events[..n][..k] == events[..k];
  }

  lemma StillAnEvent(d: u32, events: seq<Event>, m: nat)
    requires Remembered(d, events, m)
    ensures m < |events|
  {}

  lemma RememberedNext(d: u32, events: seq<Event>)
    requires events != []
    ensures
      var n := |events| - 1;
      (Remembered(d, events, n) <==> IsLate(d, events, n)) && (forall m: nat :: Remembered(d, events, m) ==> m <= n) &&
      forall m: nat :: m < n ==>
        (Remembered(d, events, m) <==> Remembered(d, events[..n], m) && !IsLate(d, events, n) && !Forgets(d, events, m, n))
  {
    hide IsLate, Forgets;
    var n := |events| - 1;
    forall m: nat | Remembered(d, events, m)
      ensures m <= n
    {
      StillAnEvent(d, events, m);
    }
    forall m: nat, k: nat | m < n && k < n
      ensures IsLate(d, events, m) <==> IsLate(d, events[..n], m)
      ensures Forgets(d, events, m, k) <==> Forgets(d, events[..n], m, k)
      ensures IsLate(d, events, k) <==> IsLate(d, events[..n], k)
    {
      PrefixAgrees(d, events, n, m, k);
      PrefixAgrees(d, events, n, k, m);
    }
  }

  ghost predicate FlagIsHistory(d: u32, events: seq<Event>) {
    var q := Run(Begin(d), events).q;
    (!q.initialized ==> !q.receivedOutOfOrder) && (q.synchronizing <==> !BlockFinished(Run(Begin(d), events))) &&
    (q.receivedOutOfOrder <==> exists m: nat :: Remembered(d, events, m)) &&
    forall m: nat :: Remembered(d, events, m) ==> AudioPosition(events[m]) % 0x1_0000 == q.lastOutOfOrder
  }

  lemma SynchronizingStep(w: World, e: Event)
    requires WorldInv(w) && w.q.Shaped() && (w.q.synchronizing <==> !BlockFinished(w))
    ensures Step(w, e).q.synchronizing <==> !BlockFinished(Step(w, e))
  {
    hide Wrap16, Inv, Numbering, Tracked, Accounted, Ordered, AddPacket, DequeueReady, IsRecorded, Recorded, Overdue, HeadLacks;
    WorldHasInv(w);
    match e
    case Arrive(p, position, now) =>
      LatenessIsExact(w.q, p, now);
    case Poll(now) =>
      PollIsExact(w.q, now);
      var r := Polled(w, now);
      if r.emitted != w.emitted {
        WorldIsStarted(w);
        HeadPosition(w);
        assert r.emitted[|w.emitted|].position == Position(w, w.q.blocks[0]) + w.q.blocks[0].nextDataIndex;
        assert forall i :: 0 <= i < |w.emitted| ==> r.emitted[i] == w.emitted[i];
      }
  }

  lemma WorldIsStarted(w: World)
    requires WorldInv(w) && w.q.blocks != []
    ensures w.q.initialized
  {}

  // What the flag and the remembered number do in a step, in positions.
  lemma FlagStep(w: World, e: Event)
    requires WorldInv(w) && w.q.Shaped() && w.q.initialized
    requires IsAudio(e) ==> AudioPosition(e) % 0x1_0000 == e.packet.rtp.sequenceNumber
    ensures
      var r := Step(w, e);
      r.q.initialized &&
      if !IsAudio(e) then
        r.q.receivedOutOfOrder == w.q.receivedOutOfOrder && r.q.lastOutOfOrder == w.q.lastOutOfOrder
      else if !w.q.synchronizing && (AudioPosition(e) - w.oldest) % 0x1_0000 >= 0x8000 then
        r.q.receivedOutOfOrder && r.q.lastOutOfOrder == AudioPosition(e) % 0x1_0000
      else
        r.q.lastOutOfOrder == w.q.lastOutOfOrder &&
        (r.q.receivedOutOfOrder <==> w.q.receivedOutOfOrder && (w.oldest - w.q.lastOutOfOrder) % 0x1_0000 < 0x8000)
  {
    hide AddPacket, DequeueReady, Inv, IsRecorded, Recorded, Tracked, Accounted, Ordered, Overdue, HeadLacks;
    WorldHasInv(w);
    match e
    case Arrive(p, position, now) =>
      LatenessIsExact(w.q, p, now);
      AddPacketFacts(w.q, p, now);
      if p.Audio? {
        SerialIsPosition(AudioPosition(e), w.oldest);
        SerialIsPosition(w.oldest, w.q.lastOutOfOrder);
      }
    case Poll(now) =>
      PollIsExact(w.q, now);
      PollingKeepsWorld(w, now);
  }

  lemma StartIsPunctual(w: World, e: Event)
    requires WorldInv(w) && w.q.Shaped() && !w.q.initialized && w.q.synchronizing && !w.q.receivedOutOfOrder
    ensures !Step(w, e).q.receivedOutOfOrder
  {
    hide AddPacket, DequeueReady, Inv, IsRecorded, Recorded, Overdue, HeadLacks;
    WorldHasInv(w);
    match e
    case Arrive(p, position, now) => LatenessIsExact(w.q, p, now);
    case Poll(now) => PollIsExact(w.q, now);
  }

  // The flag is up exactly while a late packet is remembered.
  lemma {:induction false} LatenessOverRuns(d: u32, events: seq<Event>)
    requires AllNumbered(d, events) && AudioNumbered(events)
    ensures FlagIsHistory(d, events)
  {
    hide Run, WorldInv, BlockFinished, Forgets, Remembered, Numbered, Step, IsLate;
    if events == [] {
      StartIsUnflagged(d);
    } else {
      var n := |events| - 1;
      LatenessOverRuns(d, events[..n]);
      RunKeepsWorld(d, events[..n]);
      RunNext(d, events);
      RememberedNext(d, events);
      var w := Run(Begin(d), events[..n]);
      SynchronizingStep(w, events[n]);
      LastIsLate(d, events);
      if w.q.initialized {
        FlagStep(w, events[n]);
        forall m: nat | m < n && Remembered(d, events[..n], m)
          ensures Forgets(d, events, m, n) <==>
            IsAudio(events[n]) && !IsLate(d, events, n) && (w.oldest - w.q.lastOutOfOrder) % 0x1_0000 >= 0x8000
        {
          LastForgets(d, events, m);
        }
        if w.q.receivedOutOfOrder {
          var m: nat :| Remembered(d, events[..n], m);
          StillAnEvent(d, events[..n], m);
          assert Remembered(d, events, m) <==> !IsLate(d, events, n) && !Forgets(d, events, m, n);
        }
        if IsLate(d, events, n) {
          assert Remembered(d, events, n);
        }
        assert forall m: nat :: Remembered(d, events, m) && m < n ==> Remembered(d, events[..n], m);
      } else {
        UnstartedIsUnfinished(w);
        StartIsPunctual(w, events[n]);
      }
    }
  }

  lemma UnstartedIsUnfinished(w: World)
    requires WorldInv(w) && !w.q.initialized
    ensures !BlockFinished(w)
  {}

  lemma StartIsUnflagged(d: u32)
    ensures FlagIsHistory(d, [])
  {}

  lemma LastIsLate(d: u32, events: seq<Event>)
    requires events != [] && AllNumbered(d, events)
    ensures
      var n := |events| - 1;
      var w := Run(Begin(d), events[..n]);
      (IsLate(d, events, n) <==>
        IsAudio(events[n]) && BlockFinished(w) && (AudioPosition(events[n]) - w.oldest) % 0x1_0000 >= 0x8000) &&
      (IsLate(d, events, n) ==> w.q.initialized)
  {
    hide Run, Inv, Numbering, Tracked, Accounted, Ordered, Numbered;
    RunKeepsWorld(d, events[..|events| - 1]);
  }

  lemma LastForgets(d: u32, events: seq<Event>, m: nat)
    requires events != [] && m < |events| - 1 && Remembered(d, events[..|events| - 1], m)
    requires AudioPosition(events[m]) % 0x1_0000 == Run(Begin(d), events[..|events| - 1]).q.lastOutOfOrder
    ensures
      var n := |events| - 1;
      var w := Run(Begin(d), events[..n]);
      Forgets(d, events, m, n) <==>
        IsAudio(events[n]) && !IsLate(d, events, n) && (w.oldest - w.q.lastOutOfOrder) % 0x1_0000 >= 0x8000
  {
    hide Run, BlockFinished;
    var n := |events| - 1;
    SerialIsPosition(Run(Begin(d), events[..n]).oldest, AudioPosition(events[m]));
  }

  lemma SerialIsPosition(x: int, y: int)
    ensures (x - y % 0x1_0000) % 0x1_0000 == (x - y) % 0x1_0000
    ensures ((x % 0x1_0000) - (y % 0x1_0000)) % 0x1_0000 == (x - y) % 0x1_0000
  {}

  // While a late packet is remembered, a head block that was first heard of recently is waited for.
  lemma RecentHeadIsAwaited(d: u32, events: seq<Event>, m: nat, now: nat)
    requires AllNumbered(d, events) && AudioNumbered(events) && Remembered(d, events, m)
    ensures
      var w := Run(Begin(d), events);
      w.q.Shaped() && (HeadLacks(w.q) && !GivenUp(w.q) ==>
        var first := FirstHeard(d, events, Position(w, w.q.blocks[0]));
        first.Some? && (now - first.value <= (4 * d + 10) * 1_000_000 ==> DequeueReady(w.q, now).1.None?))
  {
    hide Run, DequeueReady, Inv, Remembered, FirstHeard, Numbering, Tracked, Accounted, Ordered;
    LatenessOverRuns(d, events);
    WaitIsExact(d, events, now);
    RunKeepsWorld(d, events);
    WorldIsStartedIf(Run(Begin(d), events));
  }

  lemma WorldIsStartedIf(w: World)
    requires WorldInv(w)
    ensures w.q.Shaped() && (HeadLacks(w.q) ==> w.q.initialized)
  {}

  // ---------- Where the stream begins ----------

  // The packet of this event is one the queue can begin with.
  ghost predicate Begins(e: Event) {
    e.Arrive? && WellFormed(e.packet)
  }

  lemma StepBegins(w: World, e: Event)
    requires WorldInv(w) && w.q.Shaped() && !w.q.initialized
    ensures
      var r := Step(w, e);
      (r.q.initialized <==> Begins(e)) && r.q.blocks == [] && r.emitted == [] && r.arrived == {} &&
      (Begins(e) ==> r.start == r.oldest == e.blockPosition + 4)
  {
    hide BlockInv, AddPacket, DequeueReady, IsRecorded, Recorded, Wanted, WellFormed;
    match e
    case Poll(now) => EmptyPollKeeps(w, now);
    case Arrive(p, position, now) =>
      RefusalIsExact(w.q, p, now);
      AddPacketFacts(w.q, p, now);
  }

  lemma {:induction false} NothingBegins(d: u32, events: seq<Event>)
    requires AllNumbered(d, events) && forall i :: 0 <= i < |events| ==> !Begins(events[i])
    ensures !Run(Begin(d), events).q.initialized && Run(Begin(d), events).emitted == []
  {
    hide Step, WorldInv, Begins, Numbered;
    if events != [] {
      var n := |events| - 1;
      NothingBegins(d, events[..n]);
      RunKeepsWorld(d, events[..n]);
      StepBegins(Run(Begin(d), events[..n]), events[n]);
    }
  }

  // The stream begins with the block after that of the first well-formed packet, whatever its number: until then nothing comes
  // out, and afterwards nothing from before that place.
  lemma StreamBegins(d: u32, events: seq<Event>, m: nat)
    requires AllNumbered(d, events) && m < |events| && Begins(events[m]) && forall i :: 0 <= i < m ==> !Begins(events[i])
    ensures Run(Begin(d), events[..m]).emitted == []
    ensures
      var w := Run(Begin(d), events);
      w.q.initialized && w.start == events[m].blockPosition + 4 &&
      forall i :: 0 <= i < |w.emitted| ==> w.emitted[i].position >= events[m].blockPosition + 4
  {
    hide Step, Inv, Begins, Numbered, Numbering, Tracked, Accounted, Run;
    NothingBegins(d, events[..m]);
    RunKeepsWorld(d, events[..m]);
    assert events[..m + 1][..m] == events[..m];
    RunNext(d, events[..m + 1]);
    StepBegins(Run(Begin(d), events[..m]), events[m]);
    ArrivalsStay(d, events, m + 1);
    RunKeepsWorld(d, events);
  }
}
