/** The receiving end of a stream: datagrams go in, and after each one every frame that is ready comes out. Draining
    terminates, and any play of a sender's datagrams delivers what was pushed. */
module Depacketizer {

  import opened Wrappers
  import opened Modular
  import opened AudioFec
  import opened Protocol
  import opened QueueModel
  import opened QueueInvariant
  import opened QueueEffects
  import opened Receiver

  datatype Failure = Malformed(reason: ProtocolError) | Rejected(cause: ReceiveError)

  datatype Endpoint = Endpoint(queue: Queue, packetsToDrop: u32, receivedPacket: bool)

  // Whole packet durations in the initial drop; none when the duration is zero.
  function InitialDrops(packetDurationMs: u32, initialDropMs: u32): u32 {
    if packetDurationMs == 0 then 0 else DropsNeeded(initialDropMs, packetDurationMs)
  }

  function DropsNeeded(total: u32, each: u32): (r: u32)
    requires each > 0
    ensures r * each <= total < (r + 1) * each
  {
    var r: int := total / each;
    DivMod(total, each);
    QuotientBounds(total, each, r);
    r
  }

  lemma QuotientBounds(total: nat, each: nat, r: int)
    requires each > 0 && r * each <= total < r * each + each
    ensures 0 <= r <= total && total < (r + 1) * each
  {
    assert (r + 1) * each == r * each + each;
    if r < 0 {
      MulAtLeast(-r, each);
    } else {
      MulMonotone(1, each, r);
      assert r * each == each * r;
    }
  }

  // ---------- Draining ----------

  lemma OutstandingHead(blocks: seq<FecBlock>)
    requires blocks != []
    ensures Outstanding(blocks) == DATA_SHARDS - blocks[0].nextDataIndex + Outstanding(blocks[1..])
  {
    if |blocks| > 1 {
      var n := |blocks| - 1;
      OutstandingHead(blocks[..n]);
      assert blocks[..n][1..] == blocks[1..][..n - 1];
      assert blocks[1..][n - 1] == blocks[n];
    }
  }

  lemma OutstandingNat(blocks: seq<FecBlock>)
    requires forall i :: 0 <= i < |blocks| ==> blocks[i].nextDataIndex < DATA_SHARDS
    ensures Outstanding(blocks) >= 0
  {}

  // Every frame that comes out brings the end of the draining nearer.
  lemma FrameIsProgress(q: Queue, now: nat)
    requires Inv(q)
    ensures q.Shaped() && Inv(DequeueReady(q, now).0)
    ensures DequeueReady(q, now).1.Some? ==> 0 <= Outstanding(DequeueReady(q, now).0.blocks) < Outstanding(q.blocks)
  {
    hide BlockInv, DequeueReady, Wrap16, Window, OnlyHeadInProgress;
    InvShaped(q);
    var (r, frame) := DequeueReady(q, now);
    if frame.Some? {
      PollYields(q, now);
      OutstandingHead(q.blocks);
      if q.blocks[0].nextDataIndex != 3 {
        OutstandingHead(r.blocks);
      }
      InvShaped(r);
      OutstandingNat(r.blocks);
    } else {
      PollWaits(q, now);
    }
  }

  // What is left and what comes out when frames are dequeued until none is ready. The k-th attempt reads the clock as
  // clock(k).
  ghost function Drained(q: Queue, clock: nat -> nat, k: nat): (r: (Queue, seq<Frame>))
    requires Inv(q)
    ensures Inv(r.0)
    decreases Outstanding(q.blocks)
  {
    hide Inv, DequeueReady, Outstanding;
    FrameIsProgress(q, clock(k));
    var (rest, frame) := DequeueReady(q, clock(k));
    if frame.None? then (rest, []) else
      var (last, frames) := Drained(rest, clock, k + 1);
      (last, [frame.value] + frames)
  }

  // Draining stops only when the next frame is not there and its block has neither been given up on nor may be: at most one block
  // is queued, or a late packet was noticed and the head block is recent.
  lemma {:induction false} DrainingStops(q: Queue, clock: nat -> nat, k: nat)
    requires Inv(q)
    ensures
      var (r, frames) := Drained(q, clock, k);
      |r.blocks| <= 1 ||
      (r.receivedOutOfOrder && clock(k + |frames|) - r.blocks[0].queueTime <= RecoveryWindow(r.packetDurationMs))
    ensures
      var (r, frames) := Drained(q, clock, k);
      r.Shaped() && !GivenUp(r) && (r.blocks != [] ==> HeadLacks(r)) && !Overdue(r, clock(k + |frames|))
    decreases Outstanding(q.blocks)
  {
    hide Inv, DequeueReady, Outstanding, RecoveryWindow, Overdue, HeadLacks;
    FrameIsProgress(q, clock(k));
    var (rest, frame) := DequeueReady(q, clock(k));
    if frame.Some? {
      DrainingStops(rest, clock, k + 1);
    } else {
      PollWaits(q, clock(k));
      WaitingKeepsLateness(q, clock(k));
      WaitingLacks(q, clock(k));
    }
  }

  lemma WaitingLacks(q: Queue, now: nat)
    requires Inv(q) && q.Shaped() && DequeueReady(q, now).1.None?
    ensures
      var r := DequeueReady(q, now).0;
      r.Shaped() && !GivenUp(r) && (r.blocks != [] ==> HeadLacks(r)) && !Overdue(r, now)
  {
    hide BlockInv, Wrap16, DequeueReady;
    PollIsExact(q, now);
    PollWaits(q, now);
    WaitingKeepsLateness(q, now);
    InvShaped(DequeueReady(q, now).0);
  }

  lemma WaitingKeepsLateness(q: Queue, now: nat)
    requires Inv(q) && q.Shaped() && DequeueReady(q, now).1.None?
    ensures DequeueReady(q, now).0.receivedOutOfOrder == q.receivedOutOfOrder
    ensures DequeueReady(q, now).0.packetDurationMs == q.packetDurationMs
  {
    hide BlockInv, Wrap16, IsBefore16, Advance;
    PollDivides(q, now);
    SettledFacts(q, now);
  }

  // A queue that says it is ready yields a frame: the final checks of a dequeue never turn it into a wait.
  lemma ReadyYields(q: Queue, now: nat)
    requires Inv(q) && q.Shaped() && Ready(q)
    ensures DequeueReady(q, now).1.Some?
  {
    hide BlockInv, Wrap16, Advance;
    ReadyHeadIsOldest(q);
  }

  // ---------- The endpoint on values ----------

  ghost function AfterDatagram(e: Endpoint, datagram: Bytes, clock: nat -> nat): (r: (Endpoint, Result<seq<Frame>, Failure>))
    requires Inv(e.queue)
    ensures Inv(r.0.queue)
  {
    hide Inv, ParseDatagram, AddPacket;
    InvShaped(e.queue);
    match ParseDatagram(datagram)
    case Err(reason) => (e, Err(Malformed(reason)))
    case Ok(p) =>
      var e := e.(receivedPacket := true);
      if e.packetsToDrop > 0 then (e.(packetsToDrop := e.packetsToDrop - if p.Audio? then 1 else 0), Ok([])) else
        AddPacketFacts(e.queue, p, clock(0));
        match AddPacket(e.queue, p, clock(0))
        case (queue, Err(cause)) => (e.(queue := queue), Err(Rejected(cause)))
        case (queue, Ok(_)) =>
          var (rest, frames) := Drained(queue, clock, 1);
          (e.(queue := rest), Ok(frames))
  }

  ghost function AfterTimeout(e: Endpoint, clock: nat -> nat): (r: (Endpoint, seq<Frame>))
    requires Inv(e.queue)
    ensures Inv(r.0.queue)
  {
    hide Inv;
    var (rest, frames) := Drained(e.queue, clock, 0);
    (e.(queue := rest, packetsToDrop := if e.receivedPacket then 0 else e.packetsToDrop), frames)
  }

  class AudioDepacketizer {
    const queue: RtpAudioQueue
    var packetsToDrop: u32
    var receivedPacket: bool

    ghost function State(): Endpoint
      reads this, queue
    {
      Endpoint(queue.State(), packetsToDrop, receivedPacket)
    }

    ghost predicate Valid()
      reads this, queue
    {
      Inv(queue.State())
    }

    constructor (packetDurationMs: u32, initialDropMs: u32)
      ensures Valid() && fresh(queue)
      ensures State() == Endpoint(NewQueue(packetDurationMs), InitialDrops(packetDurationMs, initialDropMs), false)
    {
      InitialInv(packetDurationMs);
      queue := new RtpAudioQueue(packetDurationMs);
      packetsToDrop := if packetDurationMs == 0 then 0 else DropsNeeded(initialDropMs, packetDurationMs);
      receivedPacket := false;
    }

    method PushDatagram(datagram: Bytes, clock: nat -> nat) returns (r: Result<seq<Frame>, Failure>)
      requires Valid()
      modifies this, queue
      ensures (State(), r) == AfterDatagram(old(State()), datagram, clock)
      ensures Valid()
    {
      hide Inv, ParseDatagram, AddPacket, Drained;
      InvShaped(queue.State());
      var parsed := ParseDatagram(datagram);
      if parsed.Err? {
        return Err(Malformed(parsed.error));
      }
      receivedPacket := true;
      if packetsToDrop > 0 {
        if parsed.value.Audio? {
          packetsToDrop := packetsToDrop - 1;
        }
        return Ok([]);
      }
      AddPacketFacts(queue.State(), parsed.value, clock(0));
      var added := queue.AddPacket(parsed.value, clock(0));
      if added.Err? {
        return Err(Rejected(added.error));
      }
      var frames := DrainReady(clock, 1);
      return Ok(frames);
    }

    method ReceiveTimeout(clock: nat -> nat) returns (frames: seq<Frame>)
      requires Valid()
      modifies this, queue
      ensures (State(), frames) == AfterTimeout(old(State()), clock)
      ensures Valid()
    {
      hide Inv, Drained;
      if receivedPacket {
        packetsToDrop := 0;
      }
      frames := DrainReady(clock, 0);
    }

    method DrainReady(clock: nat -> nat, first: nat) returns (ready: seq<Frame>)
      requires Valid()
      modifies queue
      ensures (queue.State(), ready) == Drained(old(queue.State()), clock, first)
      ensures Valid()
    {
      hide Inv, DequeueReady, Outstanding;
      ready := [];
      var k := first;
      while true
        invariant Valid()
        invariant Drained(old(queue.State()), clock, first).0 == Drained(queue.State(), clock, k).0
        invariant Drained(old(queue.State()), clock, first).1 == ready + Drained(queue.State(), clock, k).1
        decreases Outstanding(queue.blocks)
      {
        FrameIsProgress(queue.State(), clock(k));
        var frame := queue.DequeueReady(clock(k));
        if frame.None? {
          assert ready + [] == ready;
          break;
        }
        ready := ready + [frame.value];
        k := k + 1;
      }
    }
  }
}
