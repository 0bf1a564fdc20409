/** From the datagrams a packetizer writes to the frames a depacketizer hands out. Whatever subset of the datagrams is
    delivered, in whatever order and however often, the frames that come out are the frames that were pushed. */
module Transport {

  import opened AudioFec
  import opened Protocol
  import opened Sender
  import opened QueueModel
  import opened QueueInvariant
  import opened Delivery
  import opened EndToEnd
  import opened Depacketizer

  // For a datagram, position is where its block lies in the stream.
  datatype Action =
    | Deliver(datagram: Bytes, position: nat, clock: nat -> nat)
    | Timeout(clock: nat -> nat)

  // A receiving endpoint, the world around its queue, and the frames it has handed out.
  datatype Session = Session(endpoint: Endpoint, world: World, out: seq<Frame>)
  {
    ghost predicate Linked() {
      Inv(endpoint.queue) && world.q == endpoint.queue
    }
  }

  function Frames(es: seq<Emission>): (r: seq<Frame>)
    ensures |r| == |es| && forall i :: 0 <= i < |es| ==> r[i] == es[i].frame
  {
    seq(|es|, i requires 0 <= i < |es| => es[i].frame)
  }

  // ---------- Draining is polling ----------

  ghost function Flushed(w: World, clock: nat -> nat, k: nat): (r: World)
    requires Inv(w.q)
    ensures Inv(r.q) && r.q == Drained(w.q, clock, k).0
    decreases Outstanding(w.q.blocks)
  {
    hide Inv, DequeueReady, Outstanding;
    FrameIsProgress(w.q, clock(k));
    var r := Polled(w, clock(k));
    if DequeueReady(w.q, clock(k)).1.None? then r else Flushed(r, clock, k + 1)
  }

  lemma {:induction false} FlushedFrames(w: World, clock: nat -> nat, k: nat)
    requires Inv(w.q)
    ensures Frames(Flushed(w, clock, k).emitted) == Frames(w.emitted) + Drained(w.q, clock, k).1
    decreases Outstanding(w.q.blocks)
  {
    hide Inv, DequeueReady, Outstanding;
    FrameIsProgress(w.q, clock(k));
    var (rest, frame) := DequeueReady(w.q, clock(k));
    var r := Polled(w, clock(k));
    if frame.Some? {
      FlushedFrames(r, clock, k + 1);
      FrameNeedsBlock(w.q, clock(k));
      assert Frames(r.emitted) == Frames(w.emitted) + [frame.value];
    }
  }

  lemma FrameNeedsBlock(q: Queue, now: nat)
    requires Inv(q) && q.Shaped() && DequeueReady(q, now).1.Some?
    ensures q.blocks != []
  {
    hide Inv, DequeueReady;
    PollYields(q, now);
  }

  lemma {:induction false} FlushingKeepsHonest(w: World, clock: nat -> nat, k: nat, s: Stream)
    requires WorldInv(w) && Inv(w.q) && Honest(w, s)
    ensures WorldInv(Flushed(w, clock, k)) && Honest(Flushed(w, clock, k), s)
    decreases Outstanding(w.q.blocks)
  {
    hide Inv, WorldInv, Honest, DequeueReady, Outstanding;
    FrameIsProgress(w.q, clock(k));
    PollingKeepsWorld(w, clock(k));
    PollingKeepsHonest(w, clock(k), s);
    if DequeueReady(w.q, clock(k)).1.Some? {
      FlushingKeepsHonest(Polled(w, clock(k)), clock, k + 1, s);
    }
  }

  // ---------- One action of the outside world ----------

  ghost function Served(w: World, e: Endpoint, a: Action): (r: World)
    requires Inv(w.q)
    ensures Inv(r.q)
  {
    hide Inv, ParseDatagram, AddPacket;
    InvShaped(w.q);
    match a
    case Timeout(clock) => Flushed(w, clock, 0)
    case Deliver(datagram, position, clock) =>
      match ParseDatagram(datagram)
      case Err(_) => w
      case Ok(p) =>
        if e.packetsToDrop > 0 then w else
          AddPacketFacts(w.q, p, clock(0));
          ArrivedQueue(w, p, position, clock(0));
          var r := Arrived(w, p, position, clock(0));
          if AddPacket(w.q, p, clock(0)).1.Err? then r else Flushed(r, clock, 1)
  }

  lemma ArrivedQueue(w: World, p: ParsedPacket, position: nat, now: nat)
    requires w.q.Shaped()
    ensures Arrived(w, p, position, now).q == AddPacket(w.q, p, now).0
  {
    hide AddPacket, IsRecorded;
  }

  ghost function Exchange(t: Session, a: Action): (r: Session)
    requires t.Linked()
    ensures r.Linked()
  {
    hide Inv, ParseDatagram, AddPacket, Drained, Flushed, Arrived;
    InvShaped(t.world.q);
    if a.Deliver? && ParseDatagram(a.datagram).Ok? then
      ArrivedQueue(t.world, ParseDatagram(a.datagram).value, a.position, a.clock(0));
      var (endpoint, result) := AfterDatagram(t.endpoint, a.datagram, a.clock);
      Session(endpoint, Served(t.world, t.endpoint, a), t.out + if result.Ok? then result.value else [])
    else if a.Deliver? then Session(AfterDatagram(t.endpoint, a.datagram, a.clock).0, t.world, t.out)
    else
      var (endpoint, frames) := AfterTimeout(t.endpoint, a.clock);
      Session(endpoint, Served(t.world, t.endpoint, a), t.out + frames)
  }

  // ---------- Datagrams of one sender ----------

  // One of the datagrams the packetizer wrote when it was given frame n.
  ghost predicate WrittenFor(s: Stream, n: nat, p: ParsedPacket, datagram: Bytes) {
    n < |s.frames| && p in SentPackets(s, n) && datagram == PacketBytes(s, n, p)
  }

  ghost predicate IsWritten(s: Stream, n: nat, datagram: Bytes) {
    exists p :: WrittenFor(s, n, p, datagram)
  }

  // Each datagram that PushEncodedFrame returns for the last frame of a stream is written for that frame, whatever is pushed
  // afterwards.
  lemma EmittedIsWritten(s: Stream, later: seq<Bytes>, datagrams: seq<Bytes>)
    requires s.frames != []
    requires
      var packets := SentPackets(s, |s.frames| - 1);
      |datagrams| == |packets| &&
      forall i :: 0 <= i < |packets| ==> datagrams[i] == PacketBytes(s, |s.frames| - 1, packets[i])
    ensures forall i :: 0 <= i < |datagrams| ==> IsWritten(s.(frames := s.frames + later), |s.frames| - 1, datagrams[i])
  {
    hide SentPackets;
    var n, longer := |s.frames| - 1, s.(frames := s.frames + later);
    SentPacketsAreStable(s, later, n);
    forall i | 0 <= i < |datagrams|
      ensures IsWritten(longer, n, datagrams[i])
    {
      assert WrittenFor(longer, n, SentPackets(longer, n)[i], datagrams[i]);
    }
  }

  ghost predicate HonestAction(s: Stream, w: World, a: Action) {
    a.Deliver? ==>
      InWindow(w, a.position) &&
      exists n: nat :: IsWritten(s, n, a.datagram) && a.position == n - n % DATA_SHARDS
  }

  // Empty frames, and the parity of empty frames, are refused by the receiver.
  lemma EmptyIsRefused(s: Stream, n: nat, p: ParsedPacket)
    requires n < |s.frames| && p in SentPackets(s, n) && p.payload == []
    ensures ParseDatagram(PacketBytes(s, n, p)).Err?
  {
    match p
    case Audio(rtp, payload) =>
      assert PacketBytes(s, n, p)[RTP_HEADER_LEN..] == [];
    case Fec(fec, payload) =>
      var rtp := ParityRtp(s, n - n % DATA_SHARDS, fec.fecShardIndex);
      var packet := PacketBytes(s, n, p);
      assert packet == RtpBytes(rtp) + FecHeaderBytes(fec);
      RtpRoundTrip(rtp, FecHeaderBytes(fec));
  }

  // A sender's datagram that parses is a packet sent for its block.
  lemma HonestDatagram(s: Stream, w: World, a: Action)
    requires HonestAction(s, w, a) && a.Deliver? && ParseDatagram(a.datagram).Ok?
    ensures SentFor(s, a.position, ParseDatagram(a.datagram).value)
  {
    hide ParseDatagram, SentPackets, PacketBytes, SentFor;
    var n: nat :| IsWritten(s, n, a.datagram) && a.position == n - n % DATA_SHARDS;
    var p :| WrittenFor(s, n, p, a.datagram);
    if p.payload == [] {
      EmptyIsRefused(s, n, p);
    } else {
      SentPacketParses(s, n, p);
      SentPacketsAreSentFor(s, n, p);
    }
  }

  ghost predicate Faithful(t: Session, s: Stream) {
    WorldInv(t.world) && Honest(t.world, s) && t.out == Frames(t.world.emitted)
  }

  lemma ExchangeKeepsFaithful(t: Session, a: Action, s: Stream)
    requires t.Linked() && Faithful(t, s) && HonestAction(s, t.world, a)
    ensures Faithful(Exchange(t, a), s)
  {
    hide Inv, ParseDatagram, AddPacket, Drained, Flushed, Arrived, WorldInv, Honest;
    InvShaped(t.world.q);
    match a
    case Timeout(clock) =>
      FlushingKeepsHonest(t.world, clock, 0, s);
      FlushedFrames(t.world, clock, 0);
    case Deliver(datagram, position, clock) =>
      if ParseDatagram(datagram).Ok? && t.endpoint.packetsToDrop == 0 {
        var p := ParseDatagram(datagram).value;
        HonestDatagram(s, t.world, a);
        ArrivalKeepsFaithful(t.world, p, position, clock, s);
      }
  }

  lemma ArrivalKeepsFaithful(w: World, p: ParsedPacket, position: nat, clock: nat -> nat, s: Stream)
    requires Inv(w.q) && WorldInv(w) && Honest(w, s) && SentFor(s, position, p) && InWindow(w, position)
    ensures w.q.Shaped() && Inv(AddPacket(w.q, p, clock(0)).0)
    ensures
      var r := Arrived(w, p, position, clock(0));
      r.q == AddPacket(w.q, p, clock(0)).0 && WorldInv(r) && Honest(r, s) && r.emitted == w.emitted &&
      WorldInv(Flushed(r, clock, 1)) && Honest(Flushed(r, clock, 1), s) &&
      Frames(Flushed(r, clock, 1).emitted) == Frames(w.emitted) + Drained(r.q, clock, 1).1
  {
    hide Inv, AddPacket, Drained, Flushed, Arrived, WorldInv, Honest, Numbered, SentFor;
    InvShaped(w.q);
    HonestDuration(w, s);
    HonestEventIsNumbered(s, w, Arrive(p, position, clock(0)));
    ArrivingKeepsWorld(w, p, position, clock(0));
    ArrivingKeepsHonest(w, p, position, clock(0), s);
    AddPacketFacts(w.q, p, clock(0));
    ArrivedQueue(w, p, position, clock(0));
    ArrivedEmits(w, p, position, clock(0));
    FlushingKeepsHonest(Arrived(w, p, position, clock(0)), clock, 1, s);
    FlushedFrames(Arrived(w, p, position, clock(0)), clock, 1);
  }

  // ---------- Every play ----------

  function Opened(packetDurationMs: u32, initialDropMs: u32): Session {
    Session(Endpoint(NewQueue(packetDurationMs), InitialDrops(packetDurationMs, initialDropMs), false),
            Begin(packetDurationMs), [])
  }

  ghost function Play(t: Session, actions: seq<Action>): (r: Session)
    requires t.Linked()
    ensures r.Linked()
  {
    if actions == [] then t else Exchange(Play(t, actions[..|actions| - 1]), actions[|actions| - 1])
  }

  ghost predicate HonestPlay(s: Stream, t: Session, actions: seq<Action>)
    requires t.Linked()
  {
    forall n :: 0 <= n < |actions| ==> HonestAction(s, Play(t, actions[..n]).world, actions[n])
  }

  lemma {:induction false} PlayIsFaithful(s: Stream, t: Session, actions: seq<Action>)
    requires t.Linked() && Faithful(t, s) && HonestPlay(s, t, actions)
    ensures Faithful(Play(t, actions), s)
  {
    hide Faithful, HonestAction, Exchange, Session.Linked;
    if actions != [] {
      var n := |actions| - 1;
      assert forall k :: 0 <= k < n ==> actions[..n][..k] == actions[..k];
      PlayIsFaithful(s, t, actions[..n]);
      ExchangeKeepsFaithful(Play(t, actions[..n]), actions[n], s);
    }
  }

  // From bytes to frames: for every stream, every initial drop, every loss, duplication and reordering of the sender's
  // datagrams within the window, every pattern of timeouts and every clock, the frames handed out are the frames of the
  // world's emissions, each at its own strictly later place in the stream, with the bytes that were pushed there.
  lemma PlayedAsPushed(s: Stream, initialDropMs: u32, actions: seq<Action>)
    ensures Opened(s.packetDurationMs, initialDropMs).Linked()
    ensures
      HonestPlay(s, Opened(s.packetDurationMs, initialDropMs), actions) ==>
        var t := Play(Opened(s.packetDurationMs, initialDropMs), actions);
        t.out == Frames(t.world.emitted) && AsSent(t.world, s)
  {
    hide AsSent, HonestPlay, Play;
    var t := Opened(s.packetDurationMs, initialDropMs);
    InitialInv(s.packetDurationMs);
    BeginInv(s.packetDurationMs);
    if HonestPlay(s, t, actions) {
      PlayIsFaithful(s, t, actions);
      HonestIsAsSent(Play(t, actions).world, s);
    }
  }
}
