/** The start-up window of the receiving end: which datagrams are swallowed, over every play. */
module Startup {

  import opened Wrappers
  import opened Protocol
  import opened QueueModel
  import opened QueueInvariant
  import opened QueueEffects
  import opened Delivery
  import opened Depacketizer
  import opened Transport

  // A datagram that parses, and one that parses as audio.
  predicate IsValid(a: Action) {
    a.Deliver? && ParseDatagram(a.datagram).Ok?
  }

  predicate IsValidAudio(a: Action) {
    IsValid(a) && ParseDatagram(a.datagram).value.Audio?
  }

  ghost function AudioCount(actions: seq<Action>): nat {
    if actions == [] then 0
    else AudioCount(actions[..|actions| - 1]) + if IsValidAudio(actions[|actions| - 1]) then 1 else 0
  }

  ghost predicate AnyValid(actions: seq<Action>) {
    exists i :: 0 <= i < |actions| && IsValid(actions[i])
  }

  // A timeout after a valid datagram.
  ghost predicate BacklogIsOver(actions: seq<Action>) {
    exists j :: 0 <= j < |actions| && actions[j].Timeout? && AnyValid(actions[..j])
  }

  // After these actions the window is still open: too few audio datagrams so far, and no timeout after a valid one.
  ghost predicate WindowIsOpen(drops: nat, actions: seq<Action>) {
    AudioCount(actions) < drops && !BacklogIsOver(actions)
  }

  ghost predicate CountsDown(e: Endpoint, drops: nat, actions: seq<Action>) {
    (e.receivedPacket <==> AnyValid(actions)) &&
    e.packetsToDrop == if WindowIsOpen(drops, actions) then drops - AudioCount(actions) else 0
  }

  lemma NextAction(actions: seq<Action>)
    requires actions != []
    ensures
      var n := |actions| - 1;
      (AnyValid(actions) <==> AnyValid(actions[..n]) || IsValid(actions[n])) &&
      (BacklogIsOver(actions) <==> BacklogIsOver(actions[..n]) || (actions[n].Timeout? && AnyValid(actions[..n])))
  {
    hide IsValid;
    var n := |actions| - 1;
    assert forall j :: 0 <= j < n ==> actions[..n][..j] == actions[..j];
    assert actions[n].Timeout? && AnyValid(actions[..n]) ==> BacklogIsOver(actions);
    if BacklogIsOver(actions[..n]) {
      var j :| 0 <= j < n && actions[..n][j].Timeout? && AnyValid(actions[..n][..j]);
      assert actions[j].Timeout? && AnyValid(actions[..j]);
    }
  }

  lemma CountingDown(e: Endpoint, drops: nat, actions: seq<Action>)
    requires actions != [] && Inv(e.queue) && CountsDown(e, drops, actions[..|actions| - 1])
    ensures
      var a := actions[|actions| - 1];
      CountsDown(if a.Deliver? then AfterDatagram(e, a.datagram, a.clock).0 else AfterTimeout(e, a.clock).0, drops, actions)
  {
    hide Inv, ParseDatagram, AddPacket, Drained, AnyValid, BacklogIsOver;
    NextAction(actions);
  }

  lemma {:induction false} WindowIsExact(packetDurationMs: u32, initialDropMs: u32, actions: seq<Action>)
    ensures Opened(packetDurationMs, initialDropMs).Linked()
    ensures
      CountsDown(Play(Opened(packetDurationMs, initialDropMs), actions).endpoint, InitialDrops(packetDurationMs, initialDropMs), actions)
  {
    hide Inv, Exchange, CountsDown;
    InitialInv(packetDurationMs);
    var t, drops := Opened(packetDurationMs, initialDropMs), InitialDrops(packetDurationMs, initialDropMs);
    if actions == [] {
      NothingCounted(t.endpoint, drops);
    } else {
      var n := |actions| - 1;
      WindowIsExact(packetDurationMs, initialDropMs, actions[..n]);
      CountingDown(Play(t, actions[..n]).endpoint, drops, actions);
      ExchangesEndpoint(Play(t, actions[..n]), actions[n]);
    }
  }

  lemma NothingCounted(e: Endpoint, drops: u32)
    requires e.packetsToDrop == drops && !e.receivedPacket
    ensures CountsDown(e, drops, [])
  {}

  lemma ExchangesEndpoint(t: Session, a: Action)
    requires t.Linked()
    ensures Inv(t.endpoint.queue) && Exchange(t, a).endpoint ==
      if a.Deliver? then AfterDatagram(t.endpoint, a.datagram, a.clock).0 else AfterTimeout(t.endpoint, a.clock).0
  {
    hide Inv, ParseDatagram, AddPacket, Drained, Flushed, Arrived;
  }

  // While the window is open a valid datagram, audio or parity, changes neither the queue nor the output; once it is closed, every
  // valid datagram is given to the queue, and what is then ready comes out. Whole packet durations fit into the initial drop.
  lemma WindowSwallows(packetDurationMs: u32, initialDropMs: u32, actions: seq<Action>, a: Action)
    requires IsValid(a)
    ensures Opened(packetDurationMs, initialDropMs).Linked()
    ensures
      var drops := InitialDrops(packetDurationMs, initialDropMs);
      var t := Play(Opened(packetDurationMs, initialDropMs), actions);
      var r, p := Exchange(t, a), ParseDatagram(a.datagram).value;
      t.endpoint.queue.Shaped() && drops * packetDurationMs <= initialDropMs &&
      (packetDurationMs > 0 ==> initialDropMs < (drops + 1) * packetDurationMs) && Inv(AddPacket(t.endpoint.queue, p, a.clock(0)).0) &&
      if WindowIsOpen(drops, actions) then r.endpoint.queue == t.endpoint.queue && r.out == t.out
      else
        var (queue, result) := AddPacket(t.endpoint.queue, p, a.clock(0));
        if result.Err? then r.endpoint.queue == queue && r.out == t.out
        else r.endpoint.queue == Drained(queue, a.clock, 1).0 && r.out == t.out + Drained(queue, a.clock, 1).1
  {
    hide Inv, ParseDatagram, AddPacket, Drained, Flushed, Arrived, WindowIsOpen, Play;
    WindowIsExact(packetDurationMs, initialDropMs, actions);
    var t := Play(Opened(packetDurationMs, initialDropMs), actions);
    InvShaped(t.endpoint.queue);
    OpenMeansMore(InitialDrops(packetDurationMs, initialDropMs), actions);
    AddPacketFacts(t.endpoint.queue, ParseDatagram(a.datagram).value, a.clock(0));
    ExchangesEndpoint(t, a);
  }

  lemma OpenMeansMore(drops: nat, actions: seq<Action>)
    ensures WindowIsOpen(drops, actions) ==> AudioCount(actions) < drops
  {}

  // After a datagram that was given to the queue and not refused, and after every timeout, nothing is left that could come out:
  // the next frame is not there, and its block has neither been given up on nor is it overdue.
  lemma NothingIsLeft(t: Session, a: Action) returns (k: nat)
    requires t.Linked()
    requires IsValid(a) ==> t.endpoint.packetsToDrop == 0 && AfterDatagram(t.endpoint, a.datagram, a.clock).1.Ok?
    requires a.Timeout? || IsValid(a)
    ensures
      var q := Exchange(t, a).endpoint.queue;
      q.Shaped() && !GivenUp(q) && (q.blocks != [] ==> HeadLacks(q)) && !Overdue(q, a.clock(k))
  {
    hide Inv, ParseDatagram, AddPacket, Drained, Flushed, Arrived, Overdue, HeadLacks, GivenUp;
    ExchangesEndpoint(t, a);
    InvShaped(t.endpoint.queue);
    match a
    case Timeout(clock) =>
      DrainingStops(t.endpoint.queue, clock, 0);
      k := |Drained(t.endpoint.queue, clock, 0).1|;
    case Deliver(datagram, _, clock) =>
      var p := ParseDatagram(datagram).value;
      AddPacketFacts(t.endpoint.queue, p, clock(0));
      var queue := AddPacket(t.endpoint.queue, p, clock(0)).0;
      DrainingStops(queue, clock, 1);
      k := 1 + |Drained(queue, clock, 1).1|;
  }

  // A timeout hands out whatever can come out.
  lemma TimeoutDrains(t: Session, clock: nat -> nat)
    requires t.Linked()
    ensures
      var r := Exchange(t, Timeout(clock));
      Inv(t.endpoint.queue) && r.endpoint.queue == Drained(t.endpoint.queue, clock, 0).0 &&
      r.out == t.out + Drained(t.endpoint.queue, clock, 0).1
  {
    hide Inv, ParseDatagram, AddPacket, Drained, Flushed, Arrived;
  }
}
