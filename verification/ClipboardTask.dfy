/** The clipboard hub as an object: the event loop's state, updated in place one turn at a time. */
module ClipboardTask {

  import opened Wrappers
  import opened ClipboardPolicy
  import opened ClipboardHub

  class HubTask {
    const policy: HubPolicy
    var events: seq<HubEvent>
    var running: bool
    var subscribers: map<nat, Subscriber>
    var nextAllowed: nat
    var pending: Option<HubEvent>
    var inboxes: map<nat, seq<Payload>>
    ghost var log: Log

    ghost function State(): Hub
      reads this, policy
    {
      Hub(policy.history, events, running, subscribers, nextAllowed, pending, inboxes, log)
    }

    ghost predicate Valid()
      reads this, policy
    {
      policy.Valid()
    }

    constructor (now: nat)
      ensures Valid() && fresh(policy) && State() == NewHub(now) && policy.latest == 0
    {
      policy := new HubPolicy();
      events, running, subscribers, nextAllowed, pending, inboxes := [], true, map[], now, None, map[];
      log := Log(multiset{}, [], multiset{}, multiset{}, [], []);
    }

    // Sending on a receipt; nothing is sent for an untracked payload.
    ghost method Answer(receipt: Option<nat>, outcome: Outcome)
      modifies this`log
      ensures State() == Settle(old(State()), receipt, outcome)
    {
      if receipt.Some? {
        log := log.(receipts := log.receipts + [Receipt(receipt.value, outcome)]);
      }
    }

    method IngestTracked(source: nat, payload: Payload, id: nat)
      requires Valid()
      modifies this`events, this`log
      ensures Valid() && State() == OfferTracked(old(State()), source, payload, id)
    {
      log := log.(offered := log.offered + multiset{id});
      if !running {
        Answer(Some(id), Closed);
      } else if |events| >= INGEST_CAPACITY {
        Answer(Some(id), QueueFull);
      } else {
        events := events + [Ingest(source, payload, Some(id))];
      }
    }

    method Send(event: HubEvent)
      requires Valid()
      modifies this`events
      ensures Valid() && State() == SendEvent(old(State()), event)
    {
      if running && |events| < INGEST_CAPACITY {
        events := events + [event];
      }
    }

    // One turn of the loop: which of its sources woke it is not the hub's choice.
    method Turn(wakening: Wakening, w: Surroundings)
      requires Valid() && policy.latest <= w.now
      modifies this, policy
      ensures Valid() && policy.latest <= w.now && State() == ClipboardHub.Turn(old(State()), wakening, w)
    {
      hide ClipboardHub.Process, ClipboardHub.Receive, HubPolicy.Valid;
      if !running {
        return;
      }
      match wakening
      case DeadlinePassed =>
        if pending.Some? && w.now >= nextAllowed {
          var event := pending.value;
          pending := None;
          Process(event, w);
        }
      case TakeEvent =>
        if events != [] {
          var event := events[0];
          events := events[1..];
          Receive(event, w);
        }
      case TakeLocal(payload) =>
        Receive(Local(payload), w);
    }

    method Receive(event: HubEvent, w: Surroundings)
      requires Valid() && policy.latest <= w.now
      modifies this, policy
      ensures Valid() && policy.latest <= w.now && State() == ClipboardHub.Receive(old(State()), event, w)
    {
      hide ClipboardHub.Process, Settle, HubPolicy.Valid;
      if !event.IsData() {
        Process(event, w);
        return;
      }
      if pending.Some? {
        ghost var replaced := pending;
        pending := Some(event);
        log := log.(replaced := log.replaced + Held(replaced));
        Answer(ReceiptIn(replaced.value), Superseded);
        return;
      }
      if w.now < nextAllowed {
        pending := Some(event);
      } else {
        Process(event, w);
      }
    }

    method Process(event: HubEvent, w: Surroundings)
      requires Valid() && policy.latest <= w.now
      modifies this, policy
      ensures Valid() && policy.latest <= w.now && State() == ClipboardHub.Process(old(State()), event, w)
    {
      hide ProcessIngest, ProcessLocal, ProcessEnable, ProcessUnsubscribe, HubPolicy.Valid;
      match event
      case Subscribe(device) =>
        subscribers := subscribers[device := Subscriber(false, false)];
      case Unsubscribe(device) => Leave(device);
      case SetReceiveEnabled(device, enabled) => Enable(device, enabled, w);
      case UpdateOptions =>
      case Ingest(source, payload, receipt) => Apply(source, payload, receipt, w);
      case Local(payload) => Note(payload, w);
    }

    method Leave(device: nat)
      modifies this`subscribers, this`pending, this`log
      ensures State() == ProcessUnsubscribe(old(State()), device)
    {
      hide Settle;
      subscribers := subscribers - {device};
      if pending.Some? && pending.value.Ingest? && pending.value.source == device {
        ghost var receipt := pending.value.receipt;
        pending := None;
        Answer(receipt, Closed);
      }
    }

    method Enable(device: nat, enabled: bool, w: Surroundings)
      modifies this`subscribers, this`inboxes
      ensures State() == ProcessEnable(old(State()), device, enabled, w)
    {
      if device in subscribers {
        var pushSnapshot := false;
        var subscriber := subscribers[device];
        if enabled && !subscriber.receiveEnabled {
          pushSnapshot := !subscriber.snapshotSent;
          subscribers := subscribers[device := Subscriber(true, true)];
        } else {
          subscribers := subscribers[device := subscriber.(receiveEnabled := enabled)];
        }
        if pushSnapshot && w.current.Some? && device !in w.full && device !in w.gone {
          inboxes := inboxes[device := Inbox(inboxes, device) + [w.current.value]];
        }
      }
    }

    method Apply(source: nat, payload: Payload, receipt: Option<nat>, w: Surroundings)
      requires Valid() && policy.latest <= w.now
      modifies this, policy
      ensures Valid() && policy.latest <= w.now && State() == ProcessIngest(old(State()), source, payload, receipt, w)
    {
      hide ClipboardHub.Broadcast, Verdict, HubPolicy.Valid;
      if receipt.Some? && w.cancelled {
        log := log.(cancelled := log.cancelled + multiset{receipt.value});
        return;
      }
      if receipt.Some? && source !in subscribers {
        Answer(receipt, Closed);
        return;
      }
      var accepted := policy.AcceptWithDedupe(Remote(source), payload.signature, w.now, receipt.None?);
      match accepted
      case Err(Duplicate) => Answer(receipt, Superseded);
      case Err(RateLimited) => Answer(receipt, TooMany);
      case Ok(_) =>
        ghost var application := Application(payload, receipt, source in subscribers, w.applies);
        log := log.(applications := log.applications + [application]);
        policy.Record(Remote(source), payload.signature, w.now);
        Broadcast(payload, Some(source), w);
        if w.applies {
          Answer(receipt, Applied);
          nextAllowed := w.now + MIN_APPLY_INTERVAL;
          log := log.(started := log.started + [w.now]);
        } else {
          Answer(receipt, Failed);
        }
    }

    method Note(payload: Payload, w: Surroundings)
      requires Valid() && policy.latest <= w.now
      modifies this, policy
      ensures Valid() && policy.latest <= w.now && State() == ProcessLocal(old(State()), payload, w)
    {
      hide ClipboardHub.Broadcast, Verdict, HubPolicy.Valid;
      var accepted := policy.Accept(LocalSource, payload.signature, w.now);
      if accepted.Ok? && w.noted {
        policy.Record(LocalSource, payload.signature, w.now);
        Broadcast(payload, None, w);
        nextAllowed := w.now + MIN_APPLY_INTERVAL;
        log := log.(started := log.started + [w.now]);
      }
    }

    // Every enabled subscriber but the source gets the payload, unless its channel is full; channels that are gone are removed.
    // The order in which subscribers are visited does not matter.
    method Broadcast(payload: Payload, exclude: Option<nat>, w: Surroundings)
      modifies this`subscribers, this`inboxes
      ensures State() == ClipboardHub.Broadcast(old(State()), payload, exclude, w)
    {
      hide Delivered;
      ghost var before := State();
      ghost var reached: set<nat> := {};
      var left, closed := subscribers.Keys, {};
      NothingDelivered(inboxes, payload);
      while left != {}
        invariant left <= subscribers.Keys == before.subscribers.Keys && subscribers == before.subscribers
        invariant closed == set d | d in subscribers && d !in left && Addressed(before, d, exclude) && d in w.gone
        invariant reached == Reached(before, exclude, w) - left
        invariant inboxes == Delivered(before.inboxes, reached, payload)
        decreases left
      {
        var device :| device in left;
        left := left - {device};
        if Some(device) != exclude && subscribers[device].receiveEnabled {
          if device in w.gone {
            closed := closed + {device};
          } else if device !in w.full {
            DeliveredNext(before.inboxes, reached, device, payload);
            inboxes := inboxes[device := Inbox(inboxes, device) + [payload]];
            reached := reached + {device};
          }
        }
      }
      assert reached == Reached(before, exclude, w);
      assert closed == set d | d in before.subscribers && Addressed(before, d, exclude) && d in w.gone;
      subscribers := subscribers - closed;
    }
  }

  lemma NothingDelivered(inboxes: map<nat, seq<Payload>>, payload: Payload)
    ensures Delivered(inboxes, {}, payload) == inboxes
  {}
}
