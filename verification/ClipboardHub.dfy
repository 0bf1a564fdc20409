/** The clipboard hub as functions on values: one event at a time, control events at once, data at most every 200 ms with one
    slot for the latest that has to wait. Every tracked payload is accounted for in every state, and success is reported only
    for a payload that was really applied. The methods of ClipboardTask.HubTask are proved equal to these functions. Times are
    in nanoseconds. */
module ClipboardHub {

  import opened Wrappers
  import opened ClipboardPolicy

  const INGEST_CAPACITY: nat := 64
  const MIN_APPLY_INTERVAL: nat := SECOND / 5

  datatype Payload = Payload(content: nat, signature: string)

  datatype Outcome = Applied | Failed | TooMany | Superseded | QueueFull | Closed

  datatype HubEvent =
    | Ingest(source: nat, payload: Payload, receipt: Option<nat>)
    | Local(payload: Payload)
    | Subscribe(device: nat)
    | Unsubscribe(device: nat)
    | SetReceiveEnabled(device: nat, enabled: bool)
    | UpdateOptions
  {
    predicate IsData() {
      Ingest? || Local?
    }
  }

  datatype Subscriber = Subscriber(receiveEnabled: bool, snapshotSent: bool)

  datatype Receipt = Receipt(id: nat, outcome: Outcome)

  // A payload handed to the system clipboard. Tracked payloads are applied strictly.
  datatype Application = Application(payload: Payload, receipt: Option<nat>, subscribed: bool, succeeded: bool)

  // What the surroundings answer while one event is handled: the clock, whether the caller has dropped its receipt, whether
  // the clipboard accepts the payload or finds a local one new, what it holds, and whose outbound channels are full or gone.
  datatype Surroundings = Surroundings(
    now: nat, cancelled: bool, applies: bool, noted: bool, current: Option<Payload>, full: set<nat>, gone: set<nat>)

  datatype Wakening = TakeEvent | TakeLocal(payload: Payload) | DeadlinePassed

  // ---------- Accounting for receipts ----------

  function ReceiptOf(e: HubEvent): multiset<nat> {
    if e.Ingest? && e.receipt.Some? then multiset{e.receipt.value} else multiset{}
  }

  function Held(pending: Option<HubEvent>): multiset<nat> {
    match pending
    case None => multiset{}
    case Some(e) => ReceiptOf(e)
  }

  function Queued(events: seq<HubEvent>): multiset<nat> {
    if events == [] then multiset{} else ReceiptOf(events[0]) + Queued(events[1..])
  }

  function Settled(receipts: seq<Receipt>): multiset<nat> {
    if receipts == [] then multiset{}
    else Settled(receipts[..|receipts| - 1]) + multiset{receipts[|receipts| - 1].id}
  }

  lemma {:induction false} QueuedNext(events: seq<HubEvent>, e: HubEvent)
    ensures Queued(events + [e]) == Queued(events) + ReceiptOf(e)
  {
    if events == [] {
      assert events + [e] == [e];
      assert [e][1..] == [];
    } else {
      assert (events + [e])[1..] == events[1..] + [e];
      QueuedNext(events[1..], e);
    }
  }

  lemma SettledNext(receipts: seq<Receipt>, r: Receipt)
    ensures Settled(receipts + [r]) == Settled(receipts) + multiset{r.id}
  {
    assert (receipts + [r])[..|receipts|] == receipts;
  }

  // How often an outcome was sent for this receipt.
  function TimesSettled(receipts: seq<Receipt>, id: nat): nat {
    if receipts == [] then 0
    else TimesSettled(receipts[..|receipts| - 1], id) + if receipts[|receipts| - 1].id == id then 1 else 0
  }

  lemma {:induction false} SettledCounts(receipts: seq<Receipt>, id: nat)
    ensures Settled(receipts)[id] == TimesSettled(receipts, id)
  {
    if receipts != [] {
      SettledCounts(receipts[..|receipts| - 1], id);
    }
  }

  // ---------- Pacing ----------

  ghost predicate Spaced(started: seq<nat>, nextAllowed: nat) {
    (forall i, j :: 0 <= i < j < |started| ==> started[i] + MIN_APPLY_INTERVAL <= started[j]) &&
    (forall i :: 0 <= i < |started| ==> started[i] + MIN_APPLY_INTERVAL <= nextAllowed)
  }

  lemma SpacedNext(started: seq<nat>, nextAllowed: nat, now: nat)
    requires Spaced(started, nextAllowed) && nextAllowed <= now
    ensures Spaced(started + [now], now + MIN_APPLY_INTERVAL)
  {}

  // ---------- The hub ----------

  // Every tracked payload offered, every outcome sent, the receipts whose callers had gone, the payloads pushed out of the
  // pending slot, every application, and the times at which successful data events started.
  datatype Log = Log(
    offered: multiset<nat>,
    receipts: seq<Receipt>,
    cancelled: multiset<nat>,
    replaced: multiset<nat>,
    applications: seq<Application>,
    started: seq<nat>)

  // history is what the policy has recorded; inboxes is what has been put into each outbound channel.
  datatype Hub = Hub(
    history: seq<Recorded>,
    events: seq<HubEvent>,
    running: bool,
    subscribers: map<nat, Subscriber>,
    nextAllowed: nat,
    pending: Option<HubEvent>,
    inboxes: map<nat, seq<Payload>>,
    log: Log)

  function NewHub(now: nat): Hub {
    Hub([], [], true, map[], now, None, map[], Log(multiset{}, [], multiset{}, multiset{}, [], []))
  }

  function Settle(h: Hub, receipt: Option<nat>, outcome: Outcome): Hub {
    if receipt.None? then h
    else h.(log := h.log.(receipts := h.log.receipts + [Receipt(receipt.value, outcome)]))
  }

  function ReceiptIn(e: HubEvent): Option<nat> {
    if e.Ingest? then e.receipt else None
  }

  // ---------- The handle ----------

  function OfferTracked(h: Hub, source: nat, payload: Payload, id: nat): Hub {
    var h := h.(log := h.log.(offered := h.log.offered + multiset{id}));
    if !h.running then Settle(h, Some(id), Closed)
    else if |h.events| >= INGEST_CAPACITY then Settle(h, Some(id), QueueFull)
    else h.(events := h.events + [Ingest(source, payload, Some(id))])
  }

  // Events without a receipt are dropped silently when they do not fit.
  function SendEvent(h: Hub, e: HubEvent): Hub {
    if h.running && |h.events| < INGEST_CAPACITY then h.(events := h.events + [e]) else h
  }

  // ---------- Broadcasting ----------

  // The channels a broadcast looks at: enabled subscribers other than the source.
  predicate Addressed(h: Hub, device: nat, exclude: Option<nat>) {
    device in h.subscribers && Some(device) != exclude && h.subscribers[device].receiveEnabled
  }

  function Inbox(inboxes: map<nat, seq<Payload>>, device: nat): seq<Payload> {
    if device in inboxes then inboxes[device] else []
  }

  // Channels that take the payload: addressed, still there, and with room.
  function Reached(h: Hub, exclude: Option<nat>, w: Surroundings): set<nat> {
    set d | d in h.subscribers && Addressed(h, d, exclude) && d !in w.gone && d !in w.full
  }

  function Delivered(inboxes: map<nat, seq<Payload>>, reached: set<nat>, payload: Payload): map<nat, seq<Payload>> {
    map d | d in inboxes.Keys + reached :: if d in reached then Inbox(inboxes, d) + [payload] else Inbox(inboxes, d)
  }

  function Broadcast(h: Hub, payload: Payload, exclude: Option<nat>, w: Surroundings): Hub {
    h.(inboxes := Delivered(h.inboxes, Reached(h, exclude, w), payload),
       subscribers := h.subscribers - set d | d in h.subscribers && Addressed(h, d, exclude) && d in w.gone)
  }

  lemma DeliveredNext(inboxes: map<nat, seq<Payload>>, reached: set<nat>, device: nat, payload: Payload)
    requires device !in reached
    ensures
      var before := Delivered(inboxes, reached, payload);
      Delivered(inboxes, reached + {device}, payload) == before[device := Inbox(before, device) + [payload]]
  {}

  function SendTo(h: Hub, device: nat, payload: Payload, w: Surroundings): Hub {
    if device in h.subscribers && device !in w.full && device !in w.gone
    then h.(inboxes := h.inboxes[device := Inbox(h.inboxes, device) + [payload]])
    else h
  }

  // ---------- Handling one event ----------

  function Remember(h: Hub, source: SourceKey, payload: Payload, now: nat): Hub {
    h.(history := h.history + [Recorded(source, payload.signature, now)])
  }

  // A successful data event: the next one may start one interval later.
  function Succeed(h: Hub, now: nat): Hub {
    h.(nextAllowed := now + MIN_APPLY_INTERVAL, log := h.log.(started := h.log.started + [now]))
  }

  ghost function ProcessIngest(h: Hub, source: nat, payload: Payload, receipt: Option<nat>, w: Surroundings): Hub {
    if receipt.Some? && w.cancelled then h.(log := h.log.(cancelled := h.log.cancelled + multiset{receipt.value}))
    else if receipt.Some? && source !in h.subscribers then Settle(h, receipt, Closed)
    else
      match Verdict(h.history, Remote(source), payload.signature, w.now, receipt.None?)
      case Err(Duplicate) => Settle(h, receipt, Superseded)
      case Err(RateLimited) => Settle(h, receipt, TooMany)
      case Ok(_) =>
        var application := Application(payload, receipt, source in h.subscribers, w.applies);
        var h := h.(log := h.log.(applications := h.log.applications + [application]));
        var h := Broadcast(Remember(h, Remote(source), payload, w.now), payload, Some(source), w);
        if w.applies then Succeed(Settle(h, receipt, Applied), w.now) else Settle(h, receipt, Failed)
  }

  ghost function ProcessLocal(h: Hub, payload: Payload, w: Surroundings): Hub {
    if Verdict(h.history, LocalSource, payload.signature, w.now, true).Ok? && w.noted then
      Succeed(Broadcast(Remember(h, LocalSource, payload, w.now), payload, None, w), w.now)
    else h
  }

  function ProcessUnsubscribe(h: Hub, device: nat): Hub {
    var h := h.(subscribers := h.subscribers - {device});
    if h.pending.Some? && h.pending.value.Ingest? && h.pending.value.source == device then
      Settle(h.(pending := None), h.pending.value.receipt, Closed)
    else h
  }

  function ProcessEnable(h: Hub, device: nat, enabled: bool, w: Surroundings): Hub {
    if device !in h.subscribers then h else
      var s := h.subscribers[device];
      if enabled && !s.receiveEnabled then
        var h := h.(subscribers := h.subscribers[device := Subscriber(true, true)]);
        if !s.snapshotSent && w.current.Some? then SendTo(h, device, w.current.value, w) else h
      else h.(subscribers := h.subscribers[device := s.(receiveEnabled := enabled)])
  }

  ghost function Process(h: Hub, e: HubEvent, w: Surroundings): Hub {
    match e
    case Ingest(source, payload, receipt) => ProcessIngest(h, source, payload, receipt, w)
    case Local(payload) => ProcessLocal(h, payload, w)
    case Subscribe(device) => h.(subscribers := h.subscribers[device := Subscriber(false, false)])
    case Unsubscribe(device) => ProcessUnsubscribe(h, device)
    case SetReceiveEnabled(device, enabled) => ProcessEnable(h, device, enabled, w)
    case UpdateOptions => h
  }

  // ---------- One turn of the loop ----------

  ghost function Receive(h: Hub, e: HubEvent, w: Surroundings): Hub {
    if !e.IsData() then Process(h, e, w)
    else if h.pending.Some? then
      var replaced := ReceiptIn(h.pending.value);
      Settle(h.(pending := Some(e), log := h.log.(replaced := h.log.replaced + Held(h.pending))), replaced, Superseded)
    else if w.now < h.nextAllowed then h.(pending := Some(e))
    else Process(h, e, w)
  }

  ghost function Turn(h: Hub, wakening: Wakening, w: Surroundings): Hub {
    if !h.running then h else
      match wakening
      case TakeEvent =>
        if h.events == [] then h else Receive(h.(events := h.events[1..]), h.events[0], w)
      case TakeLocal(payload) => Receive(h, Local(payload), w)
      case DeadlinePassed =>
        if h.pending.None? || w.now < h.nextAllowed then h
        else Process(h.(pending := None), h.pending.value, w)
  }

  // ---------- The invariant ----------

  // Every tracked payload offered has been answered, belongs to a caller that had gone, waits in the slot, is queued, or is
  // being handled.
  ghost predicate Accounts(h: Hub, handled: multiset<nat>) {
    h.log.offered == Settled(h.log.receipts) + h.log.cancelled + Held(h.pending) + Queued(h.events) + handled
  }

  // A strict application that succeeded for a source that was still subscribed.
  ghost predicate Backed(applications: seq<Application>, id: nat) {
    exists a :: a in applications && a.receipt == Some(id) && a.succeeded && a.subscribed
  }

  ghost predicate Truthful(log: Log) {
    forall r :: r in log.receipts ==>
      (r.outcome.Applied? ==> Backed(log.applications, r.id)) && (r.outcome.Superseded? ==> r.id in log.replaced)
  }

  // Every payload pushed out of the slot has been told so.
  ghost predicate ReplacedAreTold(log: Log) {
    forall id :: id in log.replaced ==> Receipt(id, Superseded) in log.receipts
  }

  ghost predicate Regular(h: Hub) {
    ReplacedAreTold(h.log) && InTimeOrder(h.history) && Paced(h.history) && Spaced(h.log.started, h.nextAllowed) &&
    |h.events| <= INGEST_CAPACITY && (h.pending.Some? ==> h.pending.value.IsData()) && Truthful(h.log)
  }

  ghost predicate HubInv(h: Hub) {
    Regular(h) && Accounts(h, multiset{})
  }

  // The clock has not run back behind anything recorded.
  ghost predicate OnTime(history: seq<Recorded>, now: nat) {
    forall i :: 0 <= i < |history| ==> history[i].at <= now
  }

  lemma NewHubInv(now: nat)
    ensures HubInv(NewHub(now))
  {}

  lemma SettlingAccounts(h: Hub, receipt: Option<nat>, outcome: Outcome)
    ensures Settled(Settle(h, receipt, outcome).log.receipts) ==
      Settled(h.log.receipts) + if receipt.Some? then multiset{receipt.value} else multiset{}
  {
    if receipt.Some? {
      SettledNext(h.log.receipts, Receipt(receipt.value, outcome));
    }
  }

  lemma SettlingIsTruthful(h: Hub, receipt: Option<nat>, outcome: Outcome)
    requires Truthful(h.log)
    requires receipt.Some? && outcome.Applied? ==> Backed(h.log.applications, receipt.value)
    requires receipt.Some? && outcome.Superseded? ==> receipt.value in h.log.replaced
    ensures Truthful(Settle(h, receipt, outcome).log)
  {
    hide Backed;
  }

  lemma SettlingTells(h: Hub, receipt: Option<nat>, outcome: Outcome)
    requires ReplacedAreTold(h.log)
    ensures ReplacedAreTold(Settle(h, receipt, outcome).log)
  {}

  lemma ReplacingTells(h: Hub, log: Log)
    requires ReplacedAreTold(h.log) && h.pending.Some?
    requires log == h.log.(replaced := h.log.replaced + Held(h.pending))
    ensures ReplacedAreTold(Settle(h.(log := log), ReceiptIn(h.pending.value), Superseded).log)
  {}

  // Settling changes nothing but the outcomes.
  lemma SettlingKeeps(h: Hub, receipt: Option<nat>, outcome: Outcome)
    ensures
      var r := Settle(h, receipt, outcome);
      r == h.(log := h.log.(receipts := r.log.receipts))
  {}

  // ---------- Every turn keeps the invariant ----------

  lemma BroadcastKeeps(h: Hub, payload: Payload, exclude: Option<nat>, w: Surroundings)
    ensures
      var r := Broadcast(h, payload, exclude, w);
      r == h.(subscribers := r.subscribers, inboxes := r.inboxes)
  {}

  lemma RememberingKeeps(h: Hub, source: SourceKey, payload: Payload, now: nat, dedupe: bool)
    requires InTimeOrder(h.history) && Paced(h.history) && OnTime(h.history, now)
    requires Verdict(h.history, source, payload.signature, now, dedupe).Ok?
    ensures
      var r := Remember(h, source, payload, now);
      InTimeOrder(r.history) && Paced(r.history) && OnTime(r.history, now)
  {
    PacedNext(h.history, Recorded(source, payload.signature, now));
  }

  lemma NoDuplicateWithoutDedupe(history: seq<Recorded>, source: SourceKey, signature: string, now: nat)
    ensures Verdict(history, source, signature, now, false) != Err(Duplicate)
  {}

  lemma MoreApplications(log: Log, a: Application)
    requires Truthful(log)
    ensures Truthful(log.(applications := log.applications + [a]))
    ensures a.receipt.Some? && a.succeeded && a.subscribed ==> Backed(log.applications + [a], a.receipt.value)
  {
    assert forall id :: Backed(log.applications, id) ==> Backed(log.applications + [a], id) by {
      assert forall x :: x in log.applications ==> x in log.applications + [a];
    }
    assert a in log.applications + [a];
  }

  lemma IngestKeepsInv(h: Hub, source: nat, payload: Payload, receipt: Option<nat>, w: Surroundings)
    requires Regular(h) && Accounts(h, ReceiptOf(Ingest(source, payload, receipt))) && OnTime(h.history, w.now)
    requires h.nextAllowed <= w.now
    ensures HubInv(ProcessIngest(h, source, payload, receipt, w))
    ensures OnTime(ProcessIngest(h, source, payload, receipt, w).history, w.now)
  {
    hide Verdict, Broadcast, Paced, InTimeOrder, OnTime, Truthful, Backed, Spaced, Settled, Settle, Queued;
    var r := ProcessIngest(h, source, payload, receipt, w);
    if receipt.Some? && w.cancelled {
      SameTruth(h.log, r.log);
    } else if receipt.Some? && source !in h.subscribers {
      SettlingOnly(h, receipt, Closed);
    } else {
      NoDuplicateWithoutDedupe(h.history, Remote(source), payload.signature, w.now);
      match Verdict(h.history, Remote(source), payload.signature, w.now, receipt.None?)
      case Err(Duplicate) => SettlingOnly(h, receipt, Superseded);
      case Err(RateLimited) => SettlingOnly(h, receipt, TooMany);
      case Ok(_) => ApplyingKeepsInv(h, source, payload, receipt, w);
    }
  }

  lemma SameTruth(log: Log, log': Log)
    requires Truthful(log) && log' == log.(cancelled := log'.cancelled, started := log'.started, offered := log'.offered)
    ensures Truthful(log')
  {}

  // Answering the payload in hand, with an outcome that is backed.
  lemma SettlingOnly(h: Hub, receipt: Option<nat>, outcome: Outcome)
    requires Regular(h) && Accounts(h, if receipt.Some? then multiset{receipt.value} else multiset{})
    requires receipt.Some? && outcome.Applied? ==> Backed(h.log.applications, receipt.value)
    requires receipt.Some? && outcome.Superseded? ==> receipt.value in h.log.replaced
    ensures HubInv(Settle(h, receipt, outcome)) && Settle(h, receipt, outcome).history == h.history
  {
    hide Truthful, Settled, Queued, Paced, InTimeOrder, Spaced, Settle, Backed, ReplacedAreTold;
    SettlingTells(h, receipt, outcome);
    SettlingAccounts(h, receipt, outcome);
    SettlingIsTruthful(h, receipt, outcome);
    SettlingKeeps(h, receipt, outcome);
  }

  lemma ApplyingKeepsInv(h: Hub, source: nat, payload: Payload, receipt: Option<nat>, w: Surroundings)
    requires Regular(h) && Accounts(h, ReceiptOf(Ingest(source, payload, receipt))) && OnTime(h.history, w.now)
    requires h.nextAllowed <= w.now && !(receipt.Some? && w.cancelled) && (receipt.Some? ==> source in h.subscribers)
    requires Verdict(h.history, Remote(source), payload.signature, w.now, receipt.None?).Ok?
    ensures
      var r := ProcessIngest(h, source, payload, receipt, w);
      HubInv(r) && OnTime(r.history, w.now)
  {
    hide Verdict, Broadcast, Truthful, Backed, Spaced, Settle, Remember, Regular, Accounts, OnTime;
    var application := Application(payload, receipt, source in h.subscribers, w.applies);
    var applied := h.(log := h.log.(applications := h.log.applications + [application]));
    ToldKeeps(h, source, payload, application, w);
    var told := Broadcast(Remember(applied, Remote(source), payload, w.now), payload, Some(source), w);
    var outcome := if w.applies then Applied else Failed;
    SettlingOnly(told, receipt, outcome);
    SettlingKeeps(told, receipt, outcome);
    if w.applies {
      SucceedingKeepsInv(told, Settle(told, receipt, outcome), w.now);
    }
  }

  // Applying, remembering and broadcasting leave the payload in hand, and back its success.
  lemma ToldKeeps(h: Hub, source: nat, payload: Payload, a: Application, w: Surroundings)
    requires Regular(h) && OnTime(h.history, w.now)
    requires Verdict(h.history, Remote(source), payload.signature, w.now, a.receipt.None?).Ok?
    ensures
      var applied := h.(log := h.log.(applications := h.log.applications + [a]));
      var told := Broadcast(Remember(applied, Remote(source), payload, w.now), payload, Some(source), w);
      Regular(told) && OnTime(told.history, w.now) && told.nextAllowed == h.nextAllowed && told.log.started == h.log.started &&
      (forall handled :: Accounts(h, handled) ==> Accounts(told, handled)) &&
      (a.receipt.Some? && a.succeeded && a.subscribed ==> Backed(told.log.applications, a.receipt.value))
  {
    hide Verdict, Broadcast, Paced, InTimeOrder, Truthful, Backed, Spaced, Settled, Queued, Remember, Held, OnTime;
    var applied := h.(log := h.log.(applications := h.log.applications + [a]));
    MoreApplications(h.log, a);
    RememberingKeeps(applied, Remote(source), payload, w.now, a.receipt.None?);
    RememberingOnly(applied, Remote(source), payload, w.now);
    BroadcastKeeps(Remember(applied, Remote(source), payload, w.now), payload, Some(source), w);
  }

  lemma SucceedingKeepsInv(told: Hub, settled: Hub, now: nat)
    requires HubInv(settled) && settled.nextAllowed <= now
    requires settled == told.(log := told.log.(receipts := settled.log.receipts))
    ensures HubInv(Succeed(settled, now))
  {
    hide Paced, InTimeOrder, Truthful, Spaced, Settled, Queued, Held;
    SpacedNext(settled.log.started, settled.nextAllowed, now);
    SameTruth(settled.log, Succeed(settled, now).log);
  }

  lemma RememberingOnly(h: Hub, source: SourceKey, payload: Payload, now: nat)
    ensures Remember(h, source, payload, now) == h.(history := Remember(h, source, payload, now).history)
  {}

  lemma LocalKeepsInv(h: Hub, payload: Payload, w: Surroundings)
    requires HubInv(h) && OnTime(h.history, w.now) && h.nextAllowed <= w.now
    ensures HubInv(ProcessLocal(h, payload, w)) && OnTime(ProcessLocal(h, payload, w).history, w.now)
  {
    hide Verdict, Broadcast, Paced, InTimeOrder, Truthful, Spaced, Settled, Queued, Remember;
    if Verdict(h.history, LocalSource, payload.signature, w.now, true).Ok? && w.noted {
      RememberingKeeps(h, LocalSource, payload, w.now, true);
      RememberingOnly(h, LocalSource, payload, w.now);
      var known := Remember(h, LocalSource, payload, w.now);
      BroadcastKeeps(known, payload, None, w);
      var told := Broadcast(known, payload, None, w);
      SpacedNext(h.log.started, h.nextAllowed, w.now);
      SameTruth(told.log, Succeed(told, w.now).log);
    }
  }

  // Only subscriptions and outbound channels change.
  lemma OutboundOnly(h: Hub, r: Hub)
    requires HubInv(h) && r == h.(subscribers := r.subscribers, inboxes := r.inboxes)
    ensures HubInv(r)
  {
    hide Paced, InTimeOrder, Truthful, Spaced, Settled, Queued, Held;
  }

  lemma ControlIsOutbound(h: Hub, e: HubEvent, w: Surroundings)
    requires !e.IsData() && !e.Unsubscribe?
    ensures
      var r := Process(h, e, w);
      r == h.(subscribers := r.subscribers, inboxes := r.inboxes)
  {}

  lemma ControlKeepsInv(h: Hub, e: HubEvent, w: Surroundings)
    requires HubInv(h) && OnTime(h.history, w.now) && !e.IsData()
    ensures HubInv(Process(h, e, w)) && OnTime(Process(h, e, w).history, w.now)
  {
    hide HubInv, OnTime, Settle, ProcessEnable, ProcessIngest, ProcessLocal;
    if e.Unsubscribe? {
      UnsubscribingKeepsInv(h, e.device);
    } else {
      ControlIsOutbound(h, e, w);
      OutboundOnly(h, Process(h, e, w));
    }
  }

  lemma UnsubscribingKeepsInv(h: Hub, device: nat)
    requires HubInv(h)
    ensures HubInv(ProcessUnsubscribe(h, device)) && ProcessUnsubscribe(h, device).history == h.history
  {
    hide Paced, InTimeOrder, Truthful, Spaced, Settled, Queued, Settle;
    var left := h.(subscribers := h.subscribers - {device});
    OutboundOnly(h, left);
    if h.pending.Some? && h.pending.value.Ingest? && h.pending.value.source == device {
      TakingPending(left);
      SettlingOnly(left.(pending := None), h.pending.value.receipt, Closed);
    }
  }

  lemma TakingPending(h: Hub)
    requires HubInv(h) && h.pending.Some?
    ensures Regular(h.(pending := None)) && Accounts(h.(pending := None), ReceiptOf(h.pending.value))
  {
    hide Paced, InTimeOrder, Truthful, Spaced, Settled, Queued, ReceiptOf;
  }

  lemma TakingEvent(h: Hub)
    requires HubInv(h) && h.events != []
    ensures Regular(h.(events := h.events[1..])) && Accounts(h.(events := h.events[1..]), ReceiptOf(h.events[0]))
  {
    hide Paced, InTimeOrder, Truthful, Spaced, Settled, ReceiptOf, Held;
  }

  lemma TakingLocal(h: Hub, payload: Payload)
    requires HubInv(h)
    ensures Regular(h) && Accounts(h, ReceiptOf(Local(payload)))
  {}

  lemma DataKeepsInv(h: Hub, e: HubEvent, w: Surroundings)
    requires Regular(h) && Accounts(h, ReceiptOf(e)) && OnTime(h.history, w.now) && e.IsData() && h.nextAllowed <= w.now
    ensures HubInv(Process(h, e, w)) && OnTime(Process(h, e, w).history, w.now)
  {
    hide Regular, ProcessIngest, ProcessLocal, OnTime;
    match e
    case Ingest(source, payload, receipt) => IngestKeepsInv(h, source, payload, receipt, w);
    case Local(payload) => LocalKeepsInv(h, payload, w);
  }

  lemma ReceivingKeepsInv(h: Hub, e: HubEvent, w: Surroundings)
    requires Regular(h) && Accounts(h, ReceiptOf(e)) && OnTime(h.history, w.now)
    ensures HubInv(Receive(h, e, w)) && OnTime(Receive(h, e, w).history, w.now)
  {
    hide Process, Paced, InTimeOrder, Truthful, Spaced, Settled, Queued, Settle;
    if !e.IsData() {
      NothingHandled(h, e);
      ControlKeepsInv(h, e, w);
    } else if h.pending.Some? {
      ReplacingKeepsInv(h, e);
    } else if w.now >= h.nextAllowed {
      DataKeepsInv(h, e, w);
    }
  }

  lemma NothingHandled(h: Hub, e: HubEvent)
    requires Regular(h) && Accounts(h, ReceiptOf(e)) && !e.IsData()
    ensures HubInv(h)
  {}

  lemma ReplacingKeepsInv(h: Hub, e: HubEvent)
    requires Regular(h) && Accounts(h, ReceiptOf(e)) && e.IsData() && h.pending.Some?
    ensures
      var replaced := h.(pending := Some(e), log := h.log.(replaced := h.log.replaced + Held(h.pending)));
      var r := Settle(replaced, ReceiptIn(h.pending.value), Superseded);
      HubInv(r) && r.history == h.history
  {
    hide Paced, InTimeOrder, Spaced, Settled, Queued, Settle, Backed, ReplacedAreTold, Truthful, Accounts;
    var log := h.log.(replaced := h.log.replaced + Held(h.pending));
    var replaced := h.(pending := Some(e), log := log);
    var receipt := ReceiptIn(h.pending.value);
    ReplacingTells(h, log);
    SettlingTellsAlike(h.(log := log), replaced, receipt);
    MoreReplaced(h.log, log);
    SettlingAccounts(replaced, receipt, Superseded);
    SettlingIsTruthful(replaced, receipt, Superseded);
    SettlingKeeps(replaced, receipt, Superseded);
    ReplacingAccounts(h, Settle(replaced, receipt, Superseded), e);
  }

  // The receipt pushed out has been answered, and the one in hand waits in its place.
  lemma ReplacingAccounts(h: Hub, r: Hub, e: HubEvent)
    requires Accounts(h, ReceiptOf(e)) && h.pending.Some? && r.pending == Some(e) && r.events == h.events
    requires r.log.offered == h.log.offered && r.log.cancelled == h.log.cancelled
    requires Settled(r.log.receipts) == Settled(h.log.receipts) + Held(h.pending)
    ensures Accounts(r, multiset{})
  {
    hide Settled, Queued, ReceiptOf;
    assert Held(r.pending) == ReceiptOf(e);
  }

  lemma SettlingTellsAlike(h: Hub, h': Hub, receipt: Option<nat>)
    requires h.log == h'.log
    ensures Settle(h, receipt, Superseded).log == Settle(h', receipt, Superseded).log
  {}

  lemma MoreReplaced(log: Log, log': Log)
    requires Truthful(log) && log' == log.(replaced := log'.replaced)
    requires forall id :: id in log.replaced ==> id in log'.replaced
    ensures Truthful(log')
  {
    hide Backed;
  }

  lemma TurnKeepsInv(h: Hub, wakening: Wakening, w: Surroundings)
    requires HubInv(h) && OnTime(h.history, w.now)
    ensures HubInv(Turn(h, wakening, w)) && OnTime(Turn(h, wakening, w).history, w.now)
  {
    hide Process, Receive, Regular, Accounts, HubInv, OnTime, ReceiptOf;
    if h.running {
      match wakening
      case TakeEvent =>
        if h.events != [] {
          TakingEvent(h);
          ReceivingKeepsInv(h.(events := h.events[1..]), h.events[0], w);
        }
      case TakeLocal(payload) =>
        TakingLocal(h, payload);
        ReceivingKeepsInv(h, Local(payload), w);
      case DeadlinePassed =>
        if h.pending.Some? && w.now >= h.nextAllowed {
          TakingPending(h);
          PendingIsData(h);
          DataKeepsInv(h.(pending := None), h.pending.value, w);
        }
    }
  }

  lemma PendingIsData(h: Hub)
    requires HubInv(h) && h.pending.Some?
    ensures h.pending.value.IsData()
  {}

  // ---------- Every run ----------

  // What sessions and the loop do: offer a tracked payload, post another event, wake the loop up, or stop it.
  datatype Act =
    | Offer(source: nat, payload: Payload, id: nat)
    | Post(event: HubEvent)
    | Wake(wakening: Wakening, w: Surroundings)
    | Stop

  ghost function Step(h: Hub, a: Act): Hub {
    match a
    case Offer(source, payload, id) => OfferTracked(h, source, payload, id)
    case Post(e) => if ReceiptIn(e).None? then SendEvent(h, e) else h
    case Wake(wakening, w) => Turn(h, wakening, w)
    case Stop => h.(running := false)
  }

  ghost function Run(h: Hub, acts: seq<Act>): Hub {
    if acts == [] then h else Step(Run(h, acts[..|acts| - 1]), acts[|acts| - 1])
  }

  ghost predicate ClockRunsForward(acts: seq<Act>) {
    forall i, j :: 0 <= i < j < |acts| && acts[i].Wake? && acts[j].Wake? ==> acts[i].w.now <= acts[j].w.now
  }

  ghost predicate NotBefore(acts: seq<Act>, now: nat) {
    forall i :: 0 <= i < |acts| && acts[i].Wake? ==> acts[i].w.now <= now
  }

  lemma OfferingKeepsInv(h: Hub, source: nat, payload: Payload, id: nat)
    requires HubInv(h)
    ensures HubInv(OfferTracked(h, source, payload, id))
    ensures OfferTracked(h, source, payload, id).history == h.history
  {
    hide Paced, InTimeOrder, Truthful, Spaced, Settled, Queued, Settle, Held;
    var offered := h.(log := h.log.(offered := h.log.offered + multiset{id}));
    SameTruth(h.log, offered.log);
    QueuedNext(h.events, Ingest(source, payload, Some(id)));
    SettlingOnly(offered, Some(id), Closed);
    SettlingOnly(offered, Some(id), QueueFull);
  }

  lemma SendingKeepsInv(h: Hub, e: HubEvent)
    requires HubInv(h) && ReceiptIn(e).None?
    ensures HubInv(SendEvent(h, e)) && SendEvent(h, e).history == h.history
  {
    hide Paced, InTimeOrder, Truthful, Spaced, Settled, Queued, Held;
    QueuedNext(h.events, e);
  }

  lemma StepKeepsInv(h: Hub, a: Act, now: nat)
    requires HubInv(h) && OnTime(h.history, now) && (a.Wake? ==> a.w.now == now)
    ensures HubInv(Step(h, a)) && OnTime(Step(h, a).history, now)
  {
    hide Paced, InTimeOrder, Truthful, Spaced, Settled, Queued, Turn, OfferTracked, SendEvent, OnTime;
    match a
    case Offer(source, payload, id) => OfferingKeepsInv(h, source, payload, id);
    case Post(e) =>
      if ReceiptIn(e).None? {
        SendingKeepsInv(h, e);
      }
    case Wake(wakening, w) => TurnKeepsInv(h, wakening, w);
    case Stop =>
  }

  lemma {:induction false} RunKeepsInv(start: nat, acts: seq<Act>, now: nat)
    requires ClockRunsForward(acts) && NotBefore(acts, now)
    ensures HubInv(Run(NewHub(start), acts)) && OnTime(Run(NewHub(start), acts).history, now)
  {
    hide HubInv, Step;
    if acts == [] {
      NewHubInv(start);
    } else {
      var n := |acts| - 1;
      var latest := if acts[n].Wake? then acts[n].w.now else now;
      RunKeepsInv(start, acts[..n], latest);
      StepKeepsInv(Run(NewHub(start), acts[..n]), acts[n], latest);
    }
  }

  // How often a payload with this receipt was offered.
  function Offers(acts: seq<Act>, id: nat): nat {
    if acts == [] then 0
    else Offers(acts[..|acts| - 1], id) + if acts[|acts| - 1].Offer? && acts[|acts| - 1].id == id then 1 else 0
  }

  lemma ProcessingOffersNothing(h: Hub, e: HubEvent, w: Surroundings)
    ensures Process(h, e, w).log.offered == h.log.offered
  {
    hide Verdict, Broadcast;
    if e.Ingest? {
      var application := Application(e.payload, e.receipt, e.source in h.subscribers, w.applies);
      var applied := h.(log := h.log.(applications := h.log.applications + [application]));
      BroadcastKeeps(Remember(applied, Remote(e.source), e.payload, w.now), e.payload, Some(e.source), w);
    } else if e.Local? {
      BroadcastKeeps(Remember(h, LocalSource, e.payload, w.now), e.payload, None, w);
    }
  }

  lemma TurningOffersNothing(h: Hub, wakening: Wakening, w: Surroundings)
    ensures Turn(h, wakening, w).log.offered == h.log.offered
  {
    hide Process;
    match wakening
    case TakeEvent =>
      if h.events != [] {
        ProcessingOffersNothing(h.(events := h.events[1..]), h.events[0], w);
      }
    case TakeLocal(payload) => ProcessingOffersNothing(h, Local(payload), w);
    case DeadlinePassed =>
      if h.pending.Some? {
        ProcessingOffersNothing(h.(pending := None), h.pending.value, w);
      }
  }

  lemma {:induction false} OffersAreLogged(start: nat, acts: seq<Act>, id: nat)
    ensures Run(NewHub(start), acts).log.offered[id] == Offers(acts, id)
  {
    hide Turn;
    if acts != [] {
      var n := |acts| - 1;
      OffersAreLogged(start, acts[..n], id);
      if acts[n].Wake? {
        TurningOffersNothing(Run(NewHub(start), acts[..n]), acts[n].wakening, acts[n].w);
      }
    }
  }

  // In every run under a clock that does not run backwards: the outcomes sent for a receipt, the times its caller had gone,
  // and its copies still waiting or queued add up to the times it was offered. A receipt offered once gets at most one outcome.
  lemma ReceiptsAreConserved(start: nat, acts: seq<Act>, now: nat, id: nat)
    requires ClockRunsForward(acts) && NotBefore(acts, now)
    ensures
      var h := Run(NewHub(start), acts);
      TimesSettled(h.log.receipts, id) + h.log.cancelled[id] + Held(h.pending)[id] + Queued(h.events)[id] == Offers(acts, id)
  {
    hide Regular, Settled, Queued, Held;
    RunKeepsInv(start, acts, now);
    OffersAreLogged(start, acts, id);
    SettledCounts(Run(NewHub(start), acts).log.receipts, id);
  }

  // In every run: Applied was sent only after a strict application succeeded for a source still subscribed; Superseded was
  // sent only for payloads pushed out of the slot, and for every one of them; only data waits in the slot; successes start
  // 200 ms apart; and any eleven recorded events of one source span more than ten seconds.
  lemma RunsAreOrderly(start: nat, acts: seq<Act>, now: nat, source: SourceKey)
    requires ClockRunsForward(acts) && NotBefore(acts, now)
    ensures
      var h := Run(NewHub(start), acts);
      Truthful(h.log) && ReplacedAreTold(h.log) && (h.pending.Some? ==> h.pending.value.IsData()) &&
      Spaced(h.log.started, h.nextAllowed) && ElevenSpanWindow(TimesOf(h.history, source))
  {
    hide Truthful, Spaced, ElevenSpanWindow, Paced, InTimeOrder;
    RunKeepsInv(start, acts, now);
    PacedHistory(Run(NewHub(start), acts).history, source);
  }
}
