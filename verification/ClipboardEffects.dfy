/** What one event does to the clipboard hub, said device by device and answer by answer. */
module ClipboardEffects {

  import opened Wrappers
  import opened ClipboardPolicy
  import opened ClipboardHub

  // ---------- Who may pass ----------

  predicate IsRecent(e: Recorded, source: SourceKey, now: nat) {
    e.source == source && now - e.at <= 10 * SECOND
  }

  // The recorded events of a source that are at most ten seconds old.
  function RecentOnes(history: seq<Recorded>, source: SourceKey, now: nat): set<nat> {
    set i: nat | i < |history| && IsRecent(history[i], source, now)
  }

  ghost predicate TenRecent(history: seq<Recorded>, source: SourceKey, now: nat) {
    |RecentOnes(history, source, now)| >= 10
  }

  lemma {:induction false} RecentOnesAreCounted(history: seq<Recorded>, source: SourceKey, now: nat)
    ensures |RecentOnes(history, source, now)| == |Recent(TimesOf(history, source), now)|
  {
    if history != [] {
      var n := |history| - 1;
      RecentOnesAreCounted(history[..n], source, now);
      RecentOnesNext(history, source, now);
      var times := TimesOf(history[..n], source);
      hide RecentOnes;
      assert (times + [history[n].at])[..|times|] == times;
      assert times + [] == times;
    }
  }

  lemma RecentOnesNext(history: seq<Recorded>, source: SourceKey, now: nat)
    requires history != []
    ensures
      var n := |history| - 1;
      |RecentOnes(history, source, now)| == |RecentOnes(history[..n], source, now)| +
        if IsRecent(history[n], source, now) then 1 else 0
  {
    hide IsRecent;
    var n := |history| - 1;
    var earlier, last := RecentOnes(history[..n], source, now), if IsRecent(history[n], source, now) then {n} else {};
    assert RecentOnes(history, source, now) == earlier + last;
    assert n !in earlier;
  }

  lemma VerdictIsExact(history: seq<Recorded>, source: SourceKey, signature: string, now: nat, dedupe: bool)
    ensures Verdict(history, source, signature, now, dedupe) ==
      if dedupe && SeenRecently(history, signature, now) then Err(Duplicate)
      else if TenRecent(history, source, now) then Err(RateLimited)
      else Ok(())
  {
    RecentOnesAreCounted(history, source, now);
  }

  function SourceOf(e: HubEvent): SourceKey
    requires e.IsData()
  {
    if e.Ingest? then Remote(e.source) else LocalSource
  }

  // A tracked payload whose caller is still waiting.
  predicate Awaited(e: HubEvent, w: Surroundings) {
    e.Ingest? && e.receipt.Some? && !w.cancelled
  }

  // The payload is let through: tracked ones need a waiting caller and a subscribed source, all others must not be known, a local
  // one must be new to the clipboard, and the source must not have had ten events within ten seconds.
  ghost predicate Admitted(h: Hub, e: HubEvent, w: Surroundings)
    requires e.IsData()
  {
    !TenRecent(h.history, SourceOf(e), w.now) &&
    if ReceiptIn(e).Some? then !w.cancelled && e.source in h.subscribers
    else !SeenRecently(h.history, e.payload.signature, w.now) && (e.Local? ==> w.noted)
  }

  // The device is to be sent what comes from this source, and can be.
  predicate Gets(h: Hub, device: nat, e: HubEvent, w: Surroundings)
    requires e.IsData()
  {
    device in h.subscribers && h.subscribers[device].receiveEnabled && Remote(device) != SourceOf(e) &&
    device !in w.full && device !in w.gone
  }

  ghost function OutcomeOf(h: Hub, e: HubEvent, w: Surroundings): Outcome
    requires e.IsData()
  {
    if SourceOf(e).LocalSource? || e.source !in h.subscribers then Closed
    else if TenRecent(h.history, SourceOf(e), w.now) then TooMany
    else if w.applies then Applied
    else Failed
  }

  // The device keeps its subscription when the payload is relayed.
  predicate Stays(h: Hub, device: nat, e: HubEvent, w: Surroundings)
    requires e.IsData()
  {
    device in h.subscribers &&
    !(h.subscribers[device].receiveEnabled && Remote(device) != SourceOf(e) && device in w.gone)
  }

  // ---------- Data ----------

  ghost predicate RelayedTo(h: Hub, r: Hub, e: HubEvent, w: Surroundings, device: nat)
    requires e.IsData()
  {
    Inbox(r.inboxes, device) == Inbox(h.inboxes, device) + (if Gets(h, device, e, w) then [e.payload] else []) &&
    (device in r.subscribers <==> Stays(h, device, e, w)) &&
    (device in r.subscribers ==> r.subscribers[device] == h.subscribers[device])
  }

  lemma RelayIsExact(h: Hub, e: HubEvent, exclude: Option<nat>, w: Surroundings)
    requires e.IsData() && exclude == if e.Ingest? then Some(e.source) else None
    ensures forall device :: RelayedTo(h, Broadcast(h, e.payload, exclude, w), e, w, device)
  {}

  function Answers(h: Hub, e: HubEvent, outcome: Outcome, w: Surroundings): seq<Receipt> {
    if Awaited(e, w) then h.log.receipts + [Receipt(e.receipt.value, outcome)] else h.log.receipts
  }

  // What becomes of a data event that is handled: what is recorded, applied and answered, when the next one may start, and that
  // nothing else changes but what is relayed.
  lemma DataIsExact(h: Hub, e: HubEvent, w: Surroundings)
    requires e.IsData()
    ensures
      var r, admitted := Process(h, e, w), Admitted(h, e, w);
      var succeeded := admitted && (e.Local? || w.applies);
      var application := Application(e.payload, ReceiptIn(e), e.Ingest? && e.source in h.subscribers, w.applies);
      r == h.(
        history := if admitted then h.history + [Recorded(SourceOf(e), e.payload.signature, w.now)] else h.history,
        nextAllowed := if succeeded then w.now + SECOND / 5 else h.nextAllowed,
        subscribers := r.subscribers,
        inboxes := r.inboxes,
        log := h.log.(
          receipts := Answers(h, e, OutcomeOf(h, e, w), w),
          cancelled := if ReceiptIn(e).Some? && w.cancelled then h.log.cancelled + multiset{e.receipt.value} else h.log.cancelled,
          applications := if admitted && e.Ingest? then h.log.applications + [application] else h.log.applications,
          started := if succeeded then h.log.started + [w.now] else h.log.started))
    ensures
      var r := Process(h, e, w);
      if Admitted(h, e, w) then forall device :: RelayedTo(h, r, e, w, device)
      else r.subscribers == h.subscribers && r.inboxes == h.inboxes
  {
    hide Verdict, Broadcast, TenRecent, SeenRecently, Gets, Stays, Inbox;
    VerdictIsExact(h.history, SourceOf(e), e.payload.signature, w.now, ReceiptIn(e).None?);
    var exclude := if e.Ingest? then Some(e.source) else None;
    if Admitted(h, e, w) {
      var application := Application(e.payload, ReceiptIn(e), e.Ingest? && e.source in h.subscribers, w.applies);
      var applied := if e.Ingest? then h.(log := h.log.(applications := h.log.applications + [application])) else h;
      var known := Remember(applied, SourceOf(e), e.payload, w.now);
      RelayIsExact(known, e, exclude, w);
      BroadcastKeeps(known, e.payload, exclude, w);
      var told := Broadcast(known, e.payload, exclude, w);
      forall device
        ensures RelayedTo(h, Process(h, e, w), e, w, device)
      {
        SameSubscribers(h, known, told, Process(h, e, w), e, w, device);
      }
    }
  }

  lemma SameSubscribers(h: Hub, known: Hub, told: Hub, r: Hub, e: HubEvent, w: Surroundings, device: nat)
    requires e.IsData() && known.subscribers == h.subscribers && known.inboxes == h.inboxes
    requires RelayedTo(known, told, e, w, device) && r.subscribers == told.subscribers && r.inboxes == told.inboxes
    ensures RelayedTo(h, r, e, w, device)
  {}

  // ---------- Control ----------

  // The first time a device enables receiving, it is sent what the clipboard holds.
  predicate GetsSnapshot(h: Hub, device: nat, e: HubEvent, w: Surroundings) {
    e == SetReceiveEnabled(device, true) && device in h.subscribers && !h.subscribers[device].receiveEnabled &&
    !h.subscribers[device].snapshotSent && w.current.Some? && device !in w.full && device !in w.gone
  }

  // The payload that waits in the slot comes from the device that leaves.
  predicate LeavesSlot(h: Hub, e: HubEvent) {
    e.Unsubscribe? && h.pending.Some? && h.pending.value.Ingest? && h.pending.value.source == e.device
  }

  function SubscriptionAfter(h: Hub, e: HubEvent, device: nat): Option<Subscriber> {
    var before := if device in h.subscribers then Some(h.subscribers[device]) else None;
    match e
    case Subscribe(d) => if d == device then Some(Subscriber(false, false)) else before
    case Unsubscribe(d) => if d == device then None else before
    case SetReceiveEnabled(d, enabled) =>
      if d != device || before.None? then before
      else
        var s := before.value;
        Some(Subscriber(enabled, s.snapshotSent || (enabled && !s.receiveEnabled)))
    case _ => before
  }

  function Slotless(h: Hub, e: HubEvent): seq<Receipt> {
    if LeavesSlot(h, e) && h.pending.value.receipt.Some?
    then h.log.receipts + [Receipt(h.pending.value.receipt.value, Closed)] else h.log.receipts
  }

  lemma ControlIsExact(h: Hub, e: HubEvent, w: Surroundings)
    requires !e.IsData()
    ensures
      var r := Process(h, e, w);
      r == h.(subscribers := r.subscribers, inboxes := r.inboxes, pending := if LeavesSlot(h, e) then None else h.pending,
              log := h.log.(receipts := Slotless(h, e)))
    ensures forall device ::
      var r := Process(h, e, w);
      (if device in r.subscribers then Some(r.subscribers[device]) else None) == SubscriptionAfter(h, e, device) &&
      Inbox(r.inboxes, device) == Inbox(h.inboxes, device) + if GetsSnapshot(h, device, e, w) then [w.current.value] else []
  {}

  // ---------- One turn ----------

  // The event that this turn handles: control events at once, data when nothing waits and the interval is over, and what waits
  // when its deadline has passed.
  function InHand(h: Hub, wakening: Wakening, w: Surroundings): Option<HubEvent> {
    if !h.running then None
    else match wakening
      case TakeEvent =>
        if h.events != [] && (h.events[0].IsData() ==> h.pending.None? && w.now >= h.nextAllowed) then Some(h.events[0]) else None
      case TakeLocal(payload) => if h.pending.None? && w.now >= h.nextAllowed then Some(Local(payload)) else None
      case DeadlinePassed => if w.now >= h.nextAllowed then h.pending else None
  }

  // The data event that this turn takes.
  function TakenData(h: Hub, wakening: Wakening): Option<HubEvent> {
    if !h.running then None
    else match wakening
      case TakeEvent => if h.events != [] && h.events[0].IsData() then Some(h.events[0]) else None
      case TakeLocal(payload) => Some(Local(payload))
      case DeadlinePassed => None
  }

  function WithoutTaken(h: Hub, wakening: Wakening, w: Surroundings): Hub {
    match wakening
    case TakeEvent => if h.running && h.events != [] then h.(events := h.events[1..]) else h
    case TakeLocal(_) => h
    case DeadlinePassed => if h.running && w.now >= h.nextAllowed then h.(pending := None) else h
  }

  function Supersedes(h: Hub): Log {
    if h.pending.None? then h.log
    else if ReceiptIn(h.pending.value).None? then h.log
    else
      var id := ReceiptIn(h.pending.value).value;
      h.log.(receipts := h.log.receipts + [Receipt(id, Superseded)], replaced := h.log.replaced + multiset{id})
  }

  // The event in hand is handled; a data event that has to wait takes the slot, and what was there is told so.
  lemma TurnIsExact(h: Hub, wakening: Wakening, w: Surroundings)
    ensures
      var left := WithoutTaken(h, wakening, w);
      Turn(h, wakening, w) ==
        if InHand(h, wakening, w).Some? then Process(left, InHand(h, wakening, w).value, w)
        else if TakenData(h, wakening).Some? then left.(pending := TakenData(h, wakening), log := Supersedes(h))
        else left
  {
    hide Process;
    assert h.log.replaced + multiset{} == h.log.replaced;
  }
}
