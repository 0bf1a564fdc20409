/** Every run of the clipboard hub, without any assumption on the clock: each answer and each relayed payload has its reason, the
    answers agree with what was applied, and events are handled in the order in which they were accepted. */
module ClipboardRuns {

  import opened Wrappers
  import opened ClipboardPolicy
  import opened ClipboardHub
  import opened ClipboardEffects

  // ---------- The answers agree with what was done ----------

  // The receipts that were answered like this, and those of applications that ended like this.
  function Answered(receipts: seq<Receipt>, outcome: Outcome): multiset<nat> {
    if receipts == [] then multiset{}
    else
      var n := |receipts| - 1;
      Answered(receipts[..n], outcome) + if receipts[n].outcome == outcome then multiset{receipts[n].id} else multiset{}
  }

  function TrackedReceipts(applications: seq<Application>, succeeded: bool): multiset<nat> {
    if applications == [] then multiset{}
    else
      var n := |applications| - 1;
      TrackedReceipts(applications[..n], succeeded) +
      if applications[n].succeeded == succeeded && applications[n].receipt.Some?
      then multiset{applications[n].receipt.value} else multiset{}
  }

  lemma AnsweredNext(receipts: seq<Receipt>, r: Receipt, outcome: Outcome)
    ensures Answered(receipts + [r], outcome) ==
      Answered(receipts, outcome) + if r.outcome == outcome then multiset{r.id} else multiset{}
  {
    assert (receipts + [r])[..|receipts|] == receipts;
  }

  lemma TrackedNext(applications: seq<Application>, a: Application, succeeded: bool)
    ensures TrackedReceipts(applications + [a], succeeded) == TrackedReceipts(applications, succeeded) +
      if a.succeeded == succeeded && a.receipt.Some? then multiset{a.receipt.value} else multiset{}
  {
    assert (applications + [a])[..|applications|] == applications;
  }

  ghost predicate AnswersAgree(log: Log) {
    Answered(log.receipts, Applied) == TrackedReceipts(log.applications, true) &&
    Answered(log.receipts, Failed) == TrackedReceipts(log.applications, false) &&
    Answered(log.receipts, Superseded) == log.replaced
  }

  // An answer that says neither of these changes none of them.
  lemma OtherAnswerAgrees(log: Log, log': Log, r: Receipt)
    requires AnswersAgree(log) && log'.receipts == log.receipts + [r] && r.outcome in {TooMany, QueueFull, Closed}
    requires log'.applications == log.applications && log'.replaced == log.replaced
    ensures AnswersAgree(log')
  {
    hide Answered, TrackedReceipts;
    AnsweredNext(log.receipts, r, Applied);
    AnsweredNext(log.receipts, r, Failed);
    AnsweredNext(log.receipts, r, Superseded);
  }

  lemma ApplicationAgrees(log: Log, log': Log, a: Application)
    requires AnswersAgree(log) && log'.applications == log.applications + [a] && log'.replaced == log.replaced
    requires log'.receipts ==
      if a.receipt.Some? then log.receipts + [Receipt(a.receipt.value, if a.succeeded then Applied else Failed)] else log.receipts
    ensures AnswersAgree(log')
  {
    hide Answered, TrackedReceipts;
    TrackedNext(log.applications, a, true);
    TrackedNext(log.applications, a, false);
    if a.receipt.Some? {
      var r := Receipt(a.receipt.value, if a.succeeded then Applied else Failed);
      AnsweredNext(log.receipts, r, Applied);
      AnsweredNext(log.receipts, r, Failed);
      AnsweredNext(log.receipts, r, Superseded);
    }
  }

  lemma SupersedingAgrees(h: Hub)
    requires AnswersAgree(h.log)
    ensures AnswersAgree(Supersedes(h))
  {
    hide Answered, TrackedReceipts;
    if h.pending.Some? && ReceiptIn(h.pending.value).Some? {
      var r := Receipt(ReceiptIn(h.pending.value).value, Superseded);
      AnsweredNext(h.log.receipts, r, Applied);
      AnsweredNext(h.log.receipts, r, Failed);
      AnsweredNext(h.log.receipts, r, Superseded);
    }
  }

  lemma HandlingAgrees(h: Hub, e: HubEvent, w: Surroundings)
    requires AnswersAgree(h.log)
    ensures AnswersAgree(Process(h, e, w).log)
  {
    hide Process, AnswersAgree, TenRecent, SeenRecently;
    var r := Process(h, e, w);
    if e.IsData() {
      DataIsExact(h, e, w);
      if Admitted(h, e, w) && e.Ingest? {
        ApplicationAgrees(h.log, r.log, Application(e.payload, e.receipt, e.source in h.subscribers, w.applies));
      } else if Awaited(e, w) {
        OtherAnswerAgrees(h.log, r.log, Receipt(e.receipt.value, OutcomeOf(h, e, w)));
      } else {
        SameAnswersAgree(h.log, r.log);
      }
    } else {
      ControlIsExact(h, e, w);
      if LeavesSlot(h, e) && h.pending.value.receipt.Some? {
        OtherAnswerAgrees(h.log, r.log, Receipt(h.pending.value.receipt.value, Closed));
      }
    }
  }

  lemma SameAnswersAgree(log: Log, log': Log)
    requires AnswersAgree(log) && log'.receipts == log.receipts && log'.applications == log.applications
    requires log'.replaced == log.replaced
    ensures AnswersAgree(log')
  {}

  lemma StepAgrees(h: Hub, a: Act)
    requires AnswersAgree(h.log)
    ensures AnswersAgree(Step(h, a).log)
  {
    hide AnswersAgree, Process, Turn, InHand, TakenData, Supersedes;
    match a
    case Offer(source, payload, id) =>
      var offered := h.log.(offered := h.log.offered + multiset{id});
      SameAnswersAgree(h.log, offered);
      if !h.running {
        OtherAnswerAgrees(offered, Step(h, a).log, Receipt(id, Closed));
      } else if |h.events| >= INGEST_CAPACITY {
        OtherAnswerAgrees(offered, Step(h, a).log, Receipt(id, QueueFull));
      }
    case Post(_) =>
    case Stop =>
    case Wake(wakening, w) =>
      TurnIsExact(h, wakening, w);
      if InHand(h, wakening, w).Some? {
        HandlingAgrees(WithoutTaken(h, wakening, w), InHand(h, wakening, w).value, w);
      } else if TakenData(h, wakening).Some? {
        SupersedingAgrees(h);
      }
  }

  // In every run: the receipts answered Applied are those of the tracked applications that succeeded, the ones answered Failed
  // those of the ones that failed, and the ones answered Superseded those of the payloads pushed out of the slot, each as often.
  lemma {:induction false} AnswersMatch(start: nat, acts: seq<Act>)
    ensures AnswersAgree(Run(NewHub(start), acts).log)
  {
    hide Step;
    if acts != [] {
      var n := |acts| - 1;
      AnswersMatch(start, acts[..n]);
      StepAgrees(Run(NewHub(start), acts[..n]), acts[n]);
    }
  }

  // ---------- Every answer has its reason ----------

  predicate IsOf(e: HubEvent, id: nat) {
    e.Ingest? && e.receipt == Some(id)
  }

  // Why act a, in state h, gives this answer.
  ghost predicate Justified(h: Hub, a: Act, r: Receipt) {
    match a
    case Offer(_, _, id) =>
      id == r.id && if h.running then r.outcome == QueueFull && |h.events| >= 64 else r.outcome == Closed
    case Post(_) => false
    case Stop => false
    case Wake(wakening, w) =>
      var hand := InHand(h, wakening, w);
      (hand.Some? && IsOf(hand.value, r.id) && !w.cancelled && JustifiedNow(h, hand.value.source, r.outcome, w)) ||
      (hand.Some? && LeavesSlot(h, hand.value) && IsOf(h.pending.value, r.id) && r.outcome == Closed) ||
      (hand.None? && TakenData(h, wakening).Some? && h.pending.Some? && IsOf(h.pending.value, r.id) && r.outcome == Superseded)
  }

  // The outcome for a tracked payload of this source that is handled now.
  ghost predicate JustifiedNow(h: Hub, source: nat, outcome: Outcome, w: Surroundings) {
    match outcome
    case Closed => source !in h.subscribers
    case TooMany => source in h.subscribers && TenRecent(h.history, Remote(source), w.now)
    case Applied => source in h.subscribers && !TenRecent(h.history, Remote(source), w.now) && w.applies
    case Failed => source in h.subscribers && !TenRecent(h.history, Remote(source), w.now) && !w.applies
    case _ => false
  }

  // A step gives at most one answer, and that has its reason; and it gives one whenever there is a reason for it.
  ghost predicate AnswersOnce(h: Hub, a: Act, receipts: seq<Receipt>) {
    if receipts == h.log.receipts then forall r :: !Justified(h, a, r)
    else
      |receipts| == |h.log.receipts| + 1 && receipts[..|h.log.receipts|] == h.log.receipts &&
      Justified(h, a, receipts[|h.log.receipts|])
  }

  lemma AnswerGiven(h: Hub, a: Act, r: Receipt)
    requires Justified(h, a, r)
    ensures AnswersOnce(h, a, h.log.receipts + [r])
  {
    hide Justified;
    assert |h.log.receipts + [r]| != |h.log.receipts|;
  }

  lemma DataAnswers(h: Hub, a: Act)
    requires a.Wake? && InHand(h, a.wakening, a.w).Some? && InHand(h, a.wakening, a.w).value.IsData()
    ensures AnswersOnce(h, a, Step(h, a).log.receipts)
  {
    hide Process, Turn, TenRecent, SeenRecently, InHand, AnswersOnce;
    var w, hand, left := a.w, InHand(h, a.wakening, a.w).value, WithoutTaken(h, a.wakening, a.w);
    TurnIsExact(h, a.wakening, w);
    DataIsExact(left, hand, w);
    if Awaited(hand, w) {
      var r := Receipt(hand.receipt.value, OutcomeOf(left, hand, w));
      assert JustifiedNow(h, hand.source, r.outcome, w);
      AnswerGiven(h, a, r);
    } else {
      SilentData(h, a);
    }
  }

  lemma SilentData(h: Hub, a: Act)
    requires a.Wake? && InHand(h, a.wakening, a.w).Some? && InHand(h, a.wakening, a.w).value.IsData()
    requires !Awaited(InHand(h, a.wakening, a.w).value, a.w)
    ensures AnswersOnce(h, a, h.log.receipts)
  {
    hide InHand, JustifiedNow;
  }

  lemma ControlAnswers(h: Hub, a: Act)
    requires a.Wake? && InHand(h, a.wakening, a.w).Some? && !InHand(h, a.wakening, a.w).value.IsData()
    ensures AnswersOnce(h, a, Step(h, a).log.receipts)
  {
    hide Process, Turn, JustifiedNow, AnswersOnce;
    var w, hand, left := a.w, InHand(h, a.wakening, a.w).value, WithoutTaken(h, a.wakening, a.w);
    TurnIsExact(h, a.wakening, w);
    ControlIsExact(left, hand, w);
    assert left.log == h.log && !hand.Ingest?;
    if LeavesSlot(left, hand) && left.pending.value.receipt.Some? {
      var r := Receipt(left.pending.value.receipt.value, Closed);
      assert left.pending == h.pending;
      AnswerGiven(h, a, r);
    } else {
      SilentControl(h, a, left);
    }
  }

  lemma SilentControl(h: Hub, a: Act, left: Hub)
    requires a.Wake? && InHand(h, a.wakening, a.w).Some? && !InHand(h, a.wakening, a.w).value.IsData()
    requires left == WithoutTaken(h, a.wakening, a.w)
    requires !(LeavesSlot(left, InHand(h, a.wakening, a.w).value) && left.pending.value.receipt.Some?)
    ensures AnswersOnce(h, a, h.log.receipts)
  {
    hide JustifiedNow;
  }

  lemma ParkingAnswers(h: Hub, a: Act)
    requires a.Wake? && InHand(h, a.wakening, a.w).None?
    ensures AnswersOnce(h, a, Step(h, a).log.receipts)
  {
    hide Process, Turn, JustifiedNow, InHand, AnswersOnce, TakenData;
    TurnIsExact(h, a.wakening, a.w);
    if TakenData(h, a.wakening).Some? && h.pending.Some? && ReceiptIn(h.pending.value).Some? {
      AnswerGiven(h, a, Receipt(ReceiptIn(h.pending.value).value, Superseded));
    } else {
      SilentTurn(h, a);
    }
  }

  lemma SilentTurn(h: Hub, a: Act)
    requires a.Wake? && InHand(h, a.wakening, a.w).None?
    requires !(TakenData(h, a.wakening).Some? && h.pending.Some? && ReceiptIn(h.pending.value).Some?)
    ensures AnswersOnce(h, a, h.log.receipts)
  {
    hide JustifiedNow, InHand, TakenData;
  }

  lemma StepAnswers(h: Hub, a: Act)
    ensures AnswersOnce(h, a, Step(h, a).log.receipts)
  {
    hide Process, Turn, InHand;
    if a.Wake? {
      hide Step, AnswersOnce;
      if InHand(h, a.wakening, a.w).None? {
        ParkingAnswers(h, a);
      } else if InHand(h, a.wakening, a.w).value.IsData() {
        DataAnswers(h, a);
      } else {
        ControlAnswers(h, a);
      }
    }
  }

  // Act n of the run gave answer i, for a reason.
  ghost predicate HasReason(start: nat, acts: seq<Act>, r: Receipt) {
    exists n: nat :: GivenAt(start, acts, n, r)
  }

  ghost predicate GivenAt(start: nat, acts: seq<Act>, n: nat, r: Receipt) {
    n < |acts| && Justified(Run(NewHub(start), acts[..n]), acts[n], r)
  }

  // In every run every answer has its reason.
  lemma {:induction false} AnswersAreJustified(start: nat, acts: seq<Act>, i: nat)
    requires i < |Run(NewHub(start), acts).log.receipts|
    ensures HasReason(start, acts, Run(NewHub(start), acts).log.receipts[i])
  {
    hide Step, Justified;
    if acts != [] {
      var n := |acts| - 1;
      var h := Run(NewHub(start), acts[..n]);
      StepAnswers(h, acts[n]);
      if i < |h.log.receipts| {
        AnswersAreJustified(start, acts[..n], i);
        var m: nat :| GivenAt(start, acts[..n], m, h.log.receipts[i]);
        assert acts[..n][..m] == acts[..m];
        assert GivenAt(start, acts, m, h.log.receipts[i]);
      } else {
        assert GivenAt(start, acts, n, Run(NewHub(start), acts).log.receipts[i]);
      }
    }
  }

  // ---------- Every relayed payload has its reason ----------

  // What act a puts into the channel of this device.
  ghost function SentBy(h: Hub, a: Act, device: nat): seq<Payload> {
    if !a.Wake? || InHand(h, a.wakening, a.w).None? then []
    else
      var e := InHand(h, a.wakening, a.w).value;
      if e.IsData() then if Admitted(h, e, a.w) && Gets(h, device, e, a.w) then [e.payload] else []
      else if GetsSnapshot(h, device, e, a.w) then [a.w.current.value] else []
  }

  lemma DataRelays(h: Hub, a: Act, device: nat)
    requires a.Wake? && InHand(h, a.wakening, a.w).Some? && InHand(h, a.wakening, a.w).value.IsData()
    ensures Inbox(Step(h, a).inboxes, device) == Inbox(h.inboxes, device) + SentBy(h, a, device)
  {
    hide Process, Turn, InHand, TenRecent, SeenRecently, Inbox, TakenData;
    var e, left := InHand(h, a.wakening, a.w).value, WithoutTaken(h, a.wakening, a.w);
    TurnIsExact(h, a.wakening, a.w);
    DataIsExact(left, e, a.w);
    assert Admitted(left, e, a.w) <==> Admitted(h, e, a.w);
    if Admitted(left, e, a.w) {
      assert RelayedTo(left, Process(left, e, a.w), e, a.w, device);
    }
  }

  lemma StepRelays(h: Hub, a: Act, device: nat)
    ensures Inbox(Step(h, a).inboxes, device) == Inbox(h.inboxes, device) + SentBy(h, a, device)
  {
    hide Process, Turn, InHand, Inbox, TakenData, Admitted, Gets;
    if a.Wake? {
      var left := WithoutTaken(h, a.wakening, a.w);
      TurnIsExact(h, a.wakening, a.w);
      if InHand(h, a.wakening, a.w).Some? {
        if InHand(h, a.wakening, a.w).value.IsData() {
          DataRelays(h, a, device);
        } else {
          ControlIsExact(left, InHand(h, a.wakening, a.w).value, a.w);
        }
      }
    }
  }

  ghost function SentOver(start: nat, acts: seq<Act>, device: nat): seq<Payload> {
    if acts == [] then []
    else
      var n := |acts| - 1;
      SentOver(start, acts[..n], device) + SentBy(Run(NewHub(start), acts[..n]), acts[n], device)
  }

  // In every run a device has been sent exactly: each payload that was let through while the device was subscribed, enabled and
  // reachable, unless it came from the device itself, and the clipboard's content when it first enabled receiving.
  lemma {:induction false} RelaysAreExact(start: nat, acts: seq<Act>, device: nat)
    ensures Inbox(Run(NewHub(start), acts).inboxes, device) == SentOver(start, acts, device)
  {
    hide Step, SentBy;
    if acts != [] {
      var n := |acts| - 1;
      RelaysAreExact(start, acts[..n], device);
      StepRelays(Run(NewHub(start), acts[..n]), acts[n], device);
    }
  }

  // ---------- First come, first served; latest wins ----------

  // The events that act a puts into the queue, and takes from it.
  function PutBy(h: Hub, a: Act): seq<HubEvent> {
    if !h.running || |h.events| >= 64 then []
    else match a
      case Offer(source, payload, id) => [Ingest(source, payload, Some(id))]
      case Post(e) => if ReceiptIn(e).None? then [e] else []
      case _ => []
  }

  function TakenBy(h: Hub, a: Act): seq<HubEvent> {
    if a.Wake? && a.wakening.TakeEvent? && h.running && h.events != [] then [h.events[0]] else []
  }

  ghost function PutOver(start: nat, acts: seq<Act>): seq<HubEvent> {
    if acts == [] then []
    else PutOver(start, acts[..|acts| - 1]) + PutBy(Run(NewHub(start), acts[..|acts| - 1]), acts[|acts| - 1])
  }

  ghost function TakenOver(start: nat, acts: seq<Act>): seq<HubEvent> {
    if acts == [] then []
    else TakenOver(start, acts[..|acts| - 1]) + TakenBy(Run(NewHub(start), acts[..|acts| - 1]), acts[|acts| - 1])
  }

  lemma StepQueues(h: Hub, a: Act)
    ensures TakenBy(h, a) + Step(h, a).events == h.events + PutBy(h, a)
  {
    hide Process, Turn, TenRecent, SeenRecently;
    if a.Wake? {
      var left := WithoutTaken(h, a.wakening, a.w);
      TurnIsExact(h, a.wakening, a.w);
      if InHand(h, a.wakening, a.w).Some? {
        var e := InHand(h, a.wakening, a.w).value;
        if e.IsData() {
          DataIsExact(left, e, a.w);
        } else {
          ControlIsExact(left, e, a.w);
        }
      }
      assert Step(h, a).events == left.events;
    }
  }

  // In every run: what has been taken from the queue, followed by what is in it, is what was accepted, in that order. An event is
  // accepted exactly when the hub runs and fewer than 64 are queued.
  lemma {:induction false} QueueIsFifo(start: nat, acts: seq<Act>)
    ensures TakenOver(start, acts) + Run(NewHub(start), acts).events == PutOver(start, acts)
  {
    hide Step, PutBy, TakenBy;
    if acts != [] {
      var n := |acts| - 1;
      var h := Run(NewHub(start), acts[..n]);
      QueueIsFifo(start, acts[..n]);
      StepQueues(h, acts[n]);
      var taken, put := TakenBy(h, acts[n]), PutBy(h, acts[n]);
      assert TakenOver(start, acts[..n]) + (taken + Step(h, acts[n]).events) ==
        TakenOver(start, acts) + Step(h, acts[n]).events;
      assert TakenOver(start, acts[..n]) + (h.events + put) == PutOver(start, acts);
    }
  }

  // The last data event that a turn has taken.
  ghost function LatestTaken(start: nat, acts: seq<Act>): Option<HubEvent> {
    if acts == [] then None
    else
      var n := |acts| - 1;
      var h := Run(NewHub(start), acts[..n]);
      if acts[n].Wake? && TakenData(h, acts[n].wakening).Some? then TakenData(h, acts[n].wakening)
      else LatestTaken(start, acts[..n])
  }

  lemma StepKeepsSlot(h: Hub, a: Act)
    ensures
      var taken := if a.Wake? then TakenData(h, a.wakening) else None;
      Step(h, a).pending.Some? ==> Step(h, a).pending == if taken.Some? then taken else h.pending
    ensures a.Wake? && InHand(h, a.wakening, a.w).Some? && InHand(h, a.wakening, a.w).value.IsData() ==>
      Step(h, a).pending.None? &&
      InHand(h, a.wakening, a.w) == if TakenData(h, a.wakening).Some? then TakenData(h, a.wakening) else h.pending
  {
    hide Process, Turn, TenRecent, SeenRecently;
    if a.Wake? {
      var left := WithoutTaken(h, a.wakening, a.w);
      TurnIsExact(h, a.wakening, a.w);
      if InHand(h, a.wakening, a.w).Some? {
        var e := InHand(h, a.wakening, a.w).value;
        if e.IsData() {
          DataIsExact(left, e, a.w);
        } else {
          ControlIsExact(left, e, a.w);
        }
      }
    }
  }

  // In every run: what waits in the slot is the latest data event that was taken, and so is whatever a turn handles as data.
  lemma {:induction false} LatestWins(start: nat, acts: seq<Act>)
    ensures
      var h := Run(NewHub(start), acts);
      h.pending.Some? ==> h.pending == LatestTaken(start, acts)
    ensures
      acts != [] && acts[|acts| - 1].Wake? ==>
        var h, a := Run(NewHub(start), acts[..|acts| - 1]), acts[|acts| - 1];
        var hand := InHand(h, a.wakening, a.w);
        hand.Some? && hand.value.IsData() ==> hand == LatestTaken(start, acts)
  {
    hide Step, InHand, TakenData;
    if acts != [] {
      var n := |acts| - 1;
      LatestWins(start, acts[..n]);
      StepKeepsSlot(Run(NewHub(start), acts[..n]), acts[n]);
    }
  }

  lemma StepIsUnpaced(h: Hub, a: Act)
    requires h.pending.None? && (a.Wake? ==> TakenData(h, a.wakening).None?)
    ensures Step(h, a).pending.None? && Step(h, a).nextAllowed == h.nextAllowed && (a != Stop ==> Step(h, a).running == h.running)
  {
    hide Process, Turn;
    if a.Wake? {
      TurnIsExact(h, a.wakening, a.w);
      if InHand(h, a.wakening, a.w).Some? {
        ControlIsExact(WithoutTaken(h, a.wakening, a.w), InHand(h, a.wakening, a.w).value, a.w);
      }
    }
  }

  // The first data event of a run does not wait: as long as none has been taken, the next one is handled as it is taken.
  lemma {:induction false} FirstIsHandledAtOnce(start: nat, acts: seq<Act>, wakening: Wakening, w: Surroundings)
    requires LatestTaken(start, acts).None? && w.now >= start
    ensures
      var h := Run(NewHub(start), acts);
      h.pending.None? && h.nextAllowed == start && (Stop !in acts ==> h.running) &&
      (TakenData(h, wakening).Some? ==> InHand(h, wakening, w) == TakenData(h, wakening))
  {
    hide Step;
    if acts != [] {
      var n := |acts| - 1;
      FirstIsHandledAtOnce(start, acts[..n], wakening, w);
      StepIsUnpaced(Run(NewHub(start), acts[..n]), acts[n]);
      assert acts == acts[..n] + [acts[n]];
    }
  }
}
