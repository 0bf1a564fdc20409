/** How a waiting side of the ring is woken: a flag that coalesces notifications, and a semaphore. Any number of threads may
    notify; one may wait. */
module Wakeup {

  // What a notifying thread does next. version is the change it has published and is about to announce.
  datatype Notifier =
    | Quiet
    | Publishing(version: nat)
    | Signalling(version: nat)

  // What the waiting thread does next: look at the ring, wait on the semaphore, or clear the flag after its wait returned.
  datatype Waiter = Checking | Waiting | Clearing

  // version counts the changes published so far: cursor stores and the store of closed. seen is the count at the waiter's
  // last look, and announced the last change whose announcement has passed the exchange of the flag.
  datatype Bell = Bell(
    notified: bool,
    semaphore: nat,
    notifiers: seq<Notifier>,
    waiter: Waiter,
    version: nat,
    seen: nat,
    announced: nat)

  datatype Action =
    | Publish(thread: nat)
    | Exchange(thread: nat)
    | Signal(thread: nat)
    | Check
    | Acquire
    | GiveUp
    | Clear

  function Initial(threads: nat): Bell {
    Bell(false, 0, seq(threads, _ => Quiet), Checking, 0, 0, 0)
  }

  function Max(a: nat, b: nat): nat {
    if a < b then b else a
  }

  // An action that is not next for its thread leaves everything as it is.
  function Step(b: Bell, a: Action): Bell {
    match a
    case Publish(i) =>
      if i < |b.notifiers| && b.notifiers[i].Quiet? then
        b.(version := b.version + 1, notifiers := b.notifiers[i := Publishing(b.version + 1)])
      else b
    case Exchange(i) =>
      if i < |b.notifiers| && b.notifiers[i].Publishing? then
        var version := b.notifiers[i].version;
        b.(notified := true, announced := Max(b.announced, version),
           notifiers := b.notifiers[i := if b.notified then Quiet else Signalling(version)])
      else b
    case Signal(i) =>
      if i < |b.notifiers| && b.notifiers[i].Signalling? then
        b.(semaphore := b.semaphore + 1, notifiers := b.notifiers[i := Quiet])
      else b
    case Check =>
      if b.waiter.Checking? then b.(seen := b.version, waiter := Waiting) else b
    case Acquire =>
      if b.waiter.Waiting? && b.semaphore > 0 then b.(semaphore := b.semaphore - 1, waiter := Clearing) else b
    case GiveUp =>
      if b.waiter.Waiting? then b.(waiter := Checking) else b
    case Clear =>
      if b.waiter.Clearing? then b.(notified := false, waiter := Checking) else b
  }

  function Run(b: Bell, actions: seq<Action>): Bell {
    if actions == [] then b else Step(Run(b, actions[..|actions| - 1]), actions[|actions| - 1])
  }

  // Signals that have been committed to but not yet given.
  function Pending(notifiers: seq<Notifier>): nat {
    if notifiers == [] then 0
    else Pending(notifiers[..|notifiers| - 1]) + if notifiers[|notifiers| - 1].Signalling? then 1 else 0
  }

  function Tokens(b: Bell): nat {
    Pending(b.notifiers) + b.semaphore + if b.waiter.Clearing? then 1 else 0
  }

  // The flag stands for exactly one token, wherever it is; and a change announced since the last look keeps it up.
  ghost predicate BellInv(b: Bell) {
    Tokens(b) == (if b.notified then 1 else 0) &&
    b.seen <= b.version && b.announced <= b.version &&
    (forall i :: 0 <= i < |b.notifiers| && !b.notifiers[i].Quiet? ==> b.notifiers[i].version <= b.version) &&
    (b.waiter.Waiting? && b.announced > b.seen ==> b.notified) &&
    (b.announced == b.version || Publishing(b.version) in b.notifiers)
  }

  lemma {:induction false} PendingUpdate(notifiers: seq<Notifier>, i: nat, next: Notifier)
    requires i < |notifiers|
    ensures Pending(notifiers[i := next]) ==
      Pending(notifiers) - (if notifiers[i].Signalling? then 1 else 0) + (if next.Signalling? then 1 else 0)
  {
    var n := |notifiers| - 1;
    if i == n {
      assert notifiers[i := next][..n] == notifiers[..n];
    } else {
      assert notifiers[i := next][..n] == notifiers[..n][i := next];
      PendingUpdate(notifiers[..n], i, next);
    }
  }

  lemma {:induction false} NonePending(notifiers: seq<Notifier>)
    requires forall i :: 0 <= i < |notifiers| ==> !notifiers[i].Signalling?
    ensures Pending(notifiers) == 0
  {
    if notifiers != [] {
      NonePending(notifiers[..|notifiers| - 1]);
    }
  }

  lemma {:induction false} SomePending(notifiers: seq<Notifier>)
    requires Pending(notifiers) > 0
    ensures exists i :: 0 <= i < |notifiers| && notifiers[i].Signalling?
  {
    var n := |notifiers| - 1;
    if !notifiers[n].Signalling? {
      SomePending(notifiers[..n]);
      var i :| 0 <= i < n && notifiers[..n][i].Signalling?;
      assert notifiers[i].Signalling?;
    }
  }

  lemma InitialInv(threads: nat)
    ensures BellInv(Initial(threads))
  {
    NonePending(Initial(threads).notifiers);
  }

  lemma StepKeepsInv(b: Bell, a: Action)
    requires BellInv(b)
    ensures BellInv(Step(b, a))
  {
    if (a.Publish? || a.Exchange? || a.Signal?) && a.thread < |b.notifiers| {
      PendingUpdate(b.notifiers, a.thread, Step(b, a).notifiers[a.thread]);
      assert Step(b, a).notifiers == b.notifiers[a.thread := Step(b, a).notifiers[a.thread]];
      if Publishing(b.version) in b.notifiers && !a.Publish? {
        var i :| 0 <= i < |b.notifiers| && b.notifiers[i] == Publishing(b.version);
        assert i != a.thread ==> Step(b, a).notifiers[i] == Publishing(b.version);
      }
    }
  }

  lemma {:induction false} RunKeepsInv(b: Bell, actions: seq<Action>)
    requires BellInv(b)
    ensures BellInv(Run(b, actions))
  {
    if actions != [] {
      RunKeepsInv(b, actions[..|actions| - 1]);
      StepKeepsInv(Run(b, actions[..|actions| - 1]), actions[|actions| - 1]);
    }
  }

  // No wakeup is lost: in every run of any number of notifiers, with any pattern of timeouts, when a change has been
  // announced that the waiter had not seen at its last look, and it is now waiting, a token is there for it or a thread is
  // committed to giving one. Tokens never pile up.
  lemma NoLostWakeup(threads: nat, actions: seq<Action>)
    ensures
      var b := Run(Initial(threads), actions);
      b.semaphore <= 1 && Tokens(b) == (if b.notified then 1 else 0) &&
      (b.waiter.Waiting? && b.announced > b.seen ==>
        b.semaphore == 1 || exists i :: 0 <= i < |b.notifiers| && b.notifiers[i].Signalling?)
  {
    InitialInv(threads);
    RunKeepsInv(Initial(threads), actions);
    var b := Run(Initial(threads), actions);
    if b.waiter.Waiting? && b.announced > b.seen && b.semaphore == 0 {
      SomePending(b.notifiers);
    }
  }

  // Once every notification has run to its end, a waiter that has not seen the latest change has a token.
  lemma QuietLeavesToken(threads: nat, actions: seq<Action>)
    ensures
      var b := Run(Initial(threads), actions);
      b.waiter.Waiting? && b.version > b.seen && (forall i :: 0 <= i < |b.notifiers| ==> b.notifiers[i].Quiet?) ==>
        b.semaphore == 1
  {
    InitialInv(threads);
    RunKeepsInv(Initial(threads), actions);
    var b := Run(Initial(threads), actions);
    if forall i :: 0 <= i < |b.notifiers| ==> b.notifiers[i].Quiet? {
      NonePending(b.notifiers);
    }
  }

  // The step at which a notification is complete: the flag was already up, or the signal has been given. From then on its
  // change counts as announced.
  lemma CompletedIsAnnounced(b: Bell, i: nat)
    requires BellInv(b) && i < |b.notifiers| && b.notifiers[i].Publishing?
    ensures
      var r := Step(b, Exchange(i));
      r.announced >= b.notifiers[i].version &&
      (r.notifiers[i].Quiet? || Step(r, Signal(i)).semaphore > 0)
  {}

  // A waiter that goes on to acquire, clear and check sees every change that was announced before it cleared.
  lemma WokenSeesAnnounced(b: Bell, between: seq<Action>)
    requires BellInv(b) && b.waiter.Clearing?
    requires forall a :: a in between ==> a.Publish? || a.Exchange? || a.Signal?
    ensures Step(Run(Step(b, Clear), between), Check).seen >= b.announced
  {
    StepKeepsInv(b, Clear);
    NotifiersOnlyAdd(Step(b, Clear), between);
  }

  lemma {:induction false} NotifiersOnlyAdd(b: Bell, actions: seq<Action>)
    requires b.waiter.Checking? && b.announced <= b.version
    requires forall a :: a in actions ==> a.Publish? || a.Exchange? || a.Signal?
    ensures Run(b, actions).waiter.Checking? && Run(b, actions).version >= b.version
  {
    if actions != [] {
      NotifiersOnlyAdd(b, actions[..|actions| - 1]);
    }
  }

  // A token lets the waiter see everything published so far, and leaves the flag down for the next notification; a timeout lets it
  // look as well.
  lemma WaiterLooksAgain(b: Bell)
    requires b.waiter.Waiting?
    ensures b.semaphore > 0 ==>
      var r := Step(Step(Step(b, Acquire), Clear), Check);
      r.seen == b.version && !r.notified && r.semaphore == b.semaphore - 1 && r.waiter.Waiting?
    ensures
      var r := Step(Step(b, GiveUp), Check);
      r.seen == b.version && r.notified == b.notified && r.semaphore == b.semaphore && r.waiter.Waiting?
  {}
}
