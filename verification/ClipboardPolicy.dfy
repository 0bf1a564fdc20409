/** Which clipboard payloads are let through: a sliding window of events for each source and a memory of recent signatures.
    Both are queues pruned only at the front; under a clock that does not run backwards that is the same as looking through
    everything ever recorded. Times are in nanoseconds. */
module ClipboardPolicy {

  import opened Wrappers

  const SECOND: nat := 1_000_000_000
  const SIGNATURE_DEDUPE_TTL: nat := 10 * SECOND
  const PER_SOURCE_WINDOW: nat := 10 * SECOND
  const PER_SOURCE_MAX_EVENTS: nat := 10

  datatype SourceKey = LocalSource | Remote(device: nat)

  datatype DropReason = Duplicate | RateLimited

  datatype Recorded = Recorded(source: SourceKey, signature: string, at: nat)

  // ---------- The whole history ----------

  function TimesOf(history: seq<Recorded>, source: SourceKey): seq<nat> {
    if history == [] then []
    else
      var n := |history| - 1;
      TimesOf(history[..n], source) + if history[n].source == source then [history[n].at] else []
  }

  // The times at most one window before now.
  function Recent(times: seq<nat>, now: nat): seq<nat> {
    if times == [] then []
    else
      var n := |times| - 1;
      Recent(times[..n], now) + if now - times[n] <= PER_SOURCE_WINDOW then [times[n]] else []
  }

  ghost predicate SeenRecently(history: seq<Recorded>, signature: string, now: nat) {
    exists i :: 0 <= i < |history| && history[i].signature == signature && now - history[i].at <= SIGNATURE_DEDUPE_TTL
  }

  // What the policy is meant to say, in terms of everything recorded.
  ghost function Verdict(history: seq<Recorded>, source: SourceKey, signature: string, now: nat, dedupe: bool)
    : Result<(), DropReason>
  {
    if dedupe && SeenRecently(history, signature, now) then Err(Duplicate)
    else if |Recent(TimesOf(history, source), now)| >= PER_SOURCE_MAX_EVENTS then Err(RateLimited)
    else Ok(())
  }

  ghost predicate Ascending(times: seq<nat>) {
    forall i, j :: 0 <= i <= j < |times| ==> times[i] <= times[j]
  }

  ghost predicate InTimeOrder(history: seq<Recorded>) {
    forall i, j :: 0 <= i <= j < |history| ==> history[i].at <= history[j].at
  }

  lemma {:induction false} TimesAscend(history: seq<Recorded>, source: SourceKey)
    requires InTimeOrder(history)
    ensures Ascending(TimesOf(history, source))
    ensures forall i :: 0 <= i < |TimesOf(history, source)| ==>
      history != [] && TimesOf(history, source)[i] <= history[|history| - 1].at
  {
    if history != [] {
      TimesAscend(history[..|history| - 1], source);
    }
  }

  // ---------- Popping from the front is filtering ----------

  lemma {:induction false} NoneRecent(times: seq<nat>, now: nat)
    requires forall i :: 0 <= i < |times| ==> now - times[i] > PER_SOURCE_WINDOW
    ensures Recent(times, now) == []
  {
    if times != [] {
      NoneRecent(times[..|times| - 1], now);
    }
  }

  lemma {:induction false} PoppingIsFiltering(times: seq<nat>, now: nat, k: nat)
    requires Ascending(times) && k <= |times|
    requires forall i :: 0 <= i < k ==> now - times[i] > PER_SOURCE_WINDOW
    requires k < |times| ==> now - times[k] <= PER_SOURCE_WINDOW
    ensures Recent(times, now) == times[k..]
  {
    if k == |times| {
      NoneRecent(times, now);
    } else {
      var n := |times| - 1;
      if k == n {
        NoneRecent(times[..n], now);
      } else {
        PoppingIsFiltering(times[..n], now, k);
      }
      assert times[k..] == times[..n][k..] + [times[n]];
    }
  }

  lemma {:induction false} RecentFrom(times: seq<nat>, now: nat, k: nat)
    requires Ascending(times) && k < |times| && now - times[k] <= PER_SOURCE_WINDOW
    ensures |Recent(times, now)| >= |times| - k
  {
    if k < |times| - 1 {
      RecentFrom(times[..|times| - 1], now, k);
    }
  }

  // ---------- The sliding window ----------

  // Every event was recorded when its source had room in the window.
  ghost predicate Paced(history: seq<Recorded>) {
    forall i :: 0 <= i < |history| ==>
      |Recent(TimesOf(history[..i], history[i].source), history[i].at)| < PER_SOURCE_MAX_EVENTS
  }

  ghost predicate ElevenSpanWindow(times: seq<nat>) {
    forall i :: 0 <= i && i + PER_SOURCE_MAX_EVENTS < |times| ==>
      times[i + PER_SOURCE_MAX_EVENTS] - times[i] > PER_SOURCE_WINDOW
  }

  lemma PacedBefore(history: seq<Recorded>, n: nat)
    requires Paced(history) && n < |history|
    ensures Paced(history[..n]) && |Recent(TimesOf(history[..n], history[n].source), history[n].at)| < PER_SOURCE_MAX_EVENTS
  {
    hide Recent, TimesOf;
    forall i | 0 <= i < n
      ensures |Recent(TimesOf(history[..n][..i], history[..n][i].source), history[..n][i].at)| < PER_SOURCE_MAX_EVENTS
    {
      assert history[..n][..i] == history[..i];
    }
  }

  // Any eleven consecutive events of one source span more than ten seconds.
  lemma {:induction false} PacedHistory(history: seq<Recorded>, source: SourceKey)
    requires InTimeOrder(history) && Paced(history)
    ensures ElevenSpanWindow(TimesOf(history, source))
  {
    hide Paced, Recent, ElevenSpanWindow, Ascending;
    if history == [] {
      FewEvents();
    } else {
      var n := |history| - 1;
      PacedBefore(history, n);
      PacedHistory(history[..n], source);
      TimesAscend(history[..n], source);
      if history[n].source == source {
        EleventhIsLate(TimesOf(history[..n], source), history[n].at);
      }
      TimesNext(history[..n], history[n], source);
      assert history == history[..n] + [history[n]];
    }
  }

  lemma FewEvents()
    ensures ElevenSpanWindow([])
  {}

  lemma EleventhIsLate(earlier: seq<nat>, now: nat)
    requires Ascending(earlier) && |Recent(earlier, now)| < PER_SOURCE_MAX_EVENTS && ElevenSpanWindow(earlier)
    ensures ElevenSpanWindow(earlier + [now])
  {
    hide Recent;
    var k := |earlier| - PER_SOURCE_MAX_EVENTS;
    if k >= 0 && now - earlier[k] <= PER_SOURCE_WINDOW {
      RecentFrom(earlier, now, k);
      assert false;
    }
  }

  lemma PacedNext(history: seq<Recorded>, e: Recorded)
    requires Paced(history) && |Recent(TimesOf(history, e.source), e.at)| < PER_SOURCE_MAX_EVENTS
    ensures Paced(history + [e])
  {
    var longer := history + [e];
    forall i | 0 <= i < |longer|
      ensures |Recent(TimesOf(longer[..i], longer[i].source), longer[i].at)| < PER_SOURCE_MAX_EVENTS
    {
      assert longer[..i] == history[..i];
      assert history[..|history|] == history;
    }
  }

  // ---------- The queues ----------

  // The queue is what is left of all when some entries older than the limit have been dropped from the front.
  ghost predicate Pruned(queue: seq<nat>, all: seq<nat>, now: nat) {
    |queue| <= |all| && queue == all[|all| - |queue|..] &&
    forall i :: 0 <= i < |all| - |queue| ==> now - all[i] > PER_SOURCE_WINDOW
  }

  ghost predicate SignaturesPruned(queue: seq<(string, nat)>, history: seq<Recorded>, now: nat) {
    |queue| <= |history| &&
    (forall i :: 0 <= i < |queue| ==>
      var e := history[|history| - |queue| + i];
      queue[i] == (e.signature, e.at)) &&
    (forall i :: 0 <= i < |history| - |queue| ==> now - history[i].at > SIGNATURE_DEDUPE_TTL)
  }

  // The queue of a source; one that has no entry yet is empty.
  function EventsOf(perSource: map<SourceKey, seq<nat>>, source: SourceKey): seq<nat> {
    if source in perSource then perSource[source] else []
  }

  class HubPolicy {
    var seenSignatures: seq<(string, nat)>
    var perSource: map<SourceKey, seq<nat>>
    // Everything recorded, and the latest time the policy was asked.
    ghost var history: seq<Recorded>
    ghost var latest: nat

    ghost predicate Valid()
      reads this
    {
      InTimeOrder(history) && (forall i :: 0 <= i < |history| ==> history[i].at <= latest) &&
      SignaturesPruned(seenSignatures, history, latest) &&
      forall s :: Pruned(EventsOf(perSource, s), TimesOf(history, s), latest)
    }

    constructor ()
      ensures Valid() && history == [] && latest == 0
    {
      seenSignatures, perSource, history, latest := [], map[], [], 0;
    }

    method PruneSignatures(now: nat)
      requires Valid() && latest <= now
      modifies this`seenSignatures, this`latest
      ensures Valid() && latest == now
      ensures seenSignatures != [] ==> now - seenSignatures[0].1 <= SIGNATURE_DEDUPE_TTL
    {
      hide Pruned, TimesOf;
      ProlongAll(now);
      latest := now;
      while seenSignatures != [] && now - seenSignatures[0].1 > SIGNATURE_DEDUPE_TTL
        invariant SignaturesPruned(seenSignatures, history, now) && latest == now
        decreases |seenSignatures|
      {
        seenSignatures := seenSignatures[1..];
      }
    }

    // Says exactly what the whole history says.
    method AcceptWithDedupe(source: SourceKey, signature: string, now: nat, dedupe: bool) returns (r: Result<(), DropReason>)
      requires Valid() && latest <= now
      modifies this
      ensures Valid() && history == old(history) && latest == now
      ensures r == Verdict(history, source, signature, now, dedupe)
    {
      hide Pruned, TimesOf, SignaturesPruned, Recent;
      PruneSignatures(now);
      RecentSignatures(seenSignatures, history, signature, now);
      if dedupe && exists i :: 0 <= i < |seenSignatures| && seenSignatures[i].0 == signature {
        return Err(Duplicate);
      }
      TimesAscend(history, source);
      var events := PopExpired(EventsOf(perSource, source), TimesOf(history, source), now);
      ghost var before := perSource;
      perSource := perSource[source := events];
      assert forall s :: EventsOf(perSource, s) == if s == source then events else EventsOf(before, s);
      if |events| >= PER_SOURCE_MAX_EVENTS {
        return Err(RateLimited);
      }
      return Ok(());
    }

    // Queues that were pruned for an earlier time are pruned for a later one.
    lemma ProlongAll(now: nat)
      requires Valid() && latest <= now
      ensures forall s :: Pruned(EventsOf(perSource, s), TimesOf(history, s), now)
      ensures SignaturesPruned(seenSignatures, history, now)
    {
      hide TimesOf;
      forall s
        ensures Pruned(EventsOf(perSource, s), TimesOf(history, s), now)
      {
        assert Pruned(EventsOf(perSource, s), TimesOf(history, s), latest);
      }
    }

    method Accept(source: SourceKey, signature: string, now: nat) returns (r: Result<(), DropReason>)
      requires Valid() && latest <= now
      modifies this
      ensures Valid() && history == old(history) && latest == now
      ensures r == Verdict(history, source, signature, now, true)
    {
      r := AcceptWithDedupe(source, signature, now, true);
    }

    method Record(source: SourceKey, signature: string, now: nat)
      requires Valid() && latest <= now
      modifies this
      ensures Valid() && history == old(history) + [Recorded(source, signature, now)] && latest == now
    {
      hide Pruned, TimesOf, SignaturesPruned;
      PruneSignatures(now);
      ghost var before, queues := history, perSource;
      var events := EventsOf(perSource, source);
      seenSignatures := seenSignatures + [(signature, now)];
      perSource := perSource[source := events + [now]];
      history := history + [Recorded(source, signature, now)];
      SignaturesNext(seenSignatures[..|seenSignatures| - 1], before, history[|before|], now);
      assert seenSignatures[..|seenSignatures| - 1] + [(signature, now)] == seenSignatures;
      forall s
        ensures Pruned(EventsOf(perSource, s), TimesOf(history, s), now)
      {
        TimesNext(before, history[|before|], s);
        if s == source {
          PrunedNext(events, TimesOf(before, s), now);
        } else {
          assert EventsOf(perSource, s) == EventsOf(queues, s);
        }
      }
    }
  }

  method PopExpired(queue: seq<nat>, ghost all: seq<nat>, now: nat) returns (events: seq<nat>)
    requires Ascending(all) && Pruned(queue, all, now)
    ensures events == Recent(all, now) && Pruned(events, all, now)
  {
    events := queue;
    while events != [] && now - events[0] > PER_SOURCE_WINDOW
      invariant Pruned(events, all, now)
      decreases |events|
    {
      events := events[1..];
    }
    PoppingIsFiltering(all, now, |all| - |events|);
  }

  lemma TimesNext(history: seq<Recorded>, e: Recorded, source: SourceKey)
    ensures TimesOf(history + [e], source) ==
      if e.source == source then TimesOf(history, source) + [e.at] else TimesOf(history, source)
  {
    assert (history + [e])[..|history|] == history;
  }

  lemma PrunedNext(queue: seq<nat>, all: seq<nat>, now: nat)
    requires Pruned(queue, all, now)
    ensures Pruned(queue + [now], all + [now], now)
  {}

  lemma SignaturesNext(queue: seq<(string, nat)>, history: seq<Recorded>, e: Recorded, now: nat)
    requires SignaturesPruned(queue, history, now)
    ensures SignaturesPruned(queue + [(e.signature, e.at)], history + [e], now)
  {}

  // The pruned queue holds the signature exactly when it was recorded recently.
  lemma RecentSignatures(queue: seq<(string, nat)>, history: seq<Recorded>, signature: string, now: nat)
    requires SignaturesPruned(queue, history, now) && InTimeOrder(history)
    requires queue != [] ==> now - queue[0].1 <= SIGNATURE_DEDUPE_TTL
    ensures (exists i :: 0 <= i < |queue| && queue[i].0 == signature) <==> SeenRecently(history, signature, now)
  {
    var k := |history| - |queue|;
    if exists i :: 0 <= i < |queue| && queue[i].0 == signature {
      var i :| 0 <= i < |queue| && queue[i].0 == signature;
      assert history[k].at <= history[k + i].at;
      assert history[k + i].signature == signature;
    }
    if SeenRecently(history, signature, now) {
      var j :| 0 <= j < |history| && history[j].signature == signature && now - history[j].at <= SIGNATURE_DEDUPE_TTL;
      assert queue[j - k].0 == signature;
    }
  }
}
