/** The playback direction: blocks are submitted up to a watermark, and the device's requests are filled, with silence where
    there is too little. */
module Playback {

  import opened Wrappers
  import opened Protocol
  import opened Modular
  import opened AudioRing
  import opened RingBuffer
  import RingMachine

  predicate FormatValid(rate: u32, channels: u32, frameSize: u32) {
    8000 <= rate <= 48000 && 0 < channels <= 8 && frameSize > 0 && frameSize * 1000 <= rate * 60
  }

  // The number of frames that covers 50 ms.
  function Watermark(rate: u32): (r: nat)
    ensures (r - 1) * 1000 < rate * 50 <= r * 1000
  {
    (rate * 50 + 999) / 1000
  }

  // Initialisation accepts every valid format, and its ring meets what the interleaved ring with a watermark asks for.
  lemma ValidFormatIsAccepted(rate: u32, channels: u32, frameSize: u32)
    requires FormatValid(rate, channels, frameSize)
    ensures Watermark(rate) + frameSize <= 5280
    ensures InitAccepts(Watermark(rate) + frameSize, channels, frameSize)
    ensures RingMachine.Format(Watermark(rate) + frameSize, channels, Some(Watermark(rate)), frameSize).Valid()
  {
    assert UINT32_MAX / FLOAT_SIZE == 1073741823;
    assert 1073741823 / channels >= 134217727;
    AcceptedIsSized(Watermark(rate) + frameSize, channels, frameSize);
  }

  // ---------- Counting gaps ----------

  // One answered request: how many samples there were, of how many asked for.
  datatype Reply = Reply(copied: nat, count: nat)

  datatype Gaps = Gaps(consumedAudio: bool, pendingGap: bool, resumed: u32)

  function AfterFill(g: Gaps, f: Reply): Gaps {
    var resumed := if f.copied != 0 && g.pendingGap then Wrap32(g.resumed + 1) else g.resumed;
    var consumed := g.consumedAudio || f.copied != 0;
    var pending := if f.copied < f.count && consumed then true else if f.copied != 0 then false else g.pendingGap;
    Gaps(consumed, pending, resumed)
  }

  function AfterFills(fills: seq<Reply>): Gaps {
    if fills == [] then Gaps(false, false, 0) else AfterFill(AfterFills(fills[..|fills| - 1]), fills[|fills| - 1])
  }

  ghost predicate AudioBefore(fills: seq<Reply>, n: nat)
    requires n <= |fills|
  {
    exists j :: 0 <= j < n && fills[j].copied != 0
  }

  // Request j ran short at or after the first audio, and no audio came between it and request n.
  ghost predicate Underrun(fills: seq<Reply>, j: nat, n: nat)
    requires j < n <= |fills|
  {
    fills[j].copied < fills[j].count && AudioBefore(fills, j + 1) && forall k :: j < k < n ==> fills[k].copied == 0
  }

  ghost predicate InGap(fills: seq<Reply>, n: nat)
    requires n <= |fills|
  {
    exists j :: 0 <= j < n && Underrun(fills, j, n)
  }

  // Audio comes back at request n after an underrun that followed the first audio.
  ghost predicate Resumes(fills: seq<Reply>, n: nat)
    requires n < |fills|
  {
    fills[n].copied != 0 && InGap(fills, n)
  }

  ghost function Resumptions(fills: seq<Reply>): set<nat> {
    set n | 0 <= n < |fills| && Resumes(fills, n)
  }

  lemma AudioNext(fills: seq<Reply>, n: nat)
    requires n < |fills|
    ensures AudioBefore(fills, n + 1) <==> AudioBefore(fills, n) || fills[n].copied != 0
  {}

  lemma GapNext(fills: seq<Reply>, n: nat)
    requires n < |fills|
    ensures InGap(fills, n + 1) <==>
      (fills[n].copied < fills[n].count && AudioBefore(fills, n + 1)) || (fills[n].copied == 0 && InGap(fills, n))
  {
    hide AudioBefore;
    if fills[n].copied < fills[n].count && AudioBefore(fills, n + 1) {
      assert Underrun(fills, n, n + 1);
    }
    if fills[n].copied == 0 && InGap(fills, n) {
      var j: nat :| j < n && Underrun(fills, j, n);
      assert Underrun(fills, j, n + 1);
    }
    if InGap(fills, n + 1) {
      var j: nat :| j < n + 1 && Underrun(fills, j, n + 1);
      assert j < n ==> Underrun(fills, j, n);
    }
  }

  lemma ResumptionsNext(fills: seq<Reply>, n: nat)
    requires n + 1 == |fills|
    ensures |Resumptions(fills)| == |Resumptions(fills[..n])| + if fills[n].copied != 0 && InGap(fills, n) then 1 else 0
  {
    hide AudioBefore, InGap;
    EarlierGaps(fills, n);
    assert Resumptions(fills) == Resumptions(fills[..n]) + (if Resumes(fills, n) then {n} else {});
  }

  // The flags say whether audio has been heard and whether it is interrupted now; the counter counts the resumptions.
  lemma {:induction false} GapsAreExact(fills: seq<Reply>)
    ensures AfterFills(fills).consumedAudio <==> AudioBefore(fills, |fills|)
    ensures AfterFills(fills).pendingGap <==> InGap(fills, |fills|)
    ensures AfterFills(fills).resumed == Wrap32(|Resumptions(fills)|)
  {
    hide Wrap32, AudioBefore, InGap, Resumptions;
    if fills == [] {
      NoGapsYet();
    } else {
      var n := |fills| - 1;
      GapsAreExact(fills[..n]);
      EarlierGaps(fills, n);
      AudioNext(fills, n);
      GapNext(fills, n);
      ResumptionsNext(fills, n);
      WrapNext(|Resumptions(fills[..n])|);
    }
  }

  lemma NoGapsYet()
    ensures !AudioBefore([], 0) && !InGap([], 0) && Resumptions([]) == {} && Wrap32(0) == 0
  {}

  lemma WrapNext(n: nat)
    ensures Wrap32(Wrap32(n) + 1) == Wrap32(n + 1)
  {}

  // What happened up to request n does not depend on later ones.
  lemma EarlierGaps(fills: seq<Reply>, n: nat)
    requires n < |fills|
    ensures forall m :: 0 <= m <= n ==> (AudioBefore(fills[..n], m) <==> AudioBefore(fills, m))
    ensures InGap(fills[..n], n) <==> InGap(fills, n)
    ensures forall m :: 0 <= m < n ==> (Resumes(fills[..n], m) <==> Resumes(fills, m))
  {
    var before := fills[..n];
    assert forall j :: 0 <= j < n ==> before[j] == fills[j];
    assert forall m :: 0 <= m <= n ==> (AudioBefore(before, m) <==> AudioBefore(fills, m));
    forall m | 0 <= m <= n
      ensures InGap(before, m) <==> InGap(fills, m)
    {
      assert forall j :: 0 <= j < m ==> (Underrun(before, j, m) <==> Underrun(fills, j, m));
    }
  }

  lemma GapsNext(fills: seq<Reply>, reply: Reply)
    ensures AfterFills(fills + [reply]) == AfterFill(AfterFills(fills), reply)
  {
    assert (fills + [reply])[..|fills|] == fills;
  }

  // ---------- The playback ring ----------

  const TIMED_OUT: int := 1

  // What happens while a submission waits: the device requests some samples, the ring may be closed, and the wait returns. A
  // wait that fails closes the ring.
  datatype Wait = Wait(demand: nat, closes: bool, status: int)
  {
    predicate Closes() {
      closes || status < 0
    }
  }

  // The device's answer to a request while the ring is open and holds held samples; a malformed request gets none.
  function ReplyTo(held: nat, demand: nat, channels: u32, size: nat): seq<Reply>
    requires channels > 0
  {
    if demand == 0 || demand % channels != 0 || demand > size then []
    else [Reply(if held < demand then held else demand, demand)]
  }

  function Copied(replies: seq<Reply>): nat {
    if replies == [] then 0 else replies[0].copied
  }

  // What is left of held samples after the requests made during these waits, and the replies to them.
  function LeftAfter(held: nat, waits: seq<Wait>, channels: u32, size: nat): nat
    requires channels > 0
  {
    if waits == [] then held else
      var left := LeftAfter(held, waits[..|waits| - 1], channels, size);
      left - Copied(ReplyTo(left, waits[|waits| - 1].demand, channels, size))
  }

  function Replies(held: nat, waits: seq<Wait>, channels: u32, size: nat): seq<Reply>
    requires channels > 0
  {
    if waits == [] then [] else
      var earlier := waits[..|waits| - 1];
      Replies(held, earlier, channels, size) +
      ReplyTo(LeftAfter(held, earlier, channels, size), waits[|waits| - 1].demand, channels, size)
  }

  lemma NoWaits(held: nat, channels: u32, size: nat)
    requires channels > 0
    ensures LeftAfter(held, [], channels, size) == held && Replies(held, [], channels, size) == []
  {}

  lemma NextWait(held: nat, waits: seq<Wait>, n: nat, channels: u32, size: nat)
    requires channels > 0 && n < |waits|
    ensures
      var left := LeftAfter(held, waits[..n], channels, size);
      var replies := ReplyTo(left, waits[n].demand, channels, size);
      LeftAfter(held, waits[..n + 1], channels, size) == left - Copied(replies) &&
      Replies(held, waits[..n + 1], channels, size) == Replies(held, waits[..n], channels, size) + replies
  {
    assert waits[..n + 1][..n] == waits[..n];
  }

  // What has been heard and what is held make up the same stream before and after a request.
  lemma HeardIsFront(heard: seq<Sample>, held: seq<Sample>, heardNow: seq<Sample>, heldNow: seq<Sample>, front: seq<Sample>)
    requires heard + held == heardNow + heldNow && heardNow == heard + front
    ensures held == front + heldNow
  {
    assert (heard + held)[|heard|..] == held;
    assert (heard + front + heldNow)[|heard|..] == front + heldNow;
  }

  function Silence(n: nat): (r: seq<Sample>)
    ensures |r| == n && forall k :: 0 <= k < n ==> r[k] == 0.0
  {
    seq(n, _ => 0.0)
  }

  class ARPlaybackRing {
    const samples: ARAudioRing
    const watermarkFrames: u32
    var consumedAudio: bool
    var pendingGap: bool
    var resumedGaps: u32
    // All samples submitted and heard, and all requests answered so far.
    ghost var submitted: seq<Sample>
    ghost var heard: seq<Sample>
    ghost var fills: seq<Reply>

    ghost predicate Valid()
      reads this, samples, samples.data
    {
      samples.Valid() && samples.frameSamples % samples.channels == 0 && samples.frameSamples > 0 &&
      samples.capacityFrames == watermarkFrames + samples.frameSamples / samples.channels &&
      heard + samples.Contents() == submitted &&
      Gaps(consumedAudio, pendingGap, resumedGaps) == AfterFills(fills)
    }

    constructor (rate: u32, channels: u32, frameSize: u32)
      requires FormatValid(rate, channels, frameSize)
      ensures Valid() && fresh(samples) && fresh(samples.data) && submitted == [] && fills == []
    {
      ValidFormatIsAccepted(rate, channels, frameSize);
      samples := new ARAudioRing(Watermark(rate) + frameSize, channels, frameSize);
      watermarkFrames := Watermark(rate);
      consumedAudio, pendingGap, resumedGaps := false, false, 0;
      submitted, heard, fills := [], [], [];
      new;
      RemainderIs(samples.frameSamples, channels, frameSize, 0);
      MulAtLeast(channels, frameSize);
      assert frameSize * channels == channels * frameSize;
    }

    method NoteGaps(copied: nat, count: nat)
      modifies this`consumedAudio, this`pendingGap, this`resumedGaps
      ensures Gaps(consumedAudio, pendingGap, resumedGaps) ==
        AfterFill(old(Gaps(consumedAudio, pendingGap, resumedGaps)), Reply(copied, count))
    {
      if copied != 0 {
        if pendingGap {
          resumedGaps := Wrap32(resumedGaps + 1);
        }
        consumedAudio := true;
        pendingGap := false;
      }
      if copied < count && consumedAudio {
        pendingGap := true;
      }
    }

    // The device gets the next samples that were submitted, then silence. Nothing is played twice, skipped or made up.
    method Fill(out: array<Sample>, count: nat) returns (status: int, notifies: bool)
      requires Valid() && out != samples.data && count <= out.Length
      modifies this, samples`readCursor, samples`released, out
      ensures Valid() && submitted == old(submitted)
      ensures status == if samples.closed || count == 0 || count % samples.channels != 0 || count > samples.data.Length
                        then REFUSED else OK
      ensures status != OK ==> out[..] == old(out[..]) && heard == old(heard) && fills == old(fills) && !notifies
      ensures status == OK ==>
        var copied := if |old(samples.Contents())| < count then |old(samples.Contents())| else count;
        heard == old(heard) + out[..copied] && fills == old(fills) + [Reply(copied, count)] &&
        out[copied..count] == Silence(count - copied) && out[count..] == old(out[count..]) &&
        (notifies <==> copied != 0)
    {
      hide ARAudioRing.Valid, ARAudioRing.Contents, AfterFills, AfterFill;
      var copied;
      status, copied := TakeAndPad(out, count);
      if status != OK {
        return status, false;
      }
      NoteGaps(copied, count);
      GapsNext(fills, Reply(copied, count));
      heard := heard + out[..copied];
      fills := fills + [Reply(copied, count)];
      notifies := copied != 0;
    }

    // What the ring holds, then silence.
    method TakeAndPad(out: array<Sample>, count: nat) returns (status: int, copied: nat)
      requires samples.Valid() && out != samples.data && count <= out.Length
      modifies samples`readCursor, samples`released, out
      ensures samples.Valid()
      ensures status == if samples.closed || count == 0 || count % samples.channels != 0 || count > samples.data.Length
                        then REFUSED else OK
      ensures status != OK ==> out[..] == old(out[..]) && samples.Contents() == old(samples.Contents())
      ensures status == OK ==>
        copied == (if |old(samples.Contents())| < count then |old(samples.Contents())| else count) &&
        out[..copied] + samples.Contents() == old(samples.Contents()) &&
        out[copied..count] == Silence(count - copied) && out[count..] == old(out[count..])
    {
      hide ARAudioRing.Valid, ARAudioRing.Contents;
      status, copied := samples.Take(out, count, true);
      if status != OK {
        assert out[..0] == [] && out[0..] == out[..];
        return;
      }
      ghost var front := out[..copied];
      CopySamples(out, copied, Silence(count - copied));
      assert out[..copied] == front;
    }

    // The occupancy in frames, and whether the block may go in.
    method MaySubmit(count: nat) returns (may: bool)
      requires Valid() && count == samples.frameSamples
      ensures may <==> |samples.Contents()| <= watermarkFrames * samples.channels
      ensures may ==> |samples.Contents()| + count <= samples.data.Length
    {
      hide Unread, Distance;
      samples.PushFacts(samples.released, samples.written, count);
      UnreadLength(samples.data[..], samples.capacityFrames, samples.channels, samples.released, samples.written);
      var used := Distance(samples.capacityFrames, samples.writeCursor, samples.readCursor);
      may := used <= watermarkFrames && count / samples.channels <= samples.capacityFrames - used;
      SameOrder(used, watermarkFrames, samples.channels);
      SumFits(used, count / samples.channels, samples.capacityFrames, samples.channels);
    }

    // A request of the device while the worker waits, into a buffer of its own.
    method Drain(demand: nat)
      requires Valid() && !samples.closed && samples.channels > 0
      modifies this, samples`readCursor, samples`released
      ensures Valid() && submitted == old(submitted)
      ensures
        var replies := ReplyTo(|old(samples.Contents())|, demand, samples.channels, samples.data.Length);
        fills == old(fills) + replies && heard == old(heard) + old(samples.Contents())[..Copied(replies)] &&
        |samples.Contents()| == |old(samples.Contents())| - Copied(replies)
    {
      hide ARAudioRing.Valid, ARAudioRing.Contents, AfterFills;
      var scratch := new Sample[demand];
      ghost var before := samples.Contents();
      var status, notifies := Fill(scratch, demand);
      if status == OK {
        ghost var copied := if |before| < demand then |before| else demand;
        HeardIsFront(old(heard), before, heard, samples.Contents(), scratch[..copied]);
      } else {
        HeardIsFront(old(heard), before, heard, samples.Contents(), []);
      }
    }

    // One wait of the worker.
    method Await(wait: Wait)
      requires Valid() && !samples.closed && samples.channels > 0
      modifies this, samples
      ensures Valid() && submitted == old(submitted) && samples.closed == wait.Closes()
      ensures
        var replies := ReplyTo(|old(samples.Contents())|, wait.demand, samples.channels, samples.data.Length);
        fills == old(fills) + replies && |samples.Contents()| == |old(samples.Contents())| - Copied(replies)
    {
      hide ARAudioRing.Valid, ARAudioRing.Contents, AfterFills, ReplyTo, Copied;
      Drain(wait.demand);
      if wait.Closes() {
        samples.Close();
      }
    }

    // The block goes in whole or not at all, and after the check there is always room for it. The requests made while it waits
    // are answered and counted like all others. Each wait is entered because the ring holds more than the watermark; the
    // deadline passes when the listed waits are over.
    method Submit(block: seq<Sample>, waits: seq<Wait>) returns (status: int, waited: nat)
      requires Valid() && forall i :: 0 <= i < |waits| ==> waits[i].status in {OK, TIMED_OUT, REFUSED}
      modifies this, samples, samples.data
      ensures Valid() && samples.channels > 0 && waited <= |waits|
      ensures submitted == if status == OK then old(submitted) + block else old(submitted)
      ensures |block| != samples.frameSamples ==> status == REFUSED && waited == 0
      ensures
        var held := |old(samples.Contents())|;
        fills == old(fills) + Replies(held, waits[..waited], samples.channels, samples.data.Length) &&
        (forall i :: 0 <= i < waited ==>
          LeftAfter(held, waits[..i], samples.channels, samples.data.Length) > watermarkFrames * samples.channels) &&
        var left := LeftAfter(held, waits[..waited], samples.channels, samples.data.Length);
        |samples.Contents()| == (if status == OK then left + |block| else left) &&
        (|block| == samples.frameSamples ==>
          status == if samples.closed then REFUSED
                    else if waited > 0 && waits[waited - 1].status != OK then waits[waited - 1].status
                    else if left <= watermarkFrames * samples.channels then OK else TIMED_OUT) &&
        (status == TIMED_OUT ==> waited == |waits| || (waited > 0 && waits[waited - 1].status == TIMED_OUT))
      // Only the last wait can close the ring or fail.
      ensures forall i :: 0 <= i < waited - 1 ==> waits[i].status == OK && !waits[i].Closes()
      ensures samples.closed <==> old(samples.closed) || (waited > 0 && waits[waited - 1].Closes())
      ensures old(samples.closed) ==> waited == 0
      ensures !old(samples.closed) && |block| == samples.frameSamples
              && |old(samples.Contents())| <= watermarkFrames * samples.channels ==>
        status == OK && heard == old(heard)
    {
      hide ARAudioRing.Valid, ARAudioRing.Contents, AfterFills, Replies, LeftAfter, ReplyTo, Copied;
      ChannelsPositive();
      ghost var held, channels, size := |samples.Contents()|, samples.channels, samples.data.Length;
      NoWaits(held, channels, size);
      waited := 0;
      if |block| != samples.frameSamples {
        return REFUSED, waited;
      }
      while true
        invariant Valid() && submitted == old(submitted) && waited <= |waits|
        invariant waited == 0 ==>
          heard == old(heard) && samples.closed == old(samples.closed) && samples.Contents() == old(samples.Contents())
        invariant fills == old(fills) + Replies(held, waits[..waited], channels, size)
        invariant |samples.Contents()| == LeftAfter(held, waits[..waited], channels, size)
        invariant forall i :: 0 <= i < waited ==>
          LeftAfter(held, waits[..i], channels, size) > watermarkFrames * channels
        invariant waited > 0 ==> !old(samples.closed) && held > watermarkFrames * channels && waits[waited - 1].status == OK
        invariant forall i :: 0 <= i < waited - 1 ==> waits[i].status == OK && !waits[i].Closes()
        invariant samples.closed <==> old(samples.closed) || (waited > 0 && waits[waited - 1].Closes())
        decreases |waits| - waited
      {
        if samples.closed {
          return REFUSED, waited;
        }
        var may := MaySubmit(|block|);
        if may {
          status := samples.Push(block);
          submitted := submitted + block;
          assert status == OK;
          return status, waited;
        }
        if waited == |waits| {
          return TIMED_OUT, waited;
        }
        var wait := waits[waited];
        Await(wait);
        NextWait(held, waits, waited, channels, size);
        waited := waited + 1;
        if wait.status != OK {
          return if samples.closed then REFUSED else wait.status, waited;
        }
      }
    }

    lemma ChannelsPositive()
      requires Valid()
      ensures samples.channels > 0
    {}
  }
}
