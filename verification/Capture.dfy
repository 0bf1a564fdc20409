/** The capture direction: callbacks write blocks of any size, an encoder reads whole frames, and what does not fit is counted
    as dropped. */
module Capture {

  import opened Wrappers
  import opened Protocol
  import opened Modular
  import opened AudioRing
  import opened RingBuffer
  import opened Playback
  import opened RingMachine

  const UINT64_MAX: nat := 0xFFFF_FFFF_FFFF_FFFF

  // Room for one encoder frame and one callback, and at least 30 ms.
  function CaptureCapacity(rate: u32, frameSize: u32, callbackFrames: u32): (r: nat)
    ensures r >= frameSize + callbackFrames && r * 1000 >= rate * 30
    ensures r == frameSize + callbackFrames || (r - 1) * 1000 < rate * 30
  {
    var capacity := frameSize + callbackFrames;
    var floor := (rate * 30 + 999) / 1000;
    if capacity < floor then floor else capacity
  }

  predicate CaptureAccepts(rate: u32, channels: u32, frameSize: u32, callbackFrames: u32) {
    FormatValid(rate, channels, frameSize) && callbackFrames > 0 &&
    InitAccepts(CaptureCapacity(rate, frameSize, callbackFrames), channels, frameSize)
  }

  // In no state of any interleaved run do both sides get stuck: when the encoder is about to be told that a frame is not there
  // yet, a callback's block, of any size a callback can have, is not about to be refused for lack of space.
  lemma NeverStuck(rate: u32, channels: u32, frameSize: u32, callbackFrames: u32, data: seq<Sample>, actions: seq<Action>)
    requires CaptureAccepts(rate, channels, frameSize, callbackFrames)
    requires |data| == CaptureCapacity(rate, frameSize, callbackFrames) * channels
    ensures
      var format := Format(CaptureCapacity(rate, frameSize, callbackFrames), channels, None, frameSize);
      format.Valid() && Bounded(Start(format, data)) &&
      var m := Run(Start(format, data), actions);
      m.producer.AtWrite? && |m.producer.samples| <= callbackFrames * channels &&
      m.consumer.AtRead? && m.consumer.frames == frameSize && !m.consumer.partial ==>
        !(ProducerStep(m, false).producer == Returned(Full) && ConsumerStep(m).consumer == Answered(Short, []))
  {
    hide Contents, RingMachine.Run, RingMachine.Step, ProducerStep, ConsumerStep, MachineInv, Sized;
    var capacity := CaptureCapacity(rate, frameSize, callbackFrames);
    AcceptedIsSized(capacity, channels, frameSize);
    var format := Format(capacity, channels, None, frameSize);
    var m := Run(Start(format, data), actions);
    StartInv(format, data);
    RunKeepsInv(Start(format, data), actions);
    RunKeepsFormat(Start(format, data), actions);
    MulMonotone(frameSize + callbackFrames, capacity, channels);
    assert (frameSize + callbackFrames) * channels == frameSize * channels + callbackFrames * channels;
    if m.producer.AtWrite? && m.consumer.AtRead? {
      FullIsExact(m);
      ShortIsExact(m);
    }
  }

  // ---------- The capture ring ----------

  const INVALID_ARGUMENT: int := 4

  // What happens while the reader waits: a callback offers a block, the ring may be closed, and the wait returns. A wait that
  // fails closes the ring.
  datatype Lull = Lull(block: seq<Sample>, closes: bool, status: int)
  {
    predicate Closes() {
      closes || status < 0
    }
  }

  // How many samples the ring holds, whether it is closed, what has been written, and how many samples were refused.
  datatype Level = Level(held: nat, closed: bool, written: seq<Sample>, refused: nat)

  // A block offered to an open ring is stored when it fits, lost when it does not, and closes the ring when it is malformed.
  function AfterLull(l: Level, lull: Lull, channels: u32, size: nat): Level
    requires channels > 0
  {
    if l.closed then l
    else if lull.block == [] || |lull.block| % channels != 0 then l.(closed := true)
    else if l.held + |lull.block| <= size then Level(l.held + |lull.block|, lull.Closes(), l.written + lull.block, l.refused)
    else l.(closed := lull.Closes(), refused := l.refused + |lull.block|)
  }

  function AfterLulls(l: Level, lulls: seq<Lull>, channels: u32, size: nat): Level
    requires channels > 0
  {
    if lulls == [] then l
    else AfterLull(AfterLulls(l, lulls[..|lulls| - 1], channels, size), lulls[|lulls| - 1], channels, size)
  }

  lemma NextLull(l: Level, lulls: seq<Lull>, n: nat, channels: u32, size: nat)
    requires channels > 0 && n < |lulls|
    ensures AfterLulls(l, lulls[..n + 1], channels, size) ==
      AfterLull(AfterLulls(l, lulls[..n], channels, size), lulls[n], channels, size)
  {
    assert lulls[..n + 1][..n] == lulls[..n];
  }

  function SaturatingAdd(a: nat, b: nat): nat
    requires a <= UINT64_MAX
  {
    if UINT64_MAX - a < b then UINT64_MAX else a + b
  }

  class CaptureRing {
    const samples: ARAudioRing
    var failure: int
    var droppedSamples: nat
    // Everything written and everything read so far, and the number of samples of blocks that did not fit.
    ghost var written: seq<Sample>
    ghost var delivered: seq<Sample>
    ghost var refused: nat

    ghost predicate Valid()
      reads this, samples, samples.data
    {
      samples.Valid() && samples.frameSamples % samples.channels == 0 && 0 < samples.frameSamples <= samples.data.Length &&
      delivered + samples.Contents() == written &&
      droppedSamples == if refused <= UINT64_MAX then refused else UINT64_MAX
    }

    constructor (rate: u32, channels: u32, frameSize: u32, callbackFrames: u32)
      requires CaptureAccepts(rate, channels, frameSize, callbackFrames)
      ensures Valid() && fresh(samples) && fresh(samples.data) && written == [] && refused == 0
      ensures samples.capacityFrames == CaptureCapacity(rate, frameSize, callbackFrames)
      ensures samples.channels == channels && samples.frameSamples == frameSize * channels
    {
      samples := new ARAudioRing(CaptureCapacity(rate, frameSize, callbackFrames), channels, frameSize);
      failure, droppedSamples := 0, 0;
      written, delivered, refused := [], [], 0;
      new;
      RemainderIs(samples.frameSamples, channels, frameSize, 0);
      MulAtLeast(channels, frameSize);
      assert frameSize * channels == channels * frameSize;
      MulMonotone(frameSize, CaptureCapacity(rate, frameSize, callbackFrames), channels);
    }

    // The first failure is kept.
    method Fail(status: int)
      requires Valid()
      modifies this`failure, samples`closed
      ensures Valid() && samples.closed && samples.Contents() == old(samples.Contents())
      ensures failure == if old(failure) == 0 then status else old(failure)
    {
      if failure == 0 {
        failure := status;
      }
      samples.Close();
    }

    // A block is written whole, or counted as dropped whole, or closes the ring as malformed.
    method Write(block: seq<Sample>) returns (stored: bool)
      requires Valid()
      modifies this, samples, samples.data
      ensures Valid() && delivered == old(delivered)
      ensures
        if old(samples.closed) then !stored && samples.closed && refused == old(refused) && failure == old(failure)
        else if block == [] || |block| % samples.channels != 0 then
          !stored && samples.closed && refused == old(refused) &&
          failure == (if old(failure) == 0 then INVALID_ARGUMENT else old(failure))
        else
          !samples.closed && failure == old(failure) &&
          (stored <==> |old(samples.Contents())| + |block| <= samples.data.Length) &&
          refused == old(refused) + if stored then 0 else |block|
      ensures written == if stored then old(written) + block else old(written)
    {
      hide ARAudioRing.Valid, ARAudioRing.Contents;
      if samples.closed {
        return false;
      }
      if block == [] || BadCount(|block|) {
        Fail(INVALID_ARGUMENT);
        return false;
      }
      var status := samples.Push(block);
      if status == NO_SPACE {
        droppedSamples := SaturatingAdd(droppedSamples, |block|);
        refused := refused + |block|;
      } else {
        written := written + block;
      }
      stored := status == OK;
    }

    predicate BadCount(count: nat)
      requires Valid()
      reads this, samples, samples.data
    {
      count % samples.channels != 0
    }

    // The encoder gets exactly the next frame, or nothing.
    method TryRead(out: array<Sample>, count: nat) returns (status: int)
      requires Valid() && out != samples.data && count <= out.Length
      modifies this`delivered, samples`readCursor, samples`released, out
      ensures Valid()
      ensures status == if count != samples.frameSamples || samples.closed then REFUSED
                        else if |old(samples.Contents())| < count then NO_SPACE else OK
      ensures if status == OK then delivered == old(delivered) + out[..count] && out[count..] == old(out[count..])
              else delivered == old(delivered) && out[..] == old(out[..])
    {
      hide ARAudioRing.Valid, ARAudioRing.Contents;
      if count != samples.frameSamples {
        return REFUSED;
      }
      var copied;
      status, copied := samples.Take(out, count, false);
      delivered := delivered + out[..copied];
      assert out[0..] == out[..];
    }

    ghost function LevelNow(): Level
      requires Valid()
      reads this, samples, samples.data
    {
      Level(|samples.Contents()|, samples.closed, written, refused)
    }

    // One wait of the reader: a callback offers its block, and the ring may be closed.
    method Endure(lull: Lull)
      requires Valid() && samples.channels > 0 && !samples.closed
      modifies this, samples, samples.data
      ensures Valid() && delivered == old(delivered)
      ensures LevelNow() == AfterLull(old(LevelNow()), lull, samples.channels, samples.data.Length)
    {
      hide ARAudioRing.Valid, ARAudioRing.Contents;
      var stored := Write(lull.block);
      if lull.Closes() {
        samples.Close();
      }
    }

    // Waits for a whole frame. Each wait is entered because no frame was there; a wait that times out is followed by one last
    // try. The deadline passes when the listed lulls are over.
    method Read(out: array<Sample>, count: nat, lulls: seq<Lull>) returns (status: int, waited: nat)
      requires Valid() && out != samples.data && count <= out.Length
      requires forall i :: 0 <= i < |lulls| ==> lulls[i].status in {OK, TIMED_OUT, REFUSED}
      modifies this, samples, samples.data, out
      ensures Valid() && samples.channels > 0 && waited <= |lulls|
      ensures if status == OK then delivered == old(delivered) + out[..count] && out[count..] == old(out[count..])
              else delivered == old(delivered) && out[..] == old(out[..])
      ensures
        var last := AfterLulls(old(LevelNow()), lulls[..waited], samples.channels, samples.data.Length);
        written == last.written && refused == last.refused && samples.closed == last.closed &&
        (count == samples.frameSamples ==>
          status == if last.closed || (waited > 0 && lulls[waited - 1].status == REFUSED) then REFUSED
                    else if last.held >= count then OK else TIMED_OUT)
      ensures forall i :: 0 <= i < waited ==>
        var level := AfterLulls(old(LevelNow()), lulls[..i], samples.channels, samples.data.Length);
        !level.closed && level.held < count
      ensures count != samples.frameSamples ==> status == REFUSED && waited == 0
      ensures forall i :: 0 <= i < waited - 1 ==> lulls[i].status == OK
      ensures status == TIMED_OUT ==> waited == |lulls| || (waited > 0 && lulls[waited - 1].status == TIMED_OUT)
    {
      hide ARAudioRing.Valid, ARAudioRing.Contents, AfterLull, AfterLulls;
      ChannelsPositive();
      ghost var first, channels, size := LevelNow(), samples.channels, samples.data.Length;
      NoLulls(first, channels, size);
      waited := 0;
      while true
        invariant Valid() && delivered == old(delivered) && out[..] == old(out[..]) && waited <= |lulls|
        invariant LevelNow() == AfterLulls(first, lulls[..waited], channels, size)
        invariant forall i :: 0 <= i < waited ==>
          !AfterLulls(first, lulls[..i], channels, size).closed && AfterLulls(first, lulls[..i], channels, size).held < count
        invariant forall i :: 0 <= i < waited ==> lulls[i].status == OK
        invariant waited > 0 ==> count == samples.frameSamples
        decreases |lulls| - waited
      {
        status := TryRead(out, count);
        if status != NO_SPACE {
          return status, waited;
        }
        if waited == |lulls| {
          status := TryRead(out, count);
          return status, waited;
        }
        var lull := lulls[waited];
        Endure(lull);
        NextLull(first, lulls, waited, channels, size);
        waited := waited + 1;
        if lull.status != OK {
          if lull.status < 0 {
            return REFUSED, waited;
          }
          status := TryRead(out, count);
          return status, waited;
        }
      }
    }

    lemma ChannelsPositive()
      requires Valid()
      ensures samples.channels > 0
    {}
  }

  lemma NoLulls(l: Level, channels: u32, size: nat)
    requires channels > 0
    ensures AfterLulls(l, [], channels, size) == l
  {}
}
