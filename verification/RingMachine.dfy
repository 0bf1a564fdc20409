/** One producer and one consumer on the ring, running at once: each load of a shared variable, each copy of one sample and
    each store is a step, and the steps of the two sides interleave in any way. The other side's cursor is read once per call
    and used when it is out of date. */
module RingMachine {

  import opened Wrappers
  import opened Protocol
  import opened Modular
  import opened AudioRing

  // With a watermark, blocks are submitted the way the playback ring does it: only whole frames of one size, and only when
  // the ring holds no more than the watermark.
  datatype Format = Format(capacity: nat, channels: nat, watermark: Option<nat>, blockFrames: nat)
  {
    ghost predicate Valid() {
      Sized(capacity, channels) && (watermark.Some? ==> watermark.value + blockFrames <= capacity && blockFrames > 0)
    }

    function Size(): nat {
      capacity * channels
    }
  }

  datatype PushResult = Accepted | Full | TimedOut | Refused

  datatype Producer =
    | Idle
    | Submitting(samples: seq<Sample>)
    | Surveying(samples: seq<Sample>)
    | Parked(samples: seq<Sample>)
    | Pushing(samples: seq<Sample>)
    | Entered(samples: seq<Sample>)
    | AtWrite(samples: seq<Sample>, write: u32)
    | Copying(samples: seq<Sample>, write: u32, used: u32, copied: nat)
    | Published(samples: seq<Sample>)
    | Returned(result: PushResult)
    | Faulted

  datatype TakeResult = Taken | Short | Failed

  datatype Consumer =
    | Resting
    | Asking(frames: nat, partial: bool)
    | Reading(frames: nat, partial: bool)
    | AtRead(frames: nat, partial: bool, read: u32)
    | Taking(frames: nat, read: u32, out: seq<Sample>)
    | Finishing(out: seq<Sample>)
    | Answered(answer: TakeResult, out: seq<Sample>)
    | Faulting

  // Faulted and Faulting stand for an access outside the buffer. accepted and taken record every sample that has ever been
  // published or released; written and released count frames.
  datatype Machine = Machine(
    format: Format,
    data: seq<Sample>,
    read: u32,
    write: u32,
    closed: bool,
    producer: Producer,
    consumer: Consumer,
    accepted: seq<Sample>,
    taken: seq<Sample>,
    written: nat,
    released: nat)

  datatype Action =
    | Push(samples: seq<Sample>)
    | ProducerMoves(giveUp: bool)
    | Take(count: nat, partial: bool)
    | ConsumerMoves
    | Close

  function Start(format: Format, data: seq<Sample>): Machine {
    Machine(format, data, 0, 0, false, Idle, Resting, [], [], 0, 0)
  }

  function FramesOf(format: Format, samples: seq<Sample>): nat
    requires format.channels > 0
  {
    |samples| / format.channels
  }

  // ---------- Steps ----------

  function CallPush(m: Machine, samples: seq<Sample>): Machine
    requires m.format.Valid()
  {
    if !m.producer.Idle? && !m.producer.Returned? then m
    else if m.format.watermark.None? then m.(producer := Pushing(samples))
    else if |samples| != m.format.blockFrames * m.format.channels then m.(producer := Returned(Refused))
    else m.(producer := Submitting(samples))
  }

  ghost predicate Bounded(m: Machine) {
    m.format.Valid() && 2 * m.format.capacity <= UINT32_MAX && Doubled(m.format.capacity) > 0 &&
    |m.data| == m.format.Size() && m.format.channels <= UINT32_MAX
  }

  ghost function ProducerStep(m: Machine, giveUp: bool): Machine
    requires Bounded(m)
  {
    var f := m.format;
    match m.producer
    case Idle => m
    case Returned(_) => m
    case Faulted => m
    case Submitting(samples) =>
      if m.closed then m.(producer := Returned(Refused)) else m.(producer := Surveying(samples))
    case Surveying(samples) =>
      var used := Distance(f.capacity, m.write, m.read);
      if f.watermark.Some? && used <= f.watermark.value && FramesOf(f, samples) <= f.capacity - used
      then m.(producer := Pushing(samples))
      else m.(producer := Parked(samples))
    case Parked(samples) =>
      if giveUp then m.(producer := Returned(if m.closed then Refused else TimedOut))
      else m.(producer := Submitting(samples))
    case Pushing(samples) =>
      if m.closed || samples == [] || |samples| % f.channels != 0 then m.(producer := Returned(Refused))
      else m.(producer := Entered(samples))
    case Entered(samples) => m.(producer := AtWrite(samples, m.write))
    case AtWrite(samples, write) =>
      var used := Distance(f.capacity, write, m.read);
      if FramesOf(f, samples) > f.capacity - used then m.(producer := Returned(Full))
      else m.(producer := Copying(samples, write, used, 0))
    case Copying(samples, write, used, copied) =>
      var frames := FramesOf(f, samples);
      if copied < |samples| then
        var cell := Cell(f.capacity, f.channels, write, frames, copied);
        if 0 <= cell < |m.data| then
          m.(data := m.data[cell := samples[copied]], producer := Copying(samples, write, used, copied + 1))
        else m.(producer := Faulted)
      else
        m.(write := NextCursor(f.capacity, write, frames), producer := Published(samples),
           accepted := m.accepted + samples, written := m.written + frames)
    case Published(_) => m.(producer := Returned(if m.closed then Refused else Accepted))
  }

  function CallTake(m: Machine, count: nat, partial: bool): Machine
    requires m.format.Valid()
  {
    if !m.consumer.Resting? && !m.consumer.Answered? then m
    else if count == 0 || count % m.format.channels != 0 || count / m.format.channels > m.format.capacity
    then m.(consumer := Answered(Failed, []))
    else m.(consumer := Asking(count / m.format.channels, partial))
  }

  ghost function ConsumerStep(m: Machine): Machine
    requires Bounded(m)
  {
    var f := m.format;
    match m.consumer
    case Resting => m
    case Answered(_, _) => m
    case Faulting => m
    case Asking(frames, partial) =>
      if m.closed then m.(consumer := Answered(Failed, [])) else m.(consumer := Reading(frames, partial))
    case Reading(frames, partial) => m.(consumer := AtRead(frames, partial, m.read))
    case AtRead(frames, partial, read) =>
      var available := Distance(f.capacity, m.write, read);
      if available < frames && !partial then m.(consumer := Answered(Short, []))
      else
        var frames := if available < frames then available else frames;
        m.(consumer := if frames == 0 then Finishing([]) else Taking(frames, read, []))
    case Taking(frames, read, out) =>
      if |out| < frames * f.channels then
        var cell := Cell(f.capacity, f.channels, read, frames, |out|);
        if 0 <= cell < |m.data| then m.(consumer := Taking(frames, read, out + [m.data[cell]]))
        else m.(consumer := Faulting)
      else
        m.(read := NextCursor(f.capacity, read, frames), consumer := Finishing(out),
           taken := m.taken + out, released := m.released + frames)
    case Finishing(out) => m.(consumer := Answered(if m.closed then Failed else Taken, out))
  }

  ghost function Step(m: Machine, a: Action): (r: Machine)
    requires Bounded(m)
    ensures Bounded(r)
  {
    match a
    case Push(samples) => CallPush(m, samples)
    case ProducerMoves(giveUp) => ProducerStep(m, giveUp)
    case Take(count, partial) => CallTake(m, count, partial)
    case ConsumerMoves => ConsumerStep(m)
    case Close => m.(closed := true)
  }

  ghost function Run(m: Machine, actions: seq<Action>): (r: Machine)
    requires Bounded(m)
    ensures Bounded(r)
  {
    if actions == [] then m else Step(Run(m, actions[..|actions| - 1]), actions[|actions| - 1])
  }

  // ---------- The invariant ----------

  // The cursors are the frame counts on their laps, and the taken samples are the first of the accepted ones.
  ghost predicate Counted(m: Machine)
    requires m.format.capacity > 0
  {
    m.released <= m.written <= m.released + m.format.capacity &&
    m.read == m.released % (2 * m.format.capacity) && m.write == m.written % (2 * m.format.capacity) &&
    |m.accepted| == m.written * m.format.channels && |m.taken| == m.released * m.format.channels &&
    m.taken <= m.accepted
  }

  // The sample at the place of position x of the endless stream.
  function At(m: Machine, x: nat): Sample
    requires |m.data| == m.format.Size() > 0
  {
    m.data[x % m.format.Size()]
  }

  // Every unread sample is in the buffer at its place.
  ghost predicate Stored(m: Machine)
    requires |m.data| == m.format.Size() > 0
  {
    forall x :: |m.taken| <= x < |m.accepted| ==> At(m, x) == m.accepted[x]
  }

  ghost predicate WholeFrames(m: Machine, samples: seq<Sample>)
    requires m.format.channels > 0
  {
    samples != [] && |samples| == FramesOf(m.format, samples) * m.format.channels
  }

  // Submitted blocks are whole frames of the one size.
  ghost predicate OfBlockSize(m: Machine, samples: seq<Sample>)
    requires m.format.Valid()
  {
    m.format.watermark.Some? ==> FramesOf(m.format, samples) == m.format.blockFrames
  }

  // The check before a submitted push still holds: only the consumer can have moved.
  ghost predicate Vetted(m: Machine, samples: seq<Sample>)
    requires m.format.Valid()
  {
    m.format.watermark.Some? ==>
      m.written - m.released <= m.format.watermark.value && FramesOf(m.format, samples) == m.format.blockFrames
  }

  ghost predicate ProducerInv(m: Machine)
    requires m.format.Valid() && |m.data| == m.format.Size() > 0
  {
    match m.producer
    case Idle => true
    case Submitting(samples) => OfBlockSize(m, samples)
    case Surveying(samples) => OfBlockSize(m, samples)
    case Parked(samples) => OfBlockSize(m, samples)
    case Pushing(samples) => Vetted(m, samples)
    case Entered(samples) => Vetted(m, samples) && WholeFrames(m, samples)
    case AtWrite(samples, write) => Vetted(m, samples) && WholeFrames(m, samples) && write == m.write
    case Copying(samples, write, used, copied) =>
      Vetted(m, samples) && WholeFrames(m, samples) && write == m.write && copied <= |samples| &&
      m.written - m.released <= used && FramesOf(m.format, samples) + used <= m.format.capacity &&
      forall x :: |m.accepted| <= x < |m.accepted| + copied ==> At(m, x) == samples[x - |m.accepted|]
    case Published(_) => true
    case Returned(result) => m.format.watermark.Some? ==> !result.Full?
    case Faulted => false
  }

  ghost predicate ConsumerInv(m: Machine)
    requires m.format.Valid()
  {
    match m.consumer
    case AtRead(frames, partial, read) => read == m.read
    case Taking(frames, read, out) =>
      read == m.read && m.released + frames <= m.written && |out| <= frames * m.format.channels &&
      m.taken + out <= m.accepted
    case Faulting => false
    case _ => true
  }

  ghost predicate MachineInv(m: Machine) {
    Bounded(m) && m.format.Size() > 0 && Counted(m) && Stored(m) && ProducerInv(m) && ConsumerInv(m) &&
    (m.format.watermark.Some? ==> m.written - m.released <= m.format.watermark.value + m.format.blockFrames)
  }

  lemma SizePositive(format: Format)
    requires format.Valid()
    ensures format.Size() > 0 && format.capacity > 0 && format.channels > 0
    ensures 2 * format.capacity <= UINT32_MAX && Doubled(format.capacity) == 2 * format.capacity
    ensures format.channels <= UINT32_MAX
  {
    SizedBounds(format.capacity, format.channels);
    MulAtLeast(format.capacity, format.channels);
    SmallWrap32(format.capacity * 2);
  }

  lemma StartInv(format: Format, data: seq<Sample>)
    requires format.Valid() && |data| == format.Size()
    ensures MachineInv(Start(format, data))
  {
    SizePositive(format);
  }

  // The occupancy that either side computes from the two cursors is the true one.
  lemma OccupancyIsTrue(m: Machine)
    requires MachineInv(m)
    ensures Distance(m.format.capacity, m.write, m.read) == m.written - m.released <= m.format.capacity
  {
    CursorsCount(m.format.capacity, m.format.channels, m.released, m.written, 0);
  }

  lemma FramesExact(format: Format, samples: seq<Sample>)
    requires format.channels > 0
    ensures |samples| % format.channels == 0 ==> FramesOf(format, samples) * format.channels == |samples|
    ensures |samples| == format.blockFrames * format.channels ==> FramesOf(format, samples) == format.blockFrames
  {
    DivMod(|samples|, format.channels);
    RemainderIs(format.blockFrames * format.channels, format.channels, format.blockFrames, 0);
  }

  // A step that moves only one side's own state.
  lemma Undisturbed(m: Machine, r: Machine)
    requires MachineInv(m) && r == m.(producer := r.producer, consumer := r.consumer, closed := r.closed)
    ensures Bounded(r) && r.format.Size() > 0 && Counted(r) && Stored(r)
    ensures forall x {:trigger At(r, x)} :: At(r, x) == At(m, x)
  {
    hide ProducerInv, ConsumerInv;
    assert forall x {:trigger At(r, x)} :: At(r, x) == At(m, x);
  }

  // ---------- The producer's steps ----------

  // The next cell to be written is in the buffer and is the place of the stream's next position.
  lemma NextCell(m: Machine)
    requires MachineInv(m) && m.producer.Copying? && m.producer.copied < |m.producer.samples|
    ensures
      var p := m.producer;
      Cell(m.format.capacity, m.format.channels, p.write, FramesOf(m.format, p.samples), p.copied) ==
      (|m.accepted| + p.copied) % m.format.Size()
    ensures |m.accepted| + m.producer.copied < |m.taken| + m.format.Size()
  {
    hide Cell, Sized, FramesOf, MachineInv;
    CopyFacts(m);
    var f, p := m.format, m.producer;
    var frames := FramesOf(f, p.samples);
    CellIsModular(f.capacity, f.channels, m.written, frames, p.copied);
    FitsBehind(m.written, frames, m.released, f.capacity, f.channels);
  }

  lemma CopyFacts(m: Machine)
    requires MachineInv(m) && m.producer.Copying?
    ensures m.format.Valid() && Sized(m.format.capacity, m.format.channels) && m.format.channels > 0
    ensures m.producer.write == m.written % (2 * m.format.capacity)
    ensures |m.producer.samples| == FramesOf(m.format, m.producer.samples) * m.format.channels
    ensures m.released <= m.written && m.written + FramesOf(m.format, m.producer.samples) <= m.released + m.format.capacity
    ensures |m.accepted| == m.written * m.format.channels && |m.taken| == m.released * m.format.channels
  {}

  // No cell being written holds an unread sample.
  lemma WriterSparesUnread(m: Machine, x: nat)
    requires MachineInv(m) && m.producer.Copying? && m.producer.copied < |m.producer.samples|
    requires |m.taken| <= x < |m.accepted| + m.producer.copied
    ensures
      var p := m.producer;
      Cell(m.format.capacity, m.format.channels, p.write, FramesOf(m.format, p.samples), p.copied) != x % m.format.Size()
  {
    hide Cell, MachineInv;
    NextCell(m);
    InvSize(m);
    RemaindersDiffer(x, |m.accepted| + m.producer.copied, m.format.Size());
  }

  lemma InvSize(m: Machine)
    requires MachineInv(m)
    ensures Bounded(m) && m.format.Size() > 0
  {}

  lemma CopyingKeepsInv(m: Machine)
    requires MachineInv(m) && m.producer.Copying? && m.producer.copied < |m.producer.samples|
    ensures MachineInv(ProducerStep(m, false)) && ProducerStep(m, true) == ProducerStep(m, false)
  {
    hide Cell;
    NextCell(m);
    var r, end := ProducerStep(m, false), |m.accepted| + m.producer.copied;
    DivMod(end, m.format.Size());
    forall x | |m.taken| <= x < end
      ensures At(r, x) == At(m, x)
    {
      WriterSparesUnread(m, x);
    }
    assert At(r, end) == m.producer.samples[m.producer.copied];
  }

  lemma PublishingKeepsInv(m: Machine)
    requires MachineInv(m) && m.producer.Copying? && m.producer.copied == |m.producer.samples|
    ensures MachineInv(ProducerStep(m, false)) && ProducerStep(m, true) == ProducerStep(m, false)
  {
    hide Cell, Distance, NextCursor, Sized, Stored, FramesOf, Counted, OfBlockSize, WholeFrames;
    var p, r := m.producer, ProducerStep(m, false);
    PublishingCounts(m);
    PublishingKeepsStored(m, r);
    if m.consumer.Taking? {
      PrefixOfLonger(m.taken + m.consumer.out, m.accepted, p.samples);
    }
  }

  lemma PublishingCounts(m: Machine)
    requires MachineInv(m) && m.producer.Copying? && m.producer.copied == |m.producer.samples|
    ensures Counted(ProducerStep(m, false))
  {
    hide Cell, Distance, NextCursor, Sized, FramesOf, MachineInv;
    CopyFacts(m);
    CountedFacts(m);
    var f, frames := m.format, FramesOf(m.format, m.producer.samples);
    CursorsCount(f.capacity, f.channels, m.released, m.written, frames);
    assert (m.written + frames) * f.channels == m.written * f.channels + frames * f.channels;
    PrefixOfLonger(m.taken, m.accepted, m.producer.samples);
  }

  lemma CountedFacts(m: Machine)
    requires MachineInv(m)
    ensures Bounded(m) && m.format.Size() > 0 && m.format.capacity > 0 && Counted(m)
  {}

  lemma PrefixOfLonger(xs: seq<Sample>, ys: seq<Sample>, more: seq<Sample>)
    requires xs <= ys
    ensures xs <= ys + more
  {}

  lemma PublishingKeepsStored(m: Machine, r: Machine)
    requires MachineInv(m) && m.producer.Copying? && m.producer.copied == |m.producer.samples|
    requires r.format == m.format && r.data == m.data && r.taken == m.taken && r.accepted == m.accepted + m.producer.samples
    ensures Stored(r)
  {
    hide Counted, ConsumerInv, WholeFrames, Vetted;
    forall x | |r.taken| <= x < |r.accepted|
      ensures At(r, x) == r.accepted[x]
    {
      assert At(r, x) == At(m, x);
    }
  }

  lemma ProducerStepKeepsInv(m: Machine, giveUp: bool)
    requires MachineInv(m)
    ensures MachineInv(ProducerStep(m, giveUp))
  {
    hide Cell, Distance, NextCursor, Sized;
    match m.producer
    case Copying(samples, _, _, copied) =>
      if copied < |samples| {
        CopyingKeepsInv(m);
      } else {
        PublishingKeepsInv(m);
      }
    case _ =>
      ProducerWaitsKeepInv(m, giveUp);
  }

  lemma ProducerWaitsKeepInv(m: Machine, giveUp: bool)
    requires MachineInv(m) && !m.producer.Copying?
    ensures MachineInv(ProducerStep(m, giveUp))
  {
    hide Cell, Distance, NextCursor, Sized, Counted, Stored, At;
    OccupancyIsTrue(m);
    Undisturbed(m, ProducerStep(m, giveUp));
    if m.producer.Pushing? {
      FramesExact(m.format, m.producer.samples);
    }
  }

  // ---------- The consumer's steps ----------

  // The next cell to be read is in the buffer and holds the next sample of the stream.
  lemma NextSample(m: Machine)
    requires MachineInv(m) && m.consumer.Taking? && |m.consumer.out| < m.consumer.frames * m.format.channels
    ensures
      var c := m.consumer;
      var cell := Cell(m.format.capacity, m.format.channels, c.read, c.frames, |c.out|);
      0 <= cell < |m.data| && |m.taken| + |c.out| < |m.accepted| && m.data[cell] == m.accepted[|m.taken| + |c.out|]
  {
    hide Cell, Sized, MachineInv;
    TakeFacts(m);
    var f, c := m.format, m.consumer;
    CellIsModular(f.capacity, f.channels, m.released, c.frames, |c.out|);
    FitsBehind(m.released, c.frames, m.written, 0, f.channels);
    StoredAt(m, |m.taken| + |c.out|);
  }

  lemma TakeFacts(m: Machine)
    requires MachineInv(m) && m.consumer.Taking?
    ensures m.format.Valid() && Sized(m.format.capacity, m.format.channels) && m.format.channels > 0
    ensures m.consumer.read == m.released % (2 * m.format.capacity)
    ensures m.released + m.consumer.frames <= m.written <= m.released + m.format.capacity
    ensures |m.accepted| == m.written * m.format.channels && |m.taken| == m.released * m.format.channels
  {}

  lemma StoredAt(m: Machine, x: nat)
    requires MachineInv(m) && |m.taken| <= x < |m.accepted|
    ensures
      var cell := x % m.format.Size();
      0 <= cell < |m.data| && m.data[cell] == m.accepted[x]
  {
    hide Counted, ProducerInv, ConsumerInv;
    DivMod(x, m.format.Size());
    assert At(m, x) == m.accepted[x];
  }

  lemma TakingKeepsInv(m: Machine)
    requires MachineInv(m) && m.consumer.Taking? && |m.consumer.out| < m.consumer.frames * m.format.channels
    ensures MachineInv(ConsumerStep(m))
  {
    hide Cell, Distance, Sized;
    NextSample(m);
    var r := ConsumerStep(m);
    assert forall x {:trigger At(r, x)} :: At(r, x) == At(m, x);
    assert r.taken + r.consumer.out <= r.accepted;
  }

  lemma ReleasingKeepsInv(m: Machine)
    requires MachineInv(m) && m.consumer.Taking? && |m.consumer.out| == m.consumer.frames * m.format.channels
    ensures MachineInv(ConsumerStep(m))
  {
    hide Cell, Distance, NextCursor, Sized;
    var f, c, r := m.format, m.consumer, ConsumerStep(m);
    CursorsCount(f.capacity, f.channels, m.released, m.released, c.frames);
    assert (m.released + c.frames) * f.channels == m.released * f.channels + c.frames * f.channels;
    assert forall x {:trigger At(r, x)} :: At(r, x) == At(m, x);
  }

  lemma ConsumerStepKeepsInv(m: Machine)
    requires MachineInv(m)
    ensures MachineInv(ConsumerStep(m))
  {
    hide Cell, Distance, NextCursor, Sized, MachineInv;
    match m.consumer
    case Taking(frames, read, out) =>
      TakenLength(m);
      if |out| < frames * m.format.channels {
        TakingKeepsInv(m);
      } else {
        ReleasingKeepsInv(m);
      }
    case _ =>
      ConsumerWaitsKeepInv(m);
  }

  lemma TakenLength(m: Machine)
    requires MachineInv(m) && m.consumer.Taking?
    ensures |m.consumer.out| <= m.consumer.frames * m.format.channels
  {}

  lemma TakenIsPrefix(m: Machine)
    requires MachineInv(m)
    ensures m.taken + [] <= m.accepted
  {
    assert m.taken + [] == m.taken;
  }

  lemma ConsumerWaitsKeepInv(m: Machine)
    requires MachineInv(m) && !m.consumer.Taking?
    ensures MachineInv(ConsumerStep(m))
  {
    hide Cell, Distance, NextCursor, Sized, Counted, Stored, At;
    OccupancyIsTrue(m);
    var r := ConsumerStep(m);
    Undisturbed(m, r);
    TakenIsPrefix(m);
    if r.consumer.Taking? {
      MulNonNegative(r.consumer.frames, m.format.channels);
    }
  }

  // ---------- Every run ----------

  lemma StepKeepsInv(m: Machine, a: Action)
    requires MachineInv(m)
    ensures MachineInv(Step(m, a))
  {
    hide ProducerStep, ConsumerStep, Distance, NextCursor, Cell, Sized;
    match a
    case ProducerMoves(giveUp) => ProducerStepKeepsInv(m, giveUp);
    case ConsumerMoves => ConsumerStepKeepsInv(m);
    case Push(samples) => CallsKeepInv(m, a);
    case Take(_, _) => CallsKeepInv(m, a);
    case Close => CallsKeepInv(m, a);
  }

  lemma CallsKeepInv(m: Machine, a: Action)
    requires MachineInv(m) && !a.ProducerMoves? && !a.ConsumerMoves?
    ensures MachineInv(Step(m, a))
  {
    hide ProducerStep, ConsumerStep, Distance, NextCursor, Cell, Sized, Counted, Stored, At;
    Undisturbed(m, Step(m, a));
    if a.Push? {
      FramesExact(m.format, a.samples);
    }
  }

  lemma {:induction false} RunKeepsInv(m: Machine, actions: seq<Action>)
    requires MachineInv(m)
    ensures MachineInv(Run(m, actions))
  {
    hide MachineInv, Step;
    InvSize(m);
    if actions != [] {
      var n := |actions| - 1;
      RunKeepsInv(m, actions[..n]);
      StepKeepsInv(Run(m, actions[..n]), actions[n]);
    }
  }

  // ---------- The ring is a first-in first-out queue ----------

  // What the buffer holds between the two cursors, read from memory the way a take would.
  ghost function Contents(m: Machine): seq<Sample>
    requires Bounded(m)
  {
    var f := m.format;
    var used := Distance(f.capacity, m.write, m.read);
    seq(used * f.channels, k requires 0 <= k < used * f.channels =>
      var cell := Cell(f.capacity, f.channels, m.read, used, k);
      if 0 <= cell < |m.data| then m.data[cell] else 0.0)
  }

  lemma ContentsAreUnread(m: Machine)
    requires MachineInv(m)
    ensures Contents(m) == m.accepted[|m.taken|..]
    ensures |Contents(m)| == (m.written - m.released) * m.format.channels <= m.format.Size()
  {
    hide Cell, Distance, MachineInv;
    InvSize(m);
    OccupancyIsTrue(m);
    UnreadCount(m);
    forall k | 0 <= k < (m.written - m.released) * m.format.channels
      ensures Contents(m)[k] == m.accepted[|m.taken| + k]
    {
      UnreadSample(m, k);
    }
  }

  lemma UnreadCount(m: Machine)
    requires MachineInv(m)
    ensures 0 <= |m.accepted| - |m.taken| == (m.written - m.released) * m.format.channels <= m.format.Size()
  {
    hide Sized, Stored, ProducerInv, ConsumerInv;
    var channels := m.format.channels;
    assert m.written * channels - m.released * channels == (m.written - m.released) * channels;
    MulMonotone(m.written - m.released, m.format.capacity, channels);
  }

  lemma UnreadSample(m: Machine, k: nat)
    requires MachineInv(m) && k < (m.written - m.released) * m.format.channels
    requires |m.taken| + k < |m.accepted|
    ensures
      var cell := Cell(m.format.capacity, m.format.channels, m.read, m.written - m.released, k);
      0 <= cell < |m.data| && m.data[cell] == m.accepted[|m.taken| + k]
  {
    hide Cell, Distance, Sized, Stored, ProducerInv, ConsumerInv;
    var f := m.format;
    CellIsModular(f.capacity, f.channels, m.released, m.written - m.released, k);
    StoredAt(m, |m.taken| + k);
  }

  // Every step of either side is invisible, or appends one whole block, or removes exactly the samples already copied out.
  lemma StepIsFifo(m: Machine, a: Action)
    requires MachineInv(m)
    ensures
      var r := Step(m, a);
      || Contents(r) == Contents(m)
      || (m.producer.Copying? && r.producer == Published(m.producer.samples) && Contents(r) == Contents(m) + m.producer.samples)
      || (m.consumer.Taking? && r.consumer == Finishing(m.consumer.out) && Contents(m) == m.consumer.out + Contents(r))
  {
    hide Contents, Cell, Distance, NextCursor, MachineInv;
    StepKeepsInv(m, a);
    InvSize(m);
    ContentsAreUnread(m);
    ContentsAreUnread(Step(m, a));
    InvPrefix(m);
    InvPrefix(Step(m, a));
  }

  lemma InvPrefix(m: Machine)
    requires MachineInv(m)
    ensures m.taken <= m.accepted
  {}

  // In every state of every run: what has been taken, followed by what the buffer holds, is what has been accepted; and no
  // access has been outside the buffer.
  lemma RunIsFifo(format: Format, data: seq<Sample>, actions: seq<Action>)
    requires format.Valid() && |data| == format.Size()
    ensures Bounded(Start(format, data))
    ensures
      var m := Run(Start(format, data), actions);
      m.taken + Contents(m) == m.accepted && |Contents(m)| <= m.format.Size() &&
      !m.producer.Faulted? && !m.consumer.Faulting?
  {
    hide Contents, Run, Step;
    StartInv(format, data);
    RunKeepsInv(Start(format, data), actions);
    ContentsAreUnread(Run(Start(format, data), actions));
  }

  // A push is refused for lack of space exactly when its block did not fit at the moment the read cursor was loaded.
  lemma FullIsExact(m: Machine)
    requires MachineInv(m) && m.producer.AtWrite?
    ensures ProducerStep(m, false).producer == Returned(Full) <==> |Contents(m)| + |m.producer.samples| > m.format.Size()
  {
    hide Contents, Distance, MachineInv, Format.Valid, FramesOf;
    InvSize(m);
    SideFacts(m);
    OccupancyIsTrue(m);
    ContentsAreUnread(m);
    SumFits(m.written - m.released, FramesOf(m.format, m.producer.samples), m.format.capacity, m.format.channels);
  }

  // A complete take is told to wait exactly when too little was there at the moment the write cursor was loaded.
  lemma ShortIsExact(m: Machine)
    requires MachineInv(m) && m.consumer.AtRead?
    ensures ConsumerStep(m).consumer == Answered(Short, []) <==>
      !m.consumer.partial && |Contents(m)| < m.consumer.frames * m.format.channels
  {
    hide Contents, Distance, MachineInv, Format.Valid;
    InvSize(m);
    SideFacts(m);
    OccupancyIsTrue(m);
    ContentsAreUnread(m);
    SameOrder(m.consumer.frames, m.written - m.released, m.format.channels);
  }

  // A take that is not told to wait is for all that was asked for, or for all there was when the write cursor was loaded.
  lemma TakesWhatIsThere(m: Machine)
    requires MachineInv(m) && m.consumer.AtRead? && ConsumerStep(m).consumer != Answered(Short, [])
    ensures
      var asked, there := m.consumer.frames * m.format.channels, |Contents(m)|;
      var c := ConsumerStep(m).consumer;
      if asked == 0 || there == 0 then c == Finishing([])
      else c.Taking? && c.out == [] && c.frames * m.format.channels == if there < asked then there else asked
  {
    hide Contents, Distance, MachineInv, Format.Valid;
    InvSize(m);
    SideFacts(m);
    OccupancyIsTrue(m);
    ContentsAreUnread(m);
    SameOrder(m.consumer.frames, m.written - m.released, m.format.channels);
    ZeroFrames(m.consumer.frames, m.format.channels);
    ZeroFrames(m.written - m.released, m.format.channels);
  }

  lemma ZeroFrames(frames: nat, channels: nat)
    requires channels > 0
    ensures frames * channels == 0 <==> frames == 0
  {
    if frames > 0 {
      MulMonotone(1, frames, channels);
    }
  }

  // A submission goes on exactly when no more than the watermark was there at the moment the read cursor was loaded.
  lemma SurveyIsExact(m: Machine)
    requires MachineInv(m) && m.producer.Surveying? && m.format.watermark.Some?
    ensures
      var p := ProducerStep(m, false).producer;
      (p.Pushing? <==> |Contents(m)| <= m.format.watermark.value * m.format.channels) && (p.Pushing? || p.Parked?)
  {
    hide Contents, Distance, Stored, Counted;
    InvSize(m);
    OccupancyIsTrue(m);
    ContentsAreUnread(m);
    SameOrder(m.written - m.released, m.format.watermark.value, m.format.channels);
  }

  // ---------- Calls come to an end ----------

  // How many steps of its own a side has before it at most. Parked is the one state that waits.
  function ProducerSteps(p: Producer): nat {
    match p
    case Idle => 0
    case Returned(_) => 0
    case Faulted => 0
    case Submitting(samples) => |samples| + 7
    case Surveying(samples) => |samples| + 6
    case Parked(samples) => |samples| + 5
    case Pushing(samples) => |samples| + 5
    case Entered(samples) => |samples| + 4
    case AtWrite(samples, _) => |samples| + 3
    case Copying(samples, _, _, copied) => if copied < |samples| then |samples| - copied + 2 else 2
    case Published(_) => 1
  }

  function ConsumerSteps(c: Consumer, format: Format): nat {
    match c
    case Resting => 0
    case Answered(_, _) => 0
    case Faulting => 0
    case Asking(frames, _) => frames * format.channels + 5
    case Reading(frames, _) => frames * format.channels + 4
    case AtRead(frames, _, _) => frames * format.channels + 3
    case Taking(frames, _, out) => if |out| < frames * format.channels then frames * format.channels - |out| + 2 else 2
    case Finishing(_) => 1
  }

  // Whatever the other side does: every step of a call brings its end nearer, but for a submission that waits for room. A push
  // ends within as many steps as it has samples and five more, and so does a take.
  lemma CallsEnd(m: Machine, giveUp: bool)
    requires MachineInv(m)
    ensures
      var p := ProducerStep(m, giveUp).producer;
      ProducerSteps(m.producer) > 0 && (m.producer.Parked? ==> giveUp) ==> ProducerSteps(p) < ProducerSteps(m.producer)
    ensures
      var c := ConsumerStep(m).consumer;
      ConsumerSteps(m.consumer, m.format) > 0 ==> ConsumerSteps(c, m.format) < ConsumerSteps(m.consumer, m.format)
  {
    hide ProducerStep, ConsumerStep, ProducerSteps, ConsumerSteps, MachineInv;
    InvSize(m);
    if m.producer.Parked? ==> giveUp {
      PushEnds(m, giveUp);
    }
    TakeEnds(m);
  }

  lemma PushEnds(m: Machine, giveUp: bool)
    requires Bounded(m) && (m.producer.Parked? ==> giveUp)
    ensures ProducerSteps(m.producer) > 0 ==> ProducerSteps(ProducerStep(m, giveUp).producer) < ProducerSteps(m.producer)
  {
    hide Cell, Distance, NextCursor, FramesOf;
  }

  lemma TakeEnds(m: Machine)
    requires MachineInv(m)
    ensures
      var c := ConsumerStep(m).consumer;
      ConsumerSteps(m.consumer, m.format) > 0 ==> ConsumerSteps(c, m.format) < ConsumerSteps(m.consumer, m.format)
  {
    hide Cell, Distance, NextCursor, Stored, Counted, Sized, ProducerInv;
    InvSize(m);
    if m.consumer.AtRead? {
      var available := Distance(m.format.capacity, m.write, m.consumer.read);
      if available < m.consumer.frames {
        MulMonotone(available, m.consumer.frames, m.format.channels);
      }
    }
  }

  // What a call begins with: a take is refused at once exactly when it asks for nothing, for part of a frame, or for more than the
  // ring can ever hold; a submission exactly when it is not of the one size.
  lemma CallsAreExact(m: Machine, samples: seq<Sample>, count: nat, partial: bool)
    requires MachineInv(m)
    ensures m.producer.Idle? || m.producer.Returned? ==>
      CallPush(m, samples).producer ==
        if m.format.watermark.None? then Pushing(samples)
        else if |samples| == m.format.blockFrames * m.format.channels then Submitting(samples) else Returned(Refused)
    ensures m.consumer.Resting? || m.consumer.Answered? ==>
      var c := CallTake(m, count, partial).consumer;
      if 0 < count <= m.format.Size() && count % m.format.channels == 0
      then c.Asking? && c.partial == partial && c.frames * m.format.channels == count
      else c == Answered(Failed, [])
  {
    hide Stored, Counted;
    InvSize(m);
    var f := m.format;
    DivMod(count, f.channels);
    SameOrder(f.capacity, count / f.channels, f.channels);
  }

  // ---------- What the callers are told ----------

  // A block has been published but its caller does not know yet; samples have been released but not yet handed over.
  function Unreported(p: Producer): seq<Sample> {
    if p.Published? then p.samples else []
  }

  function Undelivered(c: Consumer): seq<Sample> {
    if c.Finishing? then c.out else []
  }

  // The samples of all pushes whose callers were told so, and of all takes whose callers got them.
  ghost function Reported(m: Machine, actions: seq<Action>): seq<Sample>
    requires Bounded(m)
  {
    if actions == [] then []
    else
      var n := |actions| - 1;
      var s, r := Run(m, actions[..n]), Run(m, actions);
      Reported(m, actions[..n]) +
      if actions[n].ProducerMoves? && r.producer == Returned(Accepted) then Unreported(s.producer) else []
  }

  ghost function Handed(m: Machine, actions: seq<Action>): seq<Sample>
    requires Bounded(m)
  {
    if actions == [] then []
    else
      var n := |actions| - 1;
      var s, r := Run(m, actions[..n]), Run(m, actions);
      Handed(m, actions[..n]) +
      if actions[n].ConsumerMoves? && !s.consumer.Answered? && r.consumer.Answered? && r.consumer.answer == Taken
      then r.consumer.out else []
  }

  lemma StepReports(m: Machine, a: Action, reported: seq<Sample>, handed: seq<Sample>)
    requires Bounded(m) && m.accepted == reported + Unreported(m.producer) && m.taken == handed + Undelivered(m.consumer)
    ensures
      var r := Step(m, a);
      var told := if a.ProducerMoves? && r.producer == Returned(Accepted) then Unreported(m.producer) else [];
      var given := if a.ConsumerMoves? && !m.consumer.Answered? && r.consumer.Answered? && r.consumer.answer == Taken
                   then r.consumer.out else [];
      (m.closed ==> r.closed) &&
      (!r.closed ==>
        r.accepted == reported + told + Unreported(r.producer) && r.taken == handed + given + Undelivered(r.consumer))
  {
    hide Cell, Distance, NextCursor;
  }

  // While the ring is open, the samples whose callers were told that they were accepted, and those of a call about to be told, are
  // what has been accepted; and likewise for the samples handed over. What is still in the ring is the difference.
  lemma {:induction false} CallersAreTold(format: Format, data: seq<Sample>, actions: seq<Action>)
    requires format.Valid() && |data| == format.Size()
    ensures Bounded(Start(format, data))
    ensures
      var m := Run(Start(format, data), actions);
      !m.closed ==>
        m.accepted == Reported(Start(format, data), actions) + Unreported(m.producer) &&
        m.taken == Handed(Start(format, data), actions) + Undelivered(m.consumer) &&
        Handed(Start(format, data), actions) + Undelivered(m.consumer) + Contents(m) ==
        Reported(Start(format, data), actions) + Unreported(m.producer)
  {
    hide Step, Contents, Sized;
    StartInv(format, data);
    RunIsFifo(format, data, actions);
    if actions != [] {
      var n := |actions| - 1;
      var start := Start(format, data);
      var m := Run(start, actions[..n]);
      CallersAreTold(format, data, actions[..n]);
      if !Run(start, actions).closed {
        if m.closed {
          StaysClosed(m, actions[n]);
        }
        StepReports(m, actions[n], Reported(start, actions[..n]), Handed(start, actions[..n]));
      }
    }
  }

  lemma StaysClosed(m: Machine, a: Action)
    requires Bounded(m) && m.closed
    ensures Step(m, a).closed
  {
    hide Cell, Distance, NextCursor;
  }

  // A call is refused only when the ring is closed or the block is malformed, and accepted only when the ring is open.
  lemma RefusalIsExact(m: Machine, giveUp: bool)
    requires MachineInv(m) && !m.producer.Returned?
    ensures
      var p, r := m.producer, ProducerStep(m, giveUp).producer;
      (r == Returned(Accepted) <==> p.Published? && !m.closed) &&
      (r == Returned(TimedOut) <==> p.Parked? && giveUp && !m.closed) &&
      (r == Returned(Refused) <==>
        (m.closed && (p.Submitting? || p.Published? || (p.Parked? && giveUp) || p.Pushing?)) ||
        (p.Pushing? && !WholeFrames(m, p.samples)))
  {
    hide Cell, Distance, NextCursor, Stored, Counted, Sized;
    InvSize(m);
    if m.producer.Pushing? {
      FramesExact(m.format, m.producer.samples);
      if WholeFrames(m, m.producer.samples) {
        RemainderIs(|m.producer.samples|, m.format.channels, FramesOf(m.format, m.producer.samples), 0);
      }
    }
  }

  lemma SideFacts(m: Machine)
    requires MachineInv(m)
    ensures m.format.channels > 0
    ensures m.producer.AtWrite? ==>
      m.producer.write == m.write && |m.producer.samples| == FramesOf(m.format, m.producer.samples) * m.format.channels
    ensures m.consumer.AtRead? ==> m.consumer.read == m.read
  {}

  // With a watermark: the buffer never holds more than the watermark and one block, and a push after the check always fits.
  lemma SubmittedAlwaysFits(format: Format, data: seq<Sample>, actions: seq<Action>)
    requires format.Valid() && |data| == format.Size() && format.watermark.Some?
    ensures Bounded(Start(format, data))
    ensures
      var m := Run(Start(format, data), actions);
      m.format == format && m.producer != Returned(Full) &&
      |Contents(m)| <= (format.watermark.value + format.blockFrames) * format.channels
  {
    hide Contents, Run, Step, Sized;
    StartInv(format, data);
    RunKeepsInv(Start(format, data), actions);
    RunKeepsFormat(Start(format, data), actions);
    var m := Run(Start(format, data), actions);
    ContentsAreUnread(m);
    MulMonotone(m.written - m.released, format.watermark.value + format.blockFrames, format.channels);
  }

  lemma {:induction false} RunKeepsFormat(m: Machine, actions: seq<Action>)
    requires Bounded(m)
    ensures Run(m, actions).format == m.format
  {
    hide Cell, Distance, NextCursor, Bounded;
    if actions != [] {
      RunKeepsFormat(m, actions[..|actions| - 1]);
    }
  }
}
