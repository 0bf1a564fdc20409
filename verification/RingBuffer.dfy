/** The ring as an object, for calls that are not interrupted: what a push and a take do to its contents. */
module RingBuffer {

  import opened Protocol
  import opened Modular
  import opened AudioRing

  const OK: int := 0
  const NO_SPACE: int := 1
  const REFUSED: int := -1

  // The samples of the frames from released up to written, at their places around the buffer.
  function Unread(data: seq<Sample>, capacity: nat, channels: nat, released: nat, written: nat): seq<Sample>
    requires |data| == capacity * channels > 0 && released <= written
  {
    seq((written - released) * channels, k requires 0 <= k < (written - released) * channels =>
      data[(released * channels + k) % (capacity * channels)])
  }

  function Splice(data: seq<Sample>, at: nat, piece: seq<Sample>): (r: seq<Sample>)
    requires at + |piece| <= |data|
    ensures |r| == |data|
    ensures forall c :: 0 <= c < |data| ==> r[c] == if at <= c < at + |piece| then piece[c - at] else data[c]
  {
    data[..at] + piece + data[at + |piece|..]
  }

  // The samples up to the cut copied to one place and the rest to the front.
  function TwoPieces(data: seq<Sample>, at: nat, samples: seq<Sample>, cut: nat): (r: seq<Sample>)
    requires cut <= |samples| && at + cut <= |data| && |samples| - cut <= at
    ensures |r| == |data|
    ensures forall c :: 0 <= c < |data| ==>
      r[c] == if c < |samples| - cut then samples[cut + c] else if at <= c < at + cut then samples[c - at] else data[c]
  {
    Splice(Splice(data, at, samples[..cut]), 0, samples[cut..])
  }

  lemma TwoPiecesAt(data: seq<Sample>, at: nat, samples: seq<Sample>, cut: nat, i: nat)
    requires cut <= |samples| && at + cut <= |data| && |samples| - cut <= at && i < |samples|
    ensures
      var cell := if i < cut then at + i else i - cut;
      cell < |data| && TwoPieces(data, at, samples, cut)[cell] == samples[i]
  {}

  // How many frames fit before the end of the buffer.
  function First(capacity: u32, cursor: u32, frames: nat): nat
    requires capacity > 0
  {
    if capacity - cursor % capacity > frames then frames else capacity - cursor % capacity
  }

  lemma PieceBounds(capacity: u32, channels: nat, cursor: u32, frames: nat)
    requires capacity > 0 && frames <= capacity
    ensures
      var offset, first := cursor % capacity, First(capacity, cursor, frames);
      first <= frames && offset * channels + first * channels <= capacity * channels &&
      0 <= first * channels <= frames * channels && frames * channels - first * channels <= offset * channels
  {
    var offset, first := cursor % capacity, First(capacity, cursor, frames);
    MulMonotone(offset + first, capacity, channels);
    assert (offset + first) * channels == offset * channels + first * channels;
    MulMonotone(first, frames, channels);
    MulMonotone(frames - first, offset, channels);
    assert (frames - first) * channels == frames * channels - first * channels;
  }

  // The buffer after both pieces of a block have been copied in.
  function Filled(data: seq<Sample>, capacity: u32, channels: nat, cursor: u32, frames: nat, samples: seq<Sample>)
    : (r: seq<Sample>)
    requires |data| == capacity * channels > 0 && capacity > 0 && frames <= capacity && |samples| == frames * channels
    ensures |r| == |data|
  {
    PieceBounds(capacity, channels, cursor, frames);
    var offset, first := cursor % capacity, First(capacity, cursor, frames);
    TwoPieces(data, offset * channels, samples, first * channels)
  }

  lemma FilledAt(data: seq<Sample>, capacity: u32, channels: nat, cursor: u32, frames: nat, samples: seq<Sample>, i: nat)
    requires |data| == capacity * channels > 0 && capacity > 0 && frames <= capacity && |samples| == frames * channels
    requires i < |samples|
    ensures
      var cell := Cell(capacity, channels, cursor, frames, i);
      0 <= cell < |data| && Filled(data, capacity, channels, cursor, frames, samples)[cell] == samples[i]
  {
    hide TwoPieces;
    PieceBounds(capacity, channels, cursor, frames);
    TwoPiecesAt(data, cursor % capacity * channels, samples, First(capacity, cursor, frames) * channels, i);
  }

  // A cell that changed is the cell of one of the block's samples.
  lemma FilledElsewhere(data: seq<Sample>, capacity: u32, channels: nat, cursor: u32, frames: nat, samples: seq<Sample>, c: nat)
    returns (i: nat)
    requires |data| == capacity * channels > 0 && capacity > 0 && frames <= capacity && |samples| == frames * channels
    requires c < |data| && Filled(data, capacity, channels, cursor, frames, samples)[c] != data[c]
    ensures i < |samples| && Cell(capacity, channels, cursor, frames, i) == c
  {
    PieceBounds(capacity, channels, cursor, frames);
    var offset, first := cursor % capacity, First(capacity, cursor, frames);
    if c < |samples| - first * channels {
      i := first * channels + c;
    } else {
      i := c - offset * channels;
    }
  }

  // An unread sample keeps its cell: the block goes elsewhere.
  lemma FilledKeeps(data: seq<Sample>, capacity: nat, channels: nat, written: nat, frames: nat, samples: seq<Sample>, x: nat)
    requires Sized(capacity, channels) && |data| == capacity * channels > 0 && 2 * capacity <= UINT32_MAX
    requires frames <= capacity && |samples| == frames * channels
    requires x < written * channels && written * channels + |samples| <= x + capacity * channels
    ensures
      var cell := x % (capacity * channels);
      0 <= cell < |data| && Filled(data, capacity, channels, written % (2 * capacity), frames, samples)[cell] == data[cell]
  {
    hide Filled, Cell, Sized;
    var n, cursor := |data|, written % (2 * capacity);
    DivMod(x, n);
    DivMod(written, 2 * capacity);
    if Filled(data, capacity, channels, cursor, frames, samples)[x % n] != data[x % n] {
      var i := FilledElsewhere(data, capacity, channels, cursor, frames, samples, x % n);
      CellIsModular(capacity, channels, written, frames, i);
      RemaindersDiffer(x, written * channels + i, n);
      assert false;
    }
  }

  lemma FilledAdds(data: seq<Sample>, capacity: nat, channels: nat, written: nat, frames: nat, samples: seq<Sample>, i: nat)
    requires Sized(capacity, channels) && |data| == capacity * channels > 0 && 2 * capacity <= UINT32_MAX
    requires frames <= capacity && |samples| == frames * channels && i < |samples|
    ensures
      var cell := (written * channels + i) % (capacity * channels);
      0 <= cell < |data| && Filled(data, capacity, channels, written % (2 * capacity), frames, samples)[cell] == samples[i]
  {
    hide Filled, Cell, Sized;
    DivMod(written, 2 * capacity);
    FilledAt(data, capacity, channels, written % (2 * capacity), frames, samples, i);
    CellIsModular(capacity, channels, written, frames, i);
  }

  // Filling the buffer appends the block to what is unread.
  lemma FilledUnread(data: seq<Sample>, capacity: nat, channels: nat, released: nat, written: nat, frames: nat,
                     samples: seq<Sample>)
    requires Sized(capacity, channels) && |data| == capacity * channels > 0 && 2 * capacity <= UINT32_MAX
    requires released <= written && written + frames <= released + capacity && |samples| == frames * channels
    ensures 0 <= written % (2 * capacity) < 2 * capacity
    ensures
      Unread(Filled(data, capacity, channels, written % (2 * capacity), frames, samples), capacity, channels,
             released, written + frames) ==
      Unread(data, capacity, channels, released, written) + samples
  {
    hide Filled, Sized, Unread;
    DivMod(written, 2 * capacity);
    var after := Filled(data, capacity, channels, written % (2 * capacity), frames, samples);
    var before, left := Unread(data, capacity, channels, released, written), Unread(after, capacity, channels, released, written + frames);
    Between(released, written, frames, channels);
    UnreadLength(data, capacity, channels, released, written);
    UnreadLength(after, capacity, channels, released, written + frames);
    forall k | 0 <= k < |before|
      ensures left[k] == before[k]
    {
      FilledFront(data, capacity, channels, released, written, frames, samples, k);
    }
    forall i | 0 <= i < |samples|
      ensures left[|before| + i] == samples[i]
    {
      FilledBack(data, capacity, channels, released, written, frames, samples, i);
    }
    Appended(left, before, samples);
  }

  lemma Appended(whole: seq<Sample>, front: seq<Sample>, back: seq<Sample>)
    requires |whole| == |front| + |back| && forall k :: 0 <= k < |front| ==> whole[k] == front[k]
    requires forall i :: 0 <= i < |back| ==> whole[|front| + i] == back[i]
    ensures whole == front + back
  {
    forall k | 0 <= k < |whole|
      ensures whole[k] == (front + back)[k]
    {
      assert k >= |front| ==> whole[|front| + (k - |front|)] == back[k - |front|];
    }
  }

  lemma FrontBounds(released: nat, written: nat, frames: nat, capacity: nat, channels: nat, k: nat)
    requires released <= written && written + frames <= released + capacity && k < (written - released) * channels
    ensures released * channels >= 0 && k < (written + frames - released) * channels
    ensures released * channels + k < written * channels
    ensures written * channels + frames * channels <= released * channels + k + capacity * channels
  {
    Between(released, written, frames, channels);
    FitsBehind(written, frames, released, capacity, channels);
  }

  lemma FilledFront(data: seq<Sample>, capacity: nat, channels: nat, released: nat, written: nat, frames: nat,
                    samples: seq<Sample>, k: nat)
    requires Sized(capacity, channels) && |data| == capacity * channels > 0 && 2 * capacity <= UINT32_MAX
    requires released <= written && written + frames <= released + capacity && |samples| == frames * channels
    requires k < |Unread(data, capacity, channels, released, written)| && written % (2 * capacity) >= 0
    ensures
      var after := Filled(data, capacity, channels, written % (2 * capacity), frames, samples);
      k < |Unread(after, capacity, channels, released, written + frames)| &&
      Unread(after, capacity, channels, released, written + frames)[k] == Unread(data, capacity, channels, released, written)[k]
  {
    hide Filled, Sized, Unread;
    DivMod(written, 2 * capacity);
    var after := Filled(data, capacity, channels, written % (2 * capacity), frames, samples);
    UnreadLength(data, capacity, channels, released, written);
    UnreadLength(after, capacity, channels, released, written + frames);
    FrontBounds(released, written, frames, capacity, channels, k);
    UnreadAt(data, capacity, channels, released, written, k);
    UnreadAt(after, capacity, channels, released, written + frames, k);
    FilledKeeps(data, capacity, channels, written, frames, samples, released * channels + k);
  }

  lemma FilledBack(data: seq<Sample>, capacity: nat, channels: nat, released: nat, written: nat, frames: nat,
                   samples: seq<Sample>, i: nat)
    requires Sized(capacity, channels) && |data| == capacity * channels > 0 && 2 * capacity <= UINT32_MAX
    requires released <= written && written + frames <= released + capacity && |samples| == frames * channels
    requires i < |samples| && written % (2 * capacity) >= 0
    ensures
      var after := Filled(data, capacity, channels, written % (2 * capacity), frames, samples);
      var k := |Unread(data, capacity, channels, released, written)| + i;
      k < |Unread(after, capacity, channels, released, written + frames)| &&
      Unread(after, capacity, channels, released, written + frames)[k] == samples[i]
  {
    hide Filled, Sized, Unread;
    DivMod(written, 2 * capacity);
    var after := Filled(data, capacity, channels, written % (2 * capacity), frames, samples);
    Between(released, written, frames, channels);
    UnreadLength(data, capacity, channels, released, written);
    UnreadLength(after, capacity, channels, released, written + frames);
    UnreadAt(after, capacity, channels, released, written + frames, |Unread(data, capacity, channels, released, written)| + i);
    FilledAdds(data, capacity, channels, written, frames, samples, i);
  }

  // The k-th unread sample lies k places behind the read position, around the buffer.
  lemma UnreadAt(data: seq<Sample>, capacity: nat, channels: nat, released: nat, written: nat, k: nat)
    requires |data| == capacity * channels > 0 && released <= written
    requires k < |Unread(data, capacity, channels, released, written)|
    ensures
      var cell := (released * channels + k) % (capacity * channels);
      0 <= cell < |data| && Unread(data, capacity, channels, released, written)[k] == data[cell]
  {}

  lemma UnreadLength(data: seq<Sample>, capacity: nat, channels: nat, released: nat, written: nat)
    requires |data| == capacity * channels > 0 && released <= written
    ensures |Unread(data, capacity, channels, released, written)| == (written - released) * channels
  {}

  lemma Between(released: nat, written: nat, frames: nat, channels: nat)
    requires released <= written
    ensures (written - released) * channels == written * channels - released * channels >= 0
    ensures (written + frames - released) * channels == written * channels - released * channels + frames * channels
  {
    assert (written - released) * channels == written * channels - released * channels;
    MulNonNegative(written - released, channels);
    assert (written - released + frames) * channels == (written - released) * channels + frames * channels;
  }

  // The two pieces that a take copies out.
  function Emptied(data: seq<Sample>, capacity: u32, channels: nat, cursor: u32, frames: nat): (r: seq<Sample>)
    requires |data| == capacity * channels > 0 && capacity > 0 && frames <= capacity
    ensures |r| == frames * channels
  {
    PieceBounds(capacity, channels, cursor, frames);
    var offset, first := cursor % capacity, First(capacity, cursor, frames);
    data[offset * channels..offset * channels + first * channels] + data[..frames * channels - first * channels]
  }

  lemma EmptiedAt(data: seq<Sample>, capacity: u32, channels: nat, cursor: u32, frames: nat, i: nat)
    requires |data| == capacity * channels > 0 && capacity > 0 && frames <= capacity && i < frames * channels
    ensures
      var cell := Cell(capacity, channels, cursor, frames, i);
      0 <= cell < |data| && Emptied(data, capacity, channels, cursor, frames)[i] == data[cell]
  {
    PieceBounds(capacity, channels, cursor, frames);
  }

  // What is copied out is the front of what is unread, and the rest stays.
  lemma EmptiedUnread(data: seq<Sample>, capacity: nat, channels: nat, released: nat, written: nat, frames: nat)
    requires Sized(capacity, channels) && |data| == capacity * channels > 0 && 2 * capacity <= UINT32_MAX
    requires released + frames <= written <= released + capacity
    ensures 0 <= released % (2 * capacity) < 2 * capacity
    ensures
      Unread(data, capacity, channels, released, written) ==
      Emptied(data, capacity, channels, released % (2 * capacity), frames) +
      Unread(data, capacity, channels, released + frames, written)
  {
    hide Emptied, Sized, Unread;
    DivMod(released, 2 * capacity);
    var unread := Unread(data, capacity, channels, released, written);
    var rest := Unread(data, capacity, channels, released + frames, written);
    var out := Emptied(data, capacity, channels, released % (2 * capacity), frames);
    EmptiedLength(data, capacity, channels, released % (2 * capacity), frames);
    Between(released, released + frames, written - released - frames, channels);
    UnreadLength(data, capacity, channels, released, written);
    UnreadLength(data, capacity, channels, released + frames, written);
    forall k | 0 <= k < |out|
      ensures unread[k] == out[k]
    {
      EmptiedFront(data, capacity, channels, released, written, frames, k);
    }
    forall i | 0 <= i < |rest|
      ensures unread[|out| + i] == rest[i]
    {
      EmptiedBack(data, capacity, channels, released, written, frames, i);
    }
    Appended(unread, out, rest);
  }

  lemma EmptiedLength(data: seq<Sample>, capacity: u32, channels: nat, cursor: u32, frames: nat)
    requires |data| == capacity * channels > 0 && capacity > 0 && frames <= capacity
    ensures |Emptied(data, capacity, channels, cursor, frames)| == frames * channels
  {}

  lemma EmptiedFront(data: seq<Sample>, capacity: nat, channels: nat, released: nat, written: nat, frames: nat, k: nat)
    requires Sized(capacity, channels) && |data| == capacity * channels > 0 && 2 * capacity <= UINT32_MAX
    requires released + frames <= written <= released + capacity && k < frames * channels && released % (2 * capacity) >= 0
    requires k < |Unread(data, capacity, channels, released, written)|
    ensures
      var out := Emptied(data, capacity, channels, released % (2 * capacity), frames);
      k < |out| && Unread(data, capacity, channels, released, written)[k] == out[k]
  {
    hide Emptied, Sized, Unread, Cell;
    DivMod(released, 2 * capacity);
    EmptiedLength(data, capacity, channels, released % (2 * capacity), frames);
    UnreadAt(data, capacity, channels, released, written, k);
    EmptiedAt(data, capacity, channels, released % (2 * capacity), frames, k);
    CellIsModular(capacity, channels, released, frames, k);
  }

  lemma EmptiedBack(data: seq<Sample>, capacity: nat, channels: nat, released: nat, written: nat, frames: nat, i: nat)
    requires |data| == capacity * channels > 0 && released + frames <= written
    requires i < |Unread(data, capacity, channels, released + frames, written)|
    ensures
      var k := frames * channels + i;
      0 <= k < |Unread(data, capacity, channels, released, written)| &&
      Unread(data, capacity, channels, released, written)[k] == Unread(data, capacity, channels, released + frames, written)[i]
  {
    hide Unread;
    Between(released, released + frames, written - released - frames, channels);
    NextFrames(released, frames, channels);
    UnreadLength(data, capacity, channels, released, written);
    UnreadLength(data, capacity, channels, released + frames, written);
    UnreadAt(data, capacity, channels, released, written, frames * channels + i);
    UnreadAt(data, capacity, channels, released + frames, written, i);
  }

  lemma NextFrames(released: nat, frames: nat, channels: nat)
    ensures (released + frames) * channels == released * channels + frames * channels
    ensures frames * channels >= 0
  {}

  // ---------- The object ----------

  method CopySamples(target: array<Sample>, at: nat, source: seq<Sample>)
    requires at + |source| <= target.Length
    modifies target
    ensures target[..] == Splice(old(target[..]), at, source)
  {
    for i := 0 to |source|
      invariant target[..] == Splice(old(target[..]), at, source[..i])
    {
      target[at + i] := source[i];
    }
  }

  class ARAudioRing {
    const data: array<Sample>
    const capacityFrames: u32
    const channels: u32
    const frameSamples: u32
    var readCursor: u32
    var writeCursor: u32
    var closed: bool
    ghost var written: nat
    ghost var released: nat

    ghost predicate Valid()
      reads this
    {
      Sized(capacityFrames, channels) && 2 * capacityFrames <= UINT32_MAX && capacityFrames * channels > 0 &&
      data.Length == capacityFrames * channels && released <= written <= released + capacityFrames &&
      readCursor == released % (2 * capacityFrames) && writeCursor == written % (2 * capacityFrames)
    }

    ghost function Contents(): seq<Sample>
      requires Valid()
      reads this, data
    {
      Unread(data[..], capacityFrames, channels, released, written)
    }

    constructor (capacity: nat, channels: u32, frameSize: u32)
      requires InitAccepts(capacity, channels, frameSize)
      ensures Valid() && fresh(data) && Contents() == [] && !closed
      ensures capacityFrames == capacity && this.channels == channels && frameSamples == frameSize * channels
    {
      AcceptedIsSized(capacity, channels, frameSize);
      SizedBounds(capacity, channels);
      MulAtLeast(channels, capacity);
      MulMonotone(frameSize, capacity, channels);
      this.data := new Sample[capacity * channels](_ => 0.0);
      this.capacityFrames := capacity;
      this.channels := channels;
      this.frameSamples := frameSize * channels;
      this.readCursor, this.writeCursor := 0, 0;
      this.closed := false;
      this.written, this.released := 0, 0;
    }

    method Close()
      requires Valid()
      modifies this`closed
      ensures closed && Valid() && Contents() == old(Contents())
    {
      closed := true;
    }

    // The whole block is appended, or nothing changes.
    method Push(samples: seq<Sample>) returns (status: int)
      requires Valid()
      modifies this`writeCursor, this`written, data
      ensures Valid()
      ensures closed || samples == [] || |samples| % channels != 0 ==> status == REFUSED
      ensures !closed && samples != [] && |samples| % channels == 0 ==>
        status == if |old(Contents())| + |samples| > data.Length then NO_SPACE else OK
      ensures Contents() == if status == OK then old(Contents()) + samples else old(Contents())
    {
      hide Unread, Filled, Sized, Splice, Distance, NextCursor;
      if closed {
        return REFUSED;
      }
      if samples == [] || |samples| % channels != 0 {
        return REFUSED;
      }
      var frames := |samples| / channels;
      ghost var before := data[..];
      PushFacts(released, written, |samples|);
      UnreadLength(before, capacityFrames, channels, released, written);
      var used := Distance(capacityFrames, writeCursor, readCursor);
      if frames > capacityFrames - used {
        return NO_SPACE;
      }
      CursorsCount(capacityFrames, channels, released, written, frames);
      FilledUnread(before, capacityFrames, channels, released, written, frames, samples);
      PieceBounds(capacityFrames, channels, writeCursor, frames);
      var offset := writeCursor % capacityFrames;
      var first := First(capacityFrames, writeCursor, frames);
      CopySamples(data, offset * channels, samples[..first * channels]);
      CopySamples(data, 0, samples[first * channels..]);
      assert data[..] == Filled(before, capacityFrames, channels, writeCursor, frames, samples) by {
        FilledIs(before, capacityFrames, channels, writeCursor, frames, samples);
      }
      writeCursor := NextCursor(capacityFrames, writeCursor, frames);
      written := written + frames;
      return OK;
    }

    // The front of the contents goes to the front of out. Without partial, all that was asked for or nothing.
    method Take(out: array<Sample>, count: nat, partial: bool) returns (status: int, copied: nat)
      requires Valid() && out != data && count <= out.Length
      modifies this`readCursor, this`released, out
      ensures Valid()
      ensures closed || count == 0 || count % channels != 0 || count > data.Length ==> status == REFUSED && copied == 0
      ensures !closed && count != 0 && count % channels == 0 && count <= data.Length ==>
        if |old(Contents())| < count && !partial then status == NO_SPACE && copied == 0
        else status == OK && copied == if |old(Contents())| < count then |old(Contents())| else count
      ensures old(Contents()) == out[..copied] + Contents() && out[copied..] == old(out[copied..])
    {
      hide Unread, Sized, Distance, NextCursor;
      WholeFrames(count);
      if count == 0 || count % channels != 0 || count / channels > capacityFrames {
        assert out[..0] + Contents() == Contents();
        return REFUSED, 0;
      }
      status, copied := TakeFrames(out, count / channels, count, partial);
    }

    lemma WholeFrames(count: nat)
      requires Valid()
      ensures channels > 0
      ensures count % channels == 0 ==>
        count == count / channels * channels && (count / channels == 0 <==> count == 0) &&
        (count / channels > capacityFrames <==> count > data.Length)
    {
      hide Unread, Distance, NextCursor;
      DivMod(count, channels);
      SumFits(0, count / channels, capacityFrames, channels);
    }

    // A take of whole frames that the buffer could hold.
    method TakeFrames(out: array<Sample>, frames: nat, count: nat, partial: bool) returns (status: int, copied: nat)
      requires Valid() && out != data && count <= out.Length && count == frames * channels && 0 < frames <= capacityFrames
      modifies this`readCursor, this`released, out
      ensures Valid()
      ensures
        if closed then status == REFUSED && copied == 0
        else if |old(Contents())| < count && !partial then status == NO_SPACE && copied == 0
        else status == OK && copied == if |old(Contents())| < count then |old(Contents())| else count
      ensures old(Contents()) == out[..copied] + Contents() && out[copied..] == old(out[copied..])
    {
      hide Unread, Sized, Distance, NextCursor;
      ghost var memory := data[..];
      UnreadLength(memory, capacityFrames, channels, released, written);
      PushFacts(released, written, count);
      assert out[..0] + Contents() == Contents();
      if closed {
        return REFUSED, 0;
      }
      var available := Distance(capacityFrames, writeCursor, readCursor);
      var taken := frames;
      SameOrder(frames, available, channels);
      MulNonNegative(available, channels);
      if available < frames {
        if !partial {
          return NO_SPACE, 0;
        }
        taken := available;
      }
      if taken != 0 {
        TakePieces(out, taken);
        readCursor := NextCursor(capacityFrames, readCursor, taken);
        released := released + taken;
      }
      copied := taken * channels;
      return OK, copied;
    }

    // Both copies of a take. The frames are there, and out has room for them.
    method TakePieces(out: array<Sample>, frames: nat)
      requires Valid() && out != data && released + frames <= written && frames * channels <= out.Length
      modifies out
      ensures
        0 <= frames * channels <= out.Length &&
        NextCursor(capacityFrames, readCursor, frames) == (released + frames) % (2 * capacityFrames) &&
        Contents() == out[..frames * channels] + Unread(data[..], capacityFrames, channels, released + frames, written)
      ensures out[frames * channels..] == old(out[frames * channels..])
    {
      hide Unread, Emptied, Sized, Distance, NextCursor;
      CursorsCount(capacityFrames, channels, released, released, frames);
      EmptiedUnread(data[..], capacityFrames, channels, released, written, frames);
      PieceBounds(capacityFrames, channels, readCursor, frames);
      var offset := readCursor % capacityFrames;
      var first := First(capacityFrames, readCursor, frames);
      CopySamples(out, 0, data[offset * channels..offset * channels + first * channels]);
      CopySamples(out, first * channels, data[..frames * channels - first * channels]);
      assert out[..frames * channels] == Emptied(data[..], capacityFrames, channels, readCursor, frames) by {
        EmptiedIs(data[..], capacityFrames, channels, readCursor, frames);
      }
    }

    // How the wrapped cursors and the frame count of a block stand to the contents.
    lemma PushFacts(released: nat, written: nat, count: nat)
      requires Sized(capacityFrames, channels) && data.Length == capacityFrames * channels > 0
      requires 2 * capacityFrames <= UINT32_MAX && released <= written <= released + capacityFrames
      ensures capacityFrames > 0 && channels > 0
      ensures 0 <= written % (2 * capacityFrames) < 2 * capacityFrames && 0 <= released % (2 * capacityFrames) < 2 * capacityFrames
      ensures Distance(capacityFrames, written % (2 * capacityFrames), released % (2 * capacityFrames)) == written - released
      ensures count % channels == 0 ==>
        count == count / channels * channels &&
        (count / channels > capacityFrames - (written - released) <==>
         (written - released) * channels + count > data.Length)
    {
      hide Distance, NextCursor;
      CursorsCount(capacityFrames, channels, released, written, 0);
      DivMod(count, channels);
      SumFits(written - released, count / channels, capacityFrames, channels);
    }
  }

  lemma EmptiedIs(data: seq<Sample>, capacity: u32, channels: nat, cursor: u32, frames: nat)
    requires |data| == capacity * channels > 0 && capacity > 0 && frames <= capacity
    ensures
      var offset, first := cursor % capacity, First(capacity, cursor, frames);
      0 <= offset * channels && 0 <= first * channels <= frames * channels && offset * channels + first * channels <= |data| &&
      frames * channels - first * channels <= |data| &&
      Emptied(data, capacity, channels, cursor, frames) ==
      data[offset * channels..offset * channels + first * channels] + data[..frames * channels - first * channels]
  {
    PieceBounds(capacity, channels, cursor, frames);
  }

  lemma FilledIs(data: seq<Sample>, capacity: u32, channels: nat, cursor: u32, frames: nat, samples: seq<Sample>)
    requires |data| == capacity * channels > 0 && capacity > 0 && frames <= capacity && |samples| == frames * channels
    ensures
      var offset, first := cursor % capacity, First(capacity, cursor, frames);
      0 <= first * channels <= |samples| && 0 <= offset * channels && offset * channels + first * channels <= |data| &&
      |samples| - first * channels <= |data| &&
      Filled(data, capacity, channels, cursor, frames, samples) ==
      Splice(Splice(data, offset * channels, samples[..first * channels]), 0, samples[first * channels..])
  {
    PieceBounds(capacity, channels, cursor, frames);
  }
}
