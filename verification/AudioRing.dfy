/** The single-producer, single-consumer ring of audio samples. Every load, store and single-sample copy of one push and one
    take is a step of its own, so each side works with a snapshot of the other's cursor that may be out of date. */
module AudioRing {

  import opened Protocol
  import opened Modular

  // Samples are copied and never computed with.
  type Sample = real

  // ---------- Cursor arithmetic in 32 bits ----------

  const UINT32_MAX: nat := 0xFFFF_FFFF
  const FLOAT_SIZE: nat := 4

  predicate InitAccepts(capacity: nat, channels: u32, frameSize: u32) {
    !(channels == 0 || channels > 8 || frameSize == 0 || capacity < frameSize ||
      capacity > UINT32_MAX / FLOAT_SIZE / channels)
  }

  function Doubled(capacity: u32): u32 {
    Wrap32(capacity * 2)
  }

  function Distance(capacity: u32, write: u32, read: u32): u32 {
    if write >= read then write - read else Wrap32(Wrap32(write + Doubled(capacity)) - read)
  }

  function NextCursor(capacity: u32, cursor: u32, frames: nat): u32
    requires Doubled(capacity) != 0
  {
    Wrap32(cursor + frames) % Doubled(capacity)
  }

  // Where the i-th of the samples of a run of frames lies: up to the end of the buffer first, the rest from its beginning.
  function Cell(capacity: nat, channels: nat, cursor: u32, frames: nat, i: nat): int
    requires capacity > 0
  {
    var offset := cursor % capacity;
    var first := if capacity - offset > frames then frames else capacity - offset;
    if i < first * channels then offset * channels + i else i - first * channels
  }

  // A capacity and channel count that initialisation accepts.
  ghost predicate Sized(capacity: nat, channels: nat) {
    capacity > 0 && channels > 0 && 4 * capacity * channels <= UINT32_MAX
  }

  lemma AcceptedIsSized(capacity: nat, channels: u32, frameSize: u32)
    requires InitAccepts(capacity, channels, frameSize)
    ensures Sized(capacity, channels)
  {
    var n := UINT32_MAX / FLOAT_SIZE;
    MulMonotone(capacity, n / channels, channels);
    assert n / channels * channels <= n;
    assert 4 * capacity * channels == 4 * (capacity * channels);
  }

  lemma SizedBounds(capacity: nat, channels: nat)
    requires Sized(capacity, channels)
    ensures 4 * capacity <= 4 * capacity * channels <= UINT32_MAX
    ensures capacity <= capacity * channels
  {
    MulAtLeast(channels, capacity);
    assert capacity * channels == channels * capacity;
    assert 4 * capacity * channels == 4 * (capacity * channels);
  }

  // For every accepted capacity, power of two or not, nothing overflows, the distance of the wrapped cursors is the number of
  // frames in between, and the cursor arithmetic is the counting of frames.
  lemma CursorsCount(capacity: nat, channels: nat, released: nat, written: nat, frames: nat)
    requires Sized(capacity, channels) && released <= written <= released + capacity && frames <= capacity
    ensures Doubled(capacity) == 2 * capacity
    ensures 0 <= written % (2 * capacity) < 2 * capacity && 0 <= released % (2 * capacity) < 2 * capacity
    ensures Distance(capacity, written % (2 * capacity), released % (2 * capacity)) == written - released
    ensures NextCursor(capacity, written % (2 * capacity), frames) == (written + frames) % (2 * capacity)
  {
    SizedBounds(capacity, channels);
    DistanceCounts(capacity, released, written);
    NextCounts(capacity, written, frames);
  }

  // Every 32-bit expression of a push or a take stays in range: both cursor sums, and the occupancy in samples after a push.
  lemma NothingOverflows(capacity: nat, channels: nat, released: nat, written: nat, frames: nat)
    requires Sized(capacity, channels) && released <= written && written - released + frames <= capacity
    ensures written % (2 * capacity) + Doubled(capacity) <= UINT32_MAX
    ensures written % (2 * capacity) + frames <= UINT32_MAX && released % (2 * capacity) + frames <= UINT32_MAX
    ensures (written - released + frames) * channels <= capacity * channels <= UINT32_MAX / FLOAT_SIZE
  {
    SizedBounds(capacity, channels);
    SmallWrap32(capacity * 2);
    DivMod(written, 2 * capacity);
    DivMod(released, 2 * capacity);
    MulMonotone(written - released + frames, capacity, channels);
    InSamples(capacity, channels);
  }

  lemma InSamples(capacity: nat, channels: nat)
    requires 4 * capacity * channels <= UINT32_MAX
    ensures capacity * channels <= UINT32_MAX / FLOAT_SIZE
  {
    assert 4 * capacity * channels == 4 * (capacity * channels);
  }

  lemma SmallWrap32(x: int)
    requires 0 <= x <= UINT32_MAX
    ensures Wrap32(x) == x
  {}

  lemma DistanceOf(capacity: nat, w: u32, r: u32)
    requires 4 * capacity <= UINT32_MAX && w < 2 * capacity && r < 2 * capacity
    ensures Distance(capacity, w, r) == if w >= r then w - r else w + 2 * capacity - r
  {
    hide Wrap32;
    SmallWrap32(capacity * 2);
    if w < r {
      SmallWrap32(w + 2 * capacity);
      SmallWrap32(w + 2 * capacity - r);
    }
  }

  lemma DistanceCounts(capacity: nat, released: nat, written: nat)
    requires 0 < 4 * capacity <= UINT32_MAX && released <= written <= released + capacity
    ensures 0 <= written % (2 * capacity) < 2 * capacity && 0 <= released % (2 * capacity) < 2 * capacity
    ensures Distance(capacity, written % (2 * capacity), released % (2 * capacity)) == written - released
  {
    hide Distance;
    var n := 2 * capacity;
    DivMod(written, n);
    DivMod(released, n);
    DistanceOf(capacity, written % n, released % n);
    LapsApart(n, released / n, released % n, written / n, written % n);
  }

  lemma NextOf(capacity: nat, cursor: u32, frames: nat)
    requires 0 < 4 * capacity <= UINT32_MAX && cursor < 2 * capacity && frames <= capacity
    ensures Doubled(capacity) == 2 * capacity
    ensures NextCursor(capacity, cursor, frames) == (cursor + frames) % (2 * capacity)
  {
    hide Wrap32;
    SmallWrap32(capacity * 2);
    SmallWrap32(cursor + frames);
  }

  lemma NextCounts(capacity: nat, count: nat, frames: nat)
    requires 0 < 4 * capacity <= UINT32_MAX && frames <= capacity
    ensures Doubled(capacity) == 2 * capacity && 0 <= count % (2 * capacity) < 2 * capacity
    ensures NextCursor(capacity, count % (2 * capacity), frames) == (count + frames) % (2 * capacity)
  {
    hide NextCursor, Doubled;
    DivMod(count, 2 * capacity);
    NextOf(capacity, count % (2 * capacity), frames);
    AddRemainder(count, frames, 2 * capacity);
  }

  // The two copied pieces are one run of samples around the buffer.
  lemma CellIsModular(capacity: nat, channels: nat, count: nat, frames: nat, i: nat)
    requires Sized(capacity, channels) && frames <= capacity && i < frames * channels
    ensures 2 * capacity <= UINT32_MAX && capacity * channels > 0 && channels <= UINT32_MAX
    ensures Cell(capacity, channels, count % (2 * capacity), frames, i) == (count * channels + i) % (capacity * channels)
  {
    hide Cell;
    SizedBounds(capacity, channels);
    MulAtLeast(capacity, channels);
    DivMod(count, 2 * capacity);
    RemainderOfRemainder(count, capacity);
    CellOfCursor(capacity, channels, count, count % (2 * capacity), frames, i);
  }

  lemma CellOfCursor(capacity: nat, channels: nat, count: nat, cursor: u32, frames: nat, i: nat)
    requires capacity > 0 && channels > 0 && capacity * channels > 0 && frames <= capacity && i < frames * channels
    requires cursor % capacity == count % capacity
    ensures Cell(capacity, channels, cursor, frames, i) == (count * channels + i) % (capacity * channels)
  {
    hide Cell;
    var lap, offset := Divided(count, capacity);
    CellByOffset(capacity, channels, cursor, offset, frames, i);
    CellOnLap(capacity, channels, count, lap, offset, frames, i);
  }

  lemma CellByOffset(capacity: nat, channels: nat, cursor: u32, offset: nat, frames: nat, i: nat)
    requires capacity > 0 && cursor % capacity == offset
    ensures
      var first := if capacity - offset > frames then frames else capacity - offset;
      Cell(capacity, channels, cursor, frames, i) == if i < first * channels then offset * channels + i else i - first * channels
  {}

  lemma CellOnLap(capacity: nat, channels: nat, count: nat, lap: nat, offset: nat, frames: nat, i: nat)
    requires offset < capacity && frames <= capacity && i < frames * channels && count == lap * capacity + offset
    ensures
      var first := if capacity - offset > frames then frames else capacity - offset;
      (count * channels + i) % (capacity * channels) ==
      if i < first * channels then offset * channels + i else i - first * channels
  {
    var size := capacity * channels;
    var first := if capacity - offset > frames then frames else capacity - offset;
    Distribute(lap, capacity, offset, channels);
    MulMonotone(first, capacity - offset, channels);
    assert (capacity - offset) * channels == size - offset * channels;
    MulNonNegative(offset, channels);
    if i < first * channels {
      RemainderIs(count * channels + i, size, lap, offset * channels + i);
    } else {
      MulMonotone(frames, capacity, channels);
      MulMonotone(offset, capacity, channels);
      NextLap(lap, size);
      RemainderIs(count * channels + i, size, lap + 1, i - first * channels);
    }
  }

  lemma NextLap(lap: nat, size: nat)
    ensures (lap + 1) * size == lap * size + size
  {}

  lemma Distribute(lap: nat, capacity: nat, offset: nat, channels: nat)
    ensures (lap * capacity + offset) * channels == lap * (capacity * channels) + offset * channels
  {
    assert lap * capacity * channels == lap * (capacity * channels);
  }
}
