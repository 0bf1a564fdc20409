/** The list of exposed edge segments as an index: offsets into it name edge pixels, and edge pixels read back as offsets. */
module EdgeIndex {

  import opened Wrappers
  import opened Geometry

  // ---------- The length of the list is the number of exposed pixels ----------

  function Total(segments: seq<EdgeSegment>): int {
    if segments == [] then 0 else segments[0].Length() + Total(segments[1..])
  }

  ghost function SegmentPixels(s: EdgeSegment): set<(int, int)> {
    set c | s.start <= c < s.end :: (s.boundary, c)
  }

  ghost function Pixels(segments: seq<EdgeSegment>): set<(int, int)> {
    if segments == [] then {} else SegmentPixels(segments[0]) + Pixels(segments[1..])
  }

  lemma {:induction false} SegmentSize(s: EdgeSegment)
    requires s.start <= s.end
    ensures |SegmentPixels(s)| == s.Length()
    decreases s.end - s.start
  {
    if s.start == s.end {
      assert SegmentPixels(s) == {};
    } else {
      var shorter := EdgeSegment(s.start, s.end - 1, s.boundary);
      SegmentSize(shorter);
      assert SegmentPixels(s) == SegmentPixels(shorter) + {(s.boundary, s.end - 1)};
    }
  }

  lemma TimesFront(segments: seq<EdgeSegment>, b: int, c: int)
    requires segments != []
    ensures Times(segments, b, c) == (if segments[0].Holds(b, c) then 1 else 0) + Times(segments[1..], b, c)
  {
    assert segments == [segments[0]] + segments[1..];
    TimesConcat([segments[0]], segments[1..], b, c);
  }

  lemma {:induction false} PixelsAreListed(segments: seq<EdgeSegment>, b: int, c: int)
    ensures (b, c) in Pixels(segments) <==> Times(segments, b, c) > 0
  {
    if segments != [] {
      PixelsAreListed(segments[1..], b, c);
      TimesFront(segments, b, c);
    }
  }

  // Nothing is listed twice.
  ghost predicate Distinct(segments: seq<EdgeSegment>) {
    forall b, c :: Times(segments, b, c) <= 1
  }

  lemma DistinctRest(segments: seq<EdgeSegment>)
    requires Distinct(segments) && segments != []
    ensures Distinct(segments[1..])
    ensures forall b, c :: segments[0].Holds(b, c) ==> Times(segments[1..], b, c) == 0
  {
    forall b, c
      ensures Times(segments[1..], b, c) + (if segments[0].Holds(b, c) then 1 else 0) <= 1
    {
      TimesFront(segments, b, c);
    }
  }

  lemma {:induction false} TotalIsCount(segments: seq<EdgeSegment>)
    requires Proper(segments) && Distinct(segments)
    ensures |Pixels(segments)| == Total(segments) >= 0
  {
    if segments != [] {
      var first, rest := segments[0], segments[1..];
      DistinctRest(segments);
      TotalIsCount(rest);
      SegmentSize(first);
      forall p | p in SegmentPixels(first)
        ensures p !in Pixels(rest)
      {
        PixelsAreListed(rest, p.0, p.1);
        assert first.Holds(p.0, p.1);
      }
      assert SegmentPixels(first) !! Pixels(rest);
    }
  }

  lemma OuterIsDistinct(displays: seq<DisplayRect>, edge: ScreenEdge)
    requires Apart(displays)
    ensures Distinct(OuterEdgeSegments(displays, edge)) && Proper(OuterEdgeSegments(displays, edge))
  {
    hide OuterEdgeSegments, Times, Apart, OnEdge;
    SweepIsExact(displays, edge, 0, 0);
    forall b, c
      ensures Times(OuterEdgeSegments(displays, edge), b, c) <= 1
    {
      ListedIsOnEdge(displays, edge, b, c);
    }
  }

  // The denominator of every edge position is the number of exposed pixels of the edge.
  lemma TotalCountsExposedPixels(displays: seq<DisplayRect>, edge: ScreenEdge)
    requires Apart(displays)
    ensures
      var pixels := Pixels(OuterEdgeSegments(displays, edge));
      Total(OuterEdgeSegments(displays, edge)) == |pixels| &&
      forall b, c :: (b, c) in pixels <==> OnEdge(displays, edge, b, c)
  {
    hide OuterEdgeSegments, Times, Apart, OnEdge, Pixels;
    OuterIsDistinct(displays, edge);
    TotalIsCount(OuterEdgeSegments(displays, edge));
    forall b, c
      ensures (b, c) in Pixels(OuterEdgeSegments(displays, edge)) <==> OnEdge(displays, edge, b, c)
    {
      ListedIsOnEdge(displays, edge, b, c);
      PixelsAreListed(OuterEdgeSegments(displays, edge), b, c);
    }
  }

  // ---------- The list as an index ----------

  // The segment in which offset t falls and what is left of t; last is kept when t runs past the end.
  function Located(segments: seq<EdgeSegment>, t: int, last: EdgeSegment): (EdgeSegment, int) {
    if segments == [] then (last, t)
    else if t < segments[0].Length() then (segments[0], t)
    else Located(segments[1..], t - segments[0].Length(), last)
  }

  // The offset of coordinate c in the first segment that holds it and whose boundary fits; 0 if there is none.
  function Reading(segments: seq<EdgeSegment>, c: int, fits: int -> bool, offset: int): int {
    if segments == [] then 0
    else if segments[0].start <= c < segments[0].end && fits(segments[0].boundary) then offset + c - segments[0].start
    else Reading(segments[1..], c, fits, offset + segments[0].Length())
  }

  function Exactly(b: int): int -> bool {
    x => x == b
  }

  // Every offset falls in a listed segment, and reading that place back gives the offset.
  lemma {:induction false} LocatedReadsBack(segments: seq<EdgeSegment>, t: int, last: EdgeSegment, offset: int)
    requires Proper(segments) && Distinct(segments) && 0 <= t < Total(segments)
    ensures
      var (s, left) := Located(segments, t, last);
      0 <= left < s.Length() && Times(segments, s.boundary, s.start + left) > 0 &&
      Reading(segments, s.start + left, Exactly(s.boundary), offset) == offset + t
  {
    hide Distinct, Times;
    var first, rest := segments[0], segments[1..];
    DistinctRest(segments);
    if t < first.Length() {
      TimesFront(segments, first.boundary, first.start + t);
    } else {
      LocatedReadsBack(rest, t - first.Length(), last, offset + first.Length());
      var (s, left) := Located(segments, t, last);
      TimesFront(segments, s.boundary, s.start + left);
      assert !first.Holds(s.boundary, s.start + left);
    }
  }

  // Every listed place reads as an offset in range, and that offset falls on the place again.
  lemma {:induction false} ReadingIsLocated(segments: seq<EdgeSegment>, b: int, c: int, last: EdgeSegment, offset: int)
    requires Proper(segments) && Times(segments, b, c) > 0
    ensures
      var t := Reading(segments, c, Exactly(b), offset) - offset;
      0 <= t < Total(segments) &&
      var (s, left) := Located(segments, t, last);
      s.boundary == b && s.start + left == c && 0 <= left < s.Length()
  {
    hide Times;
    NothingListed(b, c);
    var first, rest := segments[0], segments[1..];
    TimesFront(segments, b, c);
    TotalNat(rest);
    if !first.Holds(b, c) {
      ReadingIsLocated(rest, b, c, last, offset + first.Length());
    }
  }

  lemma {:induction false} TotalNat(segments: seq<EdgeSegment>)
    requires Proper(segments)
    ensures Total(segments) >= 0
  {
    if segments != [] {
      TotalNat(segments[1..]);
    }
  }

  // At the very end the walk has nothing left: it stands on the first pixel of the last segment, not on its last one.
  lemma {:induction false} EndFallsOnLastStart(segments: seq<EdgeSegment>, last: EdgeSegment)
    requires Proper(segments)
    ensures Located(segments, Total(segments), last) == (last, 0)
  {
    if segments != [] {
      TotalNat(segments[1..]);
      EndFallsOnLastStart(segments[1..], last);
    }
  }

  // Only the segments that hold the coordinate matter for what fits.
  lemma {:induction false} ReadingAgrees(segments: seq<EdgeSegment>, c: int, f: int -> bool, g: int -> bool, offset: int)
    requires forall i :: 0 <= i < |segments| && segments[i].start <= c < segments[i].end ==>
      f(segments[i].boundary) == g(segments[i].boundary)
    ensures Reading(segments, c, f, offset) == Reading(segments, c, g, offset)
  {
    if segments != [] {
      ReadingAgrees(segments[1..], c, f, g, offset + segments[0].Length());
    }
  }

  function LastSegment(segments: seq<EdgeSegment>): EdgeSegment {
    if segments == [] then EdgeSegment(0, 1, 0) else segments[|segments| - 1]
  }

  // The point inset pixels inside the edge at offset target.
  function PointAt(displays: seq<DisplayRect>, edge: ScreenEdge, target: int, inset: int): Point {
    var segments := OuterEdgeSegments(displays, edge);
    var (s, left) := Located(segments, target, LastSegment(segments));
    Pixel(edge, if edge.Near() then s.boundary + inset else s.boundary - inset - 1,
          s.start + Min(left, Max(s.Length() - 1, 0)))
  }

  // The boundary of the first display that contains the point.
  function HomeBoundary(displays: seq<DisplayRect>, edge: ScreenEdge, p: Point): Option<int> {
    if displays == [] then None
    else if displays[0].Contains(p) then Some(displays[0].Boundary(edge))
    else HomeBoundary(displays[1..], edge, p)
  }

  function AtHome(displays: seq<DisplayRect>, edge: ScreenEdge, p: Point): int -> bool {
    var home := HomeBoundary(displays, edge, p);
    b => Some(b) == home
  }

  function EdgeOffset(displays: seq<DisplayRect>, edge: ScreenEdge, p: Point): int {
    Reading(OuterEdgeSegments(displays, edge), p.Along(edge), AtHome(displays, edge, p), 0)
  }

  lemma {:induction false} HomeIs(displays: seq<DisplayRect>, edge: ScreenEdge, p: Point, k: nat)
    requires k < |displays| && displays[k].Contains(p)
    requires forall i :: 0 <= i < k ==> !displays[i].Contains(p)
    ensures HomeBoundary(displays, edge, p) == Some(displays[k].Boundary(edge))
  {
    if k > 0 {
      HomeIs(displays[1..], edge, p, k - 1);
    }
  }

  // The inset leaves the point on the screen.
  ghost predicate Fits(displays: seq<DisplayRect>, edge: ScreenEdge, inset: int) {
    0 <= inset && forall i :: 0 <= i < |displays| ==> inset < displays[i].AcrossHigh(edge) - displays[i].AcrossLow(edge)
  }

  lemma InsetPixel(d: DisplayRect, edge: ScreenEdge, c: int, inset: int)
    requires d.Spans(edge, c) && 0 <= inset < d.AcrossHigh(edge) - d.AcrossLow(edge)
    ensures
      var b := d.Boundary(edge);
      var p := Pixel(edge, if edge.Near() then b + inset else b - inset - 1, c);
      d.Contains(p) && p.Along(edge) == c
  {}

  // A point inset from a listed pixel is on a display that has this boundary, and on no other.
  lemma InsetPointIsHome(displays: seq<DisplayRect>, edge: ScreenEdge, b: int, c: int, inset: int)
    requires Apart(displays) && Fits(displays, edge, inset) && OnEdge(displays, edge, b, c)
    ensures
      var p := Pixel(edge, if edge.Near() then b + inset else b - inset - 1, c);
      p.Along(edge) == c && HomeBoundary(displays, edge, p) == Some(b)
  {
    hide DisplayRect.Boundary, DisplayRect.Spans, DisplayRect.Contains, HomeBoundary;
    var k: nat :| k < |displays| && displays[k].Boundary(edge) == b && displays[k].Spans(edge, c);
    InsetPixel(displays[k], edge, c, inset);
    HomeIs(displays, edge, Pixel(edge, if edge.Near() then b + inset else b - inset - 1, c), k);
  }

  // Walking offset t down the list and reading the resulting point back gives t, for every inset that stays on the displays.
  // At t equal to the total, which a position of 1.0 scales to, it does not.
  lemma OffsetRoundTrip(displays: seq<DisplayRect>, edge: ScreenEdge, t: int, inset: int)
    requires Apart(displays) && Fits(displays, edge, inset)
    requires displays != [] && 0 <= t <= Total(OuterEdgeSegments(displays, edge))
    ensures EdgeOffset(displays, edge, PointAt(displays, edge, t, inset)) == t <==> t < Total(OuterEdgeSegments(displays, edge))
  {
    hide OuterEdgeSegments, Apart, OnEdge, Fits, HomeBoundary, Times, Located, Reading, Total;
    var segments := OuterEdgeSegments(displays, edge);
    var last := LastSegment(segments);
    SizedDisplays(displays);
    EdgeExists(displays, edge);
    OuterIsDistinct(displays, edge);
    if t < Total(segments) {
      LocatedReadsBack(segments, t, last, 0);
      var (s, left) := Located(segments, t, last);
      ReadsAs(displays, edge, s, left, t, inset);
    } else {
      EndFallsOnLastStart(segments, last);
      LastReading(segments);
      ReadsAs(displays, edge, last, 0, Total(segments) - last.Length(), inset);
    }
  }

  lemma SizedDisplays(displays: seq<DisplayRect>)
    requires Apart(displays)
    ensures forall i :: 0 <= i < |displays| ==> displays[i].Sized()
  {}

  // A point made from a listed place reads as that place's offset.
  lemma ReadsAs(displays: seq<DisplayRect>, edge: ScreenEdge, s: EdgeSegment, left: int, t: int, inset: int)
    requires Apart(displays) && Fits(displays, edge, inset) && 0 <= left < s.Length()
    requires Times(OuterEdgeSegments(displays, edge), s.boundary, s.start + left) > 0
    requires Reading(OuterEdgeSegments(displays, edge), s.start + left, Exactly(s.boundary), 0) == t
    ensures
      var p := Pixel(edge, if edge.Near() then s.boundary + inset else s.boundary - inset - 1,
                     s.start + Min(left, Max(s.Length() - 1, 0)));
      EdgeOffset(displays, edge, p) == t
  {
    hide OuterEdgeSegments, Apart, OnEdge, Fits, HomeBoundary, Times, Reading;
    var p := Pixel(edge, if edge.Near() then s.boundary + inset else s.boundary - inset - 1, s.start + left);
    ListedIsOnEdge(displays, edge, s.boundary, s.start + left);
    InsetPointIsHome(displays, edge, s.boundary, s.start + left, inset);
    ReadingAgrees(OuterEdgeSegments(displays, edge), s.start + left, AtHome(displays, edge, p), Exactly(s.boundary), 0);
  }

  // The last segment's first pixel reads as the total less that segment.
  lemma LastReading(segments: seq<EdgeSegment>)
    requires Proper(segments) && Distinct(segments) && segments != []
    ensures
      var last := segments[|segments| - 1];
      0 <= Total(segments) - last.Length() < Total(segments) && Times(segments, last.boundary, last.start) > 0 &&
      Reading(segments, last.start, Exactly(last.boundary), 0) == Total(segments) - last.Length()
  {
    hide Distinct;
    var n := |segments| - 1;
    TotalSplit(segments, n);
    TotalNat(segments[..n]);
    assert segments[n..] == [segments[n]];
    assert Total(segments[n..]) == segments[n].Length();
    LocatedAt(segments, n, 0, segments[n]);
    LocatedReadsBack(segments, Total(segments[..n]), segments[n], 0);
  }

  lemma {:induction false} TotalSplit(segments: seq<EdgeSegment>, n: nat)
    requires n <= |segments|
    ensures Total(segments) == Total(segments[..n]) + Total(segments[n..])
  {
    if n == 0 {
      assert segments[n..] == segments;
    } else {
      TotalSplit(segments[1..], n - 1);
      assert segments[1..][..n - 1] == segments[..n][1..];
      assert segments[1..][n - 1..] == segments[n..];
    }
  }

  // Offset left into segment n is located there.
  lemma {:induction false} LocatedAt(segments: seq<EdgeSegment>, n: nat, left: int, last: EdgeSegment)
    requires Proper(segments) && n < |segments| && 0 <= left < segments[n].Length()
    ensures Located(segments, Total(segments[..n]) + left, last) == (segments[n], left)
  {
    if n > 0 {
      TotalNat(segments[..n][1..]);
      assert segments[1..][..n - 1] == segments[..n][1..];
      LocatedAt(segments[1..], n - 1, left, last);
    }
  }

  // Every exposed edge pixel has an offset in range, and that offset names the pixel again.
  lemma PixelRoundTrip(displays: seq<DisplayRect>, edge: ScreenEdge, b: int, c: int)
    requires Apart(displays) && OnEdge(displays, edge, b, c)
    ensures
      var p := Pixel(edge, Inside(edge, b), c);
      0 <= EdgeOffset(displays, edge, p) < Total(OuterEdgeSegments(displays, edge)) &&
      PointAt(displays, edge, EdgeOffset(displays, edge, p), 0) == p
  {
    hide OuterEdgeSegments, OnEdge, Fits, HomeBoundary, Times, Located, Reading, Total;
    var segments, p := OuterEdgeSegments(displays, edge), Pixel(edge, Inside(edge, b), c);
    ZeroFits(displays, edge);
    OuterIsDistinct(displays, edge);
    ListedIsOnEdge(displays, edge, b, c);
    InsetPointIsHome(displays, edge, b, c, 0);
    ReadingAgrees(segments, c, AtHome(displays, edge, p), Exactly(b), 0);
    ReadingIsLocated(segments, b, c, LastSegment(segments), 0);
  }

  lemma ZeroFits(displays: seq<DisplayRect>, edge: ScreenEdge)
    requires Apart(displays)
    ensures Fits(displays, edge, 0)
  {
    forall i | 0 <= i < |displays|
      ensures 0 < displays[i].AcrossHigh(edge) - displays[i].AcrossLow(edge)
    {
      SizedSides(displays[i], edge);
    }
  }

  // ---------- What an offset means ----------

  // Along one boundary, later pixels are read as greater offsets.
  lemma {:induction false} ReadingGrows(segments: seq<EdgeSegment>, b: int, c: int, c': int, offset: int)
    requires Proper(segments) && ByStart(segments) && c < c'
    requires Times(segments, b, c) > 0 && Times(segments, b, c') > 0
    ensures Reading(segments, c, Exactly(b), offset) < Reading(segments, c', Exactly(b), offset)
  {
    hide Times;
    NothingListed(b, c);
    var first, rest := segments[0], segments[1..];
    TimesFront(segments, b, c);
    TimesFront(segments, b, c');
    if !first.Holds(b, c) {
      var i := Listing(rest, b, c);
      assert first.start <= segments[i + 1].start;
      ReadingGrows(rest, b, c, c', offset + first.Length());
    } else if !first.Holds(b, c') {
      ReadingIsLocated(rest, b, c', first, offset + first.Length());
    }
  }

  lemma ListByStart(displays: seq<DisplayRect>, edge: ScreenEdge)
    ensures Proper(OuterEdgeSegments(displays, edge)) && ByStart(OuterEdgeSegments(displays, edge))
  {
    hide OuterEdgeSegments;
    ListIsInOrder(displays, edge);
    var segments := OuterEdgeSegments(displays, edge);
    forall i, j | 0 <= i < j < |segments|
      ensures segments[i].start <= segments[j].start
    {
      assert ListOrder(segments[i], segments[j]);
    }
  }

  // Of two exposed pixels of one boundary, the one further down or further right has the greater offset.
  lemma OffsetsGrow(displays: seq<DisplayRect>, edge: ScreenEdge, b: int, c: int, c': int)
    requires Apart(displays) && OnEdge(displays, edge, b, c) && OnEdge(displays, edge, b, c') && c < c'
    ensures EdgeOffset(displays, edge, Pixel(edge, Inside(edge, b), c)) < EdgeOffset(displays, edge, Pixel(edge, Inside(edge, b), c'))
  {
    hide OuterEdgeSegments, OnEdge, Fits, HomeBoundary, Times, Reading;
    ZeroFits(displays, edge);
    ListByStart(displays, edge);
    ReadsItsBoundary(displays, edge, b, c);
    ReadsItsBoundary(displays, edge, b, c');
    ReadingGrows(OuterEdgeSegments(displays, edge), b, c, c', 0);
  }

  lemma ReadsItsBoundary(displays: seq<DisplayRect>, edge: ScreenEdge, b: int, c: int)
    requires Apart(displays) && Fits(displays, edge, 0) && OnEdge(displays, edge, b, c)
    ensures Times(OuterEdgeSegments(displays, edge), b, c) > 0
    ensures EdgeOffset(displays, edge, Pixel(edge, Inside(edge, b), c)) ==
      Reading(OuterEdgeSegments(displays, edge), c, Exactly(b), 0)
  {
    hide OuterEdgeSegments, OnEdge, Fits, HomeBoundary, Times, Reading;
    var p := Pixel(edge, Inside(edge, b), c);
    ListedIsOnEdge(displays, edge, b, c);
    InsetPointIsHome(displays, edge, b, c, 0);
    ReadingAgrees(OuterEdgeSegments(displays, edge), c, AtHome(displays, edge, p), Exactly(b), 0);
  }

  // Offset 0 is at the least coordinate of all exposed pixels, on whatever boundary they lie; overlapping displays included.
  lemma OffsetZeroIsLeast(displays: seq<DisplayRect>, edge: ScreenEdge, inset: int, b: int, c: int)
    requires displays != [] && forall i :: 0 <= i < |displays| ==> displays[i].Sized()
    requires OnEdge(displays, edge, b, c)
    ensures PointAt(displays, edge, 0, inset).Along(edge) <= c
  {
    hide OuterEdgeSegments, OnEdge, Times;
    var segments := OuterEdgeSegments(displays, edge);
    EdgeExists(displays, edge);
    ListByStart(displays, edge);
    ListingIsWrongWhereConcealed(displays, edge, b, c);
    var i := Listing(segments, b, c);
    assert i > 0 ==> segments[0].start <= segments[i].start;
  }

  // The point at an offset lies exactly inset pixels inside the exposed pixel that the offset names.
  lemma InsetIsExact(displays: seq<DisplayRect>, edge: ScreenEdge, t: int, inset: int) returns (b: int, c: int)
    requires Apart(displays) && displays != [] && 0 <= t < Total(OuterEdgeSegments(displays, edge))
    ensures OnEdge(displays, edge, b, c) && EdgeOffset(displays, edge, Pixel(edge, Inside(edge, b), c)) == t
    ensures PointAt(displays, edge, t, inset) ==
      match edge
      case Left => Point(b + inset, c)
      case Right => Point(b - 1 - inset, c)
      case Top => Point(c, b + inset)
      case Bottom => Point(c, b - 1 - inset)
  {
    hide OuterEdgeSegments, OnEdge, Times, Total, Reading, HomeBoundary, Fits, Apart;
    var segments := OuterEdgeSegments(displays, edge);
    OuterIsDistinct(displays, edge);
    LocatedReadsBack(segments, t, LastSegment(segments), 0);
    var (s, left) := Located(segments, t, LastSegment(segments));
    b, c := s.boundary, s.start + left;
    ListedIsOnEdge(displays, edge, b, c);
    ZeroFits(displays, edge);
    ReadsItsBoundary(displays, edge, b, c);
  }

  // ---------- There is always an edge ----------

  // The display that reaches furthest towards the edge.
  ghost function Outermost(displays: seq<DisplayRect>, edge: ScreenEdge): (k: nat)
    requires displays != []
    ensures k < |displays|
    ensures forall i :: 0 <= i < |displays| ==>
      if edge.Near() then displays[k].AcrossLow(edge) <= displays[i].AcrossLow(edge)
      else displays[i].AcrossHigh(edge) <= displays[k].AcrossHigh(edge)
  {
    var n := |displays| - 1;
    if n == 0 then 0 else
      var k := Outermost(displays[..n], edge);
      assert forall i :: 0 <= i < n ==> displays[..n][i] == displays[i];
      if (if edge.Near() then displays[n].AcrossLow(edge) < displays[k].AcrossLow(edge)
          else displays[k].AcrossHigh(edge) < displays[n].AcrossHigh(edge)) then n else k
  }

  // For every layout of displays of positive size, overlapping or not, each edge has a segment: the stand-in segment and the
  // divisor 1 of an empty list are never used.
  lemma EdgeExists(displays: seq<DisplayRect>, edge: ScreenEdge)
    requires displays != [] && forall i :: 0 <= i < |displays| ==> displays[i].Sized()
    ensures OuterEdgeSegments(displays, edge) != [] && Total(OuterEdgeSegments(displays, edge)) >= 1
  {
    hide OuterEdgeSegments, Exposers;
    var k := Outermost(displays, edge);
    var d := displays[k];
    SizedSides(d, edge);
    OutermostIsExposed(displays, edge, k);
    ListedHasExposer(displays, |displays|, edge, d.Boundary(edge), d.AlongLow(edge));
    assert displays[..|displays|] == displays;
    SweepIsExact(displays, edge, d.Boundary(edge), d.AlongLow(edge));
    NothingListed(d.Boundary(edge), d.AlongLow(edge));
    TotalNat(OuterEdgeSegments(displays, edge)[1..]);
  }

  lemma OutermostIsExposed(displays: seq<DisplayRect>, edge: ScreenEdge, k: nat)
    requires k < |displays| && displays[k].Sized()
    requires forall i :: 0 <= i < |displays| ==>
      if edge.Near() then displays[k].AcrossLow(edge) <= displays[i].AcrossLow(edge)
      else displays[i].AcrossHigh(edge) <= displays[k].AcrossHigh(edge)
    ensures Exposes(displays, displays[k], edge, displays[k].Boundary(edge), displays[k].AlongLow(edge))
  {}

  // ---------- Reading a position that may be a little off the edge ----------

  function NearBoundary(edge: ScreenEdge, p: Point): int -> bool {
    b => -2 <= p.Across(edge) - Inside(edge, b) <= 2
  }

  function NormalizedOffset(displays: seq<DisplayRect>, edge: ScreenEdge, p: Point): int {
    Reading(OuterEdgeSegments(displays, edge), p.Along(edge), NearBoundary(edge, p), 0)
  }

  // Two listed segments that share a coordinate and whose boundaries are at most two pixels apart.
  ghost predicate TooClose(segments: seq<EdgeSegment>) {
    exists i: nat, j: nat, c {:trigger Confused(segments, i, j, c)} :: Confused(segments, i, j, c)
  }

  ghost predicate Confused(segments: seq<EdgeSegment>, i: nat, j: nat, c: int) {
    i < j < |segments| && segments[i].start <= c < segments[i].end && segments[j].start <= c < segments[j].end &&
    -2 <= segments[i].boundary - segments[j].boundary <= 2
  }

  lemma {:induction false} ReadingOfFirst(segments: seq<EdgeSegment>, c: int, fits: int -> bool, i: nat, offset: int)
    requires Proper(segments) && i < |segments|
    requires segments[i].start <= c < segments[i].end && fits(segments[i].boundary)
    ensures Reading(segments, c, fits, offset) < offset + Total(segments[..i + 1])
    ensures (forall k :: 0 <= k < i ==> !(segments[k].start <= c < segments[k].end && fits(segments[k].boundary))) ==>
      Reading(segments, c, fits, offset) == offset + Total(segments[..i]) + c - segments[i].start
  {
    var first := segments[0];
    assert segments[..i + 1][1..] == segments[1..][..i];
    TotalNat(segments[1..][..i]);
    if i > 0 {
      assert segments[..i][1..] == segments[1..][..i - 1];
      if !(first.start <= c < first.end && fits(first.boundary)) {
        ReadingOfFirst(segments[1..], c, fits, i - 1, offset + first.Length());
      }
    }
  }

  // Every offset is some place in some segment.
  lemma {:induction false} OffsetOfPlace(segments: seq<EdgeSegment>, t: int) returns (n: nat, left: int)
    requires Proper(segments) && 0 <= t < Total(segments)
    ensures n < |segments| && 0 <= left < segments[n].Length() && t == Total(segments[..n]) + left
  {
    if t < segments[0].Length() {
      n, left := 0, t;
    } else {
      n, left := OffsetOfPlace(segments[1..], t - segments[0].Length());
      n := n + 1;
      assert segments[..n][1..] == segments[1..][..n - 1];
    }
  }

  lemma PointOfPlace(displays: seq<DisplayRect>, edge: ScreenEdge, n: nat, left: int)
    requires
      var segments := OuterEdgeSegments(displays, edge);
      Proper(segments) && n < |segments| && 0 <= left < segments[n].Length()
    ensures
      var segments := OuterEdgeSegments(displays, edge);
      PointAt(displays, edge, Total(segments[..n]) + left, 0) ==
      Pixel(edge, Inside(edge, segments[n].boundary), segments[n].start + left)
  {
    hide OuterEdgeSegments;
    LocatedAt(OuterEdgeSegments(displays, edge), n, left, LastSegment(OuterEdgeSegments(displays, edge)));
  }

  ghost predicate NormalizedRoundTrips(displays: seq<DisplayRect>, edge: ScreenEdge) {
    forall t {:trigger PointAt(displays, edge, t, 0)} :: 0 <= t < Total(OuterEdgeSegments(displays, edge)) ==>
      NormalizedOffset(displays, edge, PointAt(displays, edge, t, 0)) == t
  }

  // Reading with a tolerance of two pixels gives every offset back exactly when no two parallel segments are that close.
  lemma NormalizedRoundTrip(displays: seq<DisplayRect>, edge: ScreenEdge)
    ensures NormalizedRoundTrips(displays, edge) <==> !TooClose(OuterEdgeSegments(displays, edge))
  {
    hide OuterEdgeSegments, PointAt, Confused, Total, Reading;
    var segments := OuterEdgeSegments(displays, edge);
    SweepIsExact(displays, edge, 0, 0);
    if TooClose(segments) {
      var i: nat, j: nat, c :| Confused(segments, i, j, c);
      ConfusedReading(displays, edge, i, j, c);
    } else {
      forall t | 0 <= t < Total(segments)
        ensures NormalizedOffset(displays, edge, PointAt(displays, edge, t, 0)) == t
      {
        ClearReading(displays, edge, t);
      }
    }
  }

  lemma ConfusedReading(displays: seq<DisplayRect>, edge: ScreenEdge, i: nat, j: nat, c: int)
    requires Proper(OuterEdgeSegments(displays, edge)) && Confused(OuterEdgeSegments(displays, edge), i, j, c)
    ensures
      var t := Total(OuterEdgeSegments(displays, edge)[..j]) + c - OuterEdgeSegments(displays, edge)[j].start;
      0 <= t < Total(OuterEdgeSegments(displays, edge)) &&
      NormalizedOffset(displays, edge, PointAt(displays, edge, t, 0)) < t
  {
    hide OuterEdgeSegments, PointAt, Reading, Total;
    var segments := OuterEdgeSegments(displays, edge);
    var left := c - segments[j].start;
    PointOfPlace(displays, edge, j, left);
    var p := Pixel(edge, Inside(edge, segments[j].boundary), c);
    ReadingOfFirst(segments, c, NearBoundary(edge, p), i, 0);
    TotalOrder(segments, i + 1, j);
    TotalOrder(segments, j + 1, |segments|);
    TotalOrder(segments, 0, j);
    TotalNext(segments, j);
    assert segments[..|segments|] == segments;
  }

  lemma TotalOrder(segments: seq<EdgeSegment>, i: nat, j: nat)
    requires Proper(segments) && i <= j <= |segments|
    ensures 0 <= Total(segments[..i]) <= Total(segments[..j])
  {
    TotalSplit(segments[..j], i);
    assert segments[..j][..i] == segments[..i];
    TotalNat(segments[..j][i..]);
    TotalNat(segments[..i]);
  }

  lemma TotalNext(segments: seq<EdgeSegment>, j: nat)
    requires j < |segments|
    ensures Total(segments[..j + 1]) == Total(segments[..j]) + segments[j].Length()
  {
    TotalSplit(segments[..j + 1], j);
    assert segments[..j + 1][..j] == segments[..j];
    assert segments[..j + 1][j..] == [segments[j]];
    assert Total([segments[j]]) == segments[j].Length();
  }

  lemma ClearReading(displays: seq<DisplayRect>, edge: ScreenEdge, t: int)
    requires Proper(OuterEdgeSegments(displays, edge)) && !TooClose(OuterEdgeSegments(displays, edge))
    requires 0 <= t < Total(OuterEdgeSegments(displays, edge))
    ensures NormalizedOffset(displays, edge, PointAt(displays, edge, t, 0)) == t
  {
    hide OuterEdgeSegments, PointAt, Reading, Total;
    var segments := OuterEdgeSegments(displays, edge);
    var n, left := OffsetOfPlace(segments, t);
    PointOfPlace(displays, edge, n, left);
    var c := segments[n].start + left;
    var p := Pixel(edge, Inside(edge, segments[n].boundary), c);
    forall k | 0 <= k < n
      ensures !(segments[k].start <= c < segments[k].end && NearBoundary(edge, p)(segments[k].boundary))
    {
      assert !Confused(segments, k, n, c);
    }
    ReadingOfFirst(segments, c, NearBoundary(edge, p), n, 0);
  }

  // Displays that do not overlap and are at least two pixels across are never that close.
  lemma TwoPixelsAreEnough(displays: seq<DisplayRect>, edge: ScreenEdge)
    requires Apart(displays) && Fits(displays, edge, 1)
    ensures NormalizedRoundTrips(displays, edge)
  {
    hide OuterEdgeSegments, NormalizedRoundTrips, Apart, Fits, OnEdge, Times;
    var segments := OuterEdgeSegments(displays, edge);
    NormalizedRoundTrip(displays, edge);
    OuterIsDistinct(displays, edge);
    if TooClose(segments) {
      var i: nat, j: nat, c :| Confused(segments, i, j, c);
      ListedTwice(segments, i, j, c);
      ListedIsOnEdge(displays, edge, segments[i].boundary, c);
      ListedIsOnEdge(displays, edge, segments[j].boundary, c);
      ParallelEdgesAreFar(displays, edge, segments[i].boundary, segments[j].boundary, c);
      assert false;
    }
  }

  lemma {:induction false} ListedOnce(segments: seq<EdgeSegment>, i: nat, b: int, c: int)
    requires i < |segments| && segments[i].Holds(b, c)
    ensures Times(segments, b, c) > 0
  {
    if i < |segments| - 1 {
      ListedOnce(segments[..|segments| - 1], i, b, c);
    }
  }

  lemma {:induction false} ListedTwice(segments: seq<EdgeSegment>, i: nat, j: nat, c: int)
    requires Confused(segments, i, j, c)
    ensures Times(segments, segments[i].boundary, c) > 0 && Times(segments, segments[j].boundary, c) > 0
    ensures segments[i].boundary == segments[j].boundary ==> Times(segments, segments[i].boundary, c) > 1
  {
    ListedOnce(segments, i, segments[i].boundary, c);
    ListedOnce(segments, j, segments[j].boundary, c);
    assert segments == segments[..j] + segments[j..];
    TimesConcat(segments[..j], segments[j..], segments[i].boundary, c);
    ListedOnce(segments[..j], i, segments[i].boundary, c);
    ListedOnce(segments[j..], 0, segments[j].boundary, c);
  }

  // A display two pixels across covers the pixels outside any boundary up to two pixels behind its own.
  lemma BehindBoundary(d: DisplayRect, edge: ScreenEdge, b': int, c: int)
    requires d.Spans(edge, c) && 1 < d.AcrossHigh(edge) - d.AcrossLow(edge)
    requires if edge.Near() then d.Boundary(edge) < b' <= d.Boundary(edge) + 2
             else d.Boundary(edge) - 2 <= b' < d.Boundary(edge)
    ensures d.Contains(Pixel(edge, Outside(edge, b'), c))
  {}

  lemma ParallelEdgesAreFar(displays: seq<DisplayRect>, edge: ScreenEdge, b: int, b': int, c: int)
    requires Fits(displays, edge, 1) && OnEdge(displays, edge, b, c) && OnEdge(displays, edge, b', c) && b != b'
    ensures !(-2 <= b - b' <= 2)
  {
    hide DisplayRect.Boundary, DisplayRect.Spans, DisplayRect.Contains, Outside, DisplayRect.AcrossLow, DisplayRect.AcrossHigh;
    var k: nat :| k < |displays| && displays[k].Boundary(edge) == b && displays[k].Spans(edge, c);
    var k': nat :| k' < |displays| && displays[k'].Boundary(edge) == b' && displays[k'].Spans(edge, c);
    if -2 <= b - b' <= 2 {
      if edge.Near() <==> b < b' {
        BehindBoundary(displays[k], edge, b', c);
      } else {
        BehindBoundary(displays[k'], edge, b, c);
      }
      assert false;
    }
  }

  // With displays one pixel wide and one pixel apart, the second left edge reads as the first.
  lemma ThinDisplaysAreConfused()
    ensures
      var displays := [DisplayRect(0, 0, 1, 1), DisplayRect(2, 0, 1, 1)];
      Apart(displays) && !NormalizedRoundTrips(displays, Left)
  {
    hide OuterEdgeSegments, NormalizedRoundTrips, Apart, OnEdge, Times;
    var displays := [DisplayRect(0, 0, 1, 1), DisplayRect(2, 0, 1, 1)];
    var segments := OuterEdgeSegments(displays, Left);
    ThinEdges();
    NormalizedRoundTrip(displays, Left);
    ListedIsOnEdge(displays, Left, 0, 0);
    ListedIsOnEdge(displays, Left, 2, 0);
    var i := Listing(segments, 0, 0);
    var j := Listing(segments, 2, 0);
    assert Confused(segments, i, j, 0) || Confused(segments, j, i, 0);
  }

  lemma ThinEdges()
    ensures
      var displays := [DisplayRect(0, 0, 1, 1), DisplayRect(2, 0, 1, 1)];
      Apart(displays) && OnEdge(displays, Left, 0, 0) && OnEdge(displays, Left, 2, 0)
  {
    var displays := [DisplayRect(0, 0, 1, 1), DisplayRect(2, 0, 1, 1)];
    assert displays[0].Boundary(Left) == 0 && displays[0].Spans(Left, 0);
    assert displays[1].Boundary(Left) == 2 && displays[1].Spans(Left, 0);
  }

  lemma {:induction false} Listing(segments: seq<EdgeSegment>, b: int, c: int) returns (i: nat)
    requires Times(segments, b, c) > 0
    ensures i < |segments| && segments[i].Holds(b, c)
  {
    i := |segments| - 1;
    if !segments[i].Holds(b, c) {
      i := Listing(segments[..i], b, c);
    }
  }

  method EdgePosition(displays: seq<DisplayRect>, edge: ScreenEdge, point: Point) returns (position: int)
    ensures position == EdgeOffset(displays, edge, point)
  {
    hide OuterEdgeSegments;
    var segments := OuterEdges(displays, edge);
    var coordinate := point.Along(edge);
    var home := HomeBoundary(displays, edge, point);
    var offset := 0;
    for i := 0 to |segments|
      invariant EdgeOffset(displays, edge, point) ==
        Reading(segments[i..], coordinate, AtHome(displays, edge, point), offset)
    {
      assert segments[i..][1..] == segments[i + 1..];
      var segment := segments[i];
      if segment.start <= coordinate < segment.end && Some(segment.boundary) == home {
        return offset + coordinate - segment.start;
      }
      offset := offset + segment.Length();
    }
    return 0;
  }

  method NormalizedEdgePosition(displays: seq<DisplayRect>, edge: ScreenEdge, point: Point) returns (position: int)
    ensures position == NormalizedOffset(displays, edge, point)
  {
    hide OuterEdgeSegments;
    var segments := OuterEdges(displays, edge);
    var coordinate := point.Along(edge);
    var offset := 0;
    for i := 0 to |segments|
      invariant NormalizedOffset(displays, edge, point) ==
        Reading(segments[i..], coordinate, NearBoundary(edge, point), offset)
    {
      assert segments[i..][1..] == segments[i + 1..];
      var segment := segments[i];
      if segment.start <= coordinate < segment.end && NearBoundary(edge, point)(segment.boundary) {
        return offset + coordinate - segment.start;
      }
      offset := offset + segment.Length();
    }
    return 0;
  }

  method PointInsideEdge(displays: seq<DisplayRect>, edge: ScreenEdge, offset: int, inset: int) returns (point: Point)
    ensures point == PointAt(displays, edge, offset, inset)
  {
    hide OuterEdgeSegments;
    var segments := OuterEdges(displays, edge);
    var selected := LastSegment(segments);
    var target := offset;
    for i := 0 to |segments|
      invariant selected == LastSegment(segments)
      invariant Located(segments, offset, selected) == Located(segments[i..], target, selected)
    {
      assert segments[i..][1..] == segments[i + 1..];
      if target < segments[i].Length() {
        selected := segments[i];
        break;
      }
      target := target - segments[i].Length();
    }
    var coordinate := selected.start + Min(target, Max(selected.Length() - 1, 0));
    point := Pixel(edge, if edge.Near() then selected.boundary + inset else selected.boundary - inset - 1, coordinate);
  }
}
