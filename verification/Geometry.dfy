/** The outer edges of a desktop made of several displays. For every layout, overlapping displays included, the sweep lists
    each edge pixel as often as a display exposes it there; for displays that do not overlap that is once for each pixel at
    the edge of the screen. */
module Geometry {


  type i32 = x: int | -0x8000_0000 <= x < 0x8000_0000

  const I32_MIN: i32 := -0x8000_0000
  const I32_MAX: i32 := 0x7FFF_FFFF

  datatype ScreenEdge = Left | Right | Top | Bottom
  {
    predicate Vertical() {
      Left? || Right?
    }

    // The edges at which displays begin.
    predicate Near() {
      Left? || Top?
    }
  }

  datatype Point = Point(x: int, y: int)
  {
    function Along(edge: ScreenEdge): int {
      if edge.Vertical() then y else x
    }

    function Across(edge: ScreenEdge): int {
      if edge.Vertical() then x else y
    }
  }

  function SaturatingAdd(a: i32, b: i32): i32 {
    if a + b > I32_MAX then I32_MAX else if a + b < I32_MIN then I32_MIN else a + b
  }

  // x - 1 the way a release build computes it.
  function WrappingDecrement(x: i32): i32 {
    if x == I32_MIN then I32_MAX else x - 1
  }

  function Min(a: int, b: int): int {
    if a <= b then a else b
  }

  function Max(a: int, b: int): int {
    if a >= b then a else b
  }

  datatype DisplayRect = DisplayRect(x: i32, y: i32, width: i32, height: i32)
  {
    function RightSide(): i32 {
      SaturatingAdd(x, width)
    }

    function BottomSide(): i32 {
      SaturatingAdd(y, height)
    }

    predicate Contains(p: Point) {
      x <= p.x < RightSide() && y <= p.y < BottomSide()
    }

    // The extent along an edge, and across it.
    function AlongLow(edge: ScreenEdge): i32 {
      if edge.Vertical() then y else x
    }

    function AlongHigh(edge: ScreenEdge): i32 {
      if edge.Vertical() then BottomSide() else RightSide()
    }

    function AcrossLow(edge: ScreenEdge): i32 {
      if edge.Vertical() then x else y
    }

    function AcrossHigh(edge: ScreenEdge): i32 {
      if edge.Vertical() then RightSide() else BottomSide()
    }

    function Boundary(edge: ScreenEdge): i32 {
      if edge.Near() then AcrossLow(edge) else AcrossHigh(edge)
    }

    predicate Spans(edge: ScreenEdge, c: int) {
      AlongLow(edge) <= c < AlongHigh(edge)
    }

    predicate Reaches(edge: ScreenEdge, a: int) {
      AcrossLow(edge) <= a < AcrossHigh(edge)
    }

    // A layout is refused unless every display has a positive size. At the end of the number range a display can still
    // be cut down to nothing.
    predicate Sized() {
      width > 0 && height > 0 && x < I32_MAX && y < I32_MAX
    }
  }

  lemma SizedSides(d: DisplayRect, edge: ScreenEdge)
    requires d.Sized()
    ensures d.AlongLow(edge) < d.AlongHigh(edge) && d.AcrossLow(edge) < d.AcrossHigh(edge)
  {}

  datatype EdgeSegment = EdgeSegment(start: int, end: int, boundary: int)
  {
    predicate Holds(b: int, c: int) {
      boundary == b && start <= c < end
    }

    function Length(): int {
      end - start
    }
  }

  // ---------- Sorting ----------

  predicate Ascending(a: EdgeSegment, b: EdgeSegment) {
    a.start < b.start || (a.start == b.start && (a.end < b.end || (a.end == b.end && a.boundary <= b.boundary)))
  }

  function Inserted(s: seq<EdgeSegment>, x: EdgeSegment): seq<EdgeSegment> {
    if s == [] || Ascending(s[|s| - 1], x) then s + [x] else Inserted(s[..|s| - 1], x) + [s[|s| - 1]]
  }

  // The library sort. Segments that compare equal are equal, so there is only one sorted order.
  function Sorted(s: seq<EdgeSegment>): seq<EdgeSegment> {
    if s == [] then [] else Inserted(Sorted(s[..|s| - 1]), s[|s| - 1])
  }

  ghost predicate InOrder(s: seq<EdgeSegment>) {
    forall i, j :: 0 <= i < j < |s| ==> Ascending(s[i], s[j])
  }

  lemma {:induction false} InsertedIsPermutation(s: seq<EdgeSegment>, x: EdgeSegment)
    ensures multiset(Inserted(s, x)) == multiset(s) + multiset{x}
  {
    if s != [] && !Ascending(s[|s| - 1], x) {
      var n := |s| - 1;
      InsertedIsPermutation(s[..n], x);
      assert s == s[..n] + [s[n]];
    }
  }

  lemma InsertedMembers(s: seq<EdgeSegment>, x: EdgeSegment)
    ensures forall i :: 0 <= i < |Inserted(s, x)| ==> Inserted(s, x)[i] == x || Inserted(s, x)[i] in s
  {
    hide Inserted;
    InsertedIsPermutation(s, x);
    forall i | 0 <= i < |Inserted(s, x)|
      ensures Inserted(s, x)[i] == x || Inserted(s, x)[i] in s
    {
      assert Inserted(s, x)[i] in multiset(Inserted(s, x));
    }
  }

  lemma {:induction false} InsertedInOrder(s: seq<EdgeSegment>, x: EdgeSegment)
    requires InOrder(s)
    ensures InOrder(Inserted(s, x))
  {
    if s != [] && !Ascending(s[|s| - 1], x) {
      var n := |s| - 1;
      InsertedInOrder(s[..n], x);
      InsertedMembers(s[..n], x);
    }
  }

  lemma {:induction false} SortedKeeps(s: seq<EdgeSegment>)
    ensures InOrder(Sorted(s)) && multiset(Sorted(s)) == multiset(s)
  {
    if s != [] {
      var n := |s| - 1;
      SortedKeeps(s[..n]);
      InsertedIsPermutation(Sorted(s[..n]), s[n]);
      InsertedInOrder(Sorted(s[..n]), s[n]);
      assert s == s[..n] + [s[n]];
    }
  }

  // ---------- The sweep along one display ----------

  // The pixels just outside the display that this candidate covers, as an interval along the edge.
  predicate Blocks(candidate: DisplayRect, d: DisplayRect, edge: ScreenEdge) {
    var outside := if edge.Near() then WrappingDecrement(d.AcrossLow(edge)) else d.AcrossHigh(edge);
    candidate.Reaches(edge, outside) && candidate.AcrossLow(edge) != d.AcrossLow(edge) &&
    Max(d.AlongLow(edge), candidate.AlongLow(edge)) < Min(d.AlongHigh(edge), candidate.AlongHigh(edge))
  }

  function Overlap(candidate: DisplayRect, d: DisplayRect, edge: ScreenEdge): EdgeSegment {
    EdgeSegment(Max(d.AlongLow(edge), candidate.AlongLow(edge)), Min(d.AlongHigh(edge), candidate.AlongHigh(edge)), 0)
  }

  function Blocked(displays: seq<DisplayRect>, d: DisplayRect, edge: ScreenEdge): seq<EdgeSegment> {
    if displays == [] then []
    else
      var n := |displays| - 1;
      Blocked(displays[..n], d, edge) +
      if Blocks(displays[n], d, edge) then [Overlap(displays[n], d, edge)] else []
  }

  // What is left of [cursor, end) between the blocked intervals.
  function Gaps(cursor: int, blocked: seq<EdgeSegment>, end: int, boundary: int): seq<EdgeSegment>
    decreases |blocked|
  {
    if blocked == [] then
      if cursor < end then [EdgeSegment(cursor, end, boundary)] else []
    else
      (if cursor < blocked[0].start then [EdgeSegment(cursor, blocked[0].start, boundary)] else []) +
      Gaps(Max(cursor, blocked[0].end), blocked[1..], end, boundary)
  }

  function Exposed(displays: seq<DisplayRect>, d: DisplayRect, edge: ScreenEdge): seq<EdgeSegment> {
    Gaps(d.AlongLow(edge), Sorted(Blocked(displays, d, edge)), d.AlongHigh(edge), d.Boundary(edge))
  }

  function AllExposed(displays: seq<DisplayRect>, swept: seq<DisplayRect>, edge: ScreenEdge): seq<EdgeSegment> {
    if swept == [] then [] else
      AllExposed(displays, swept[..|swept| - 1], edge) + Exposed(displays, swept[|swept| - 1], edge)
  }

  // Segments that touch on the same boundary become one.
  function Joined(merged: seq<EdgeSegment>, s: EdgeSegment): seq<EdgeSegment> {
    var n := |merged|;
    if n > 0 && merged[n - 1].end == s.start && merged[n - 1].boundary == s.boundary then
      merged[..n - 1] + [EdgeSegment(merged[n - 1].start, s.end, s.boundary)]
    else merged + [s]
  }

  function Merged(segments: seq<EdgeSegment>): seq<EdgeSegment> {
    if segments == [] then [] else Joined(Merged(segments[..|segments| - 1]), segments[|segments| - 1])
  }

  function OuterEdgeSegments(displays: seq<DisplayRect>, edge: ScreenEdge): seq<EdgeSegment> {
    Merged(Sorted(AllExposed(displays, displays, edge)))
  }

  // ---------- How often a pixel is listed ----------

  function Times(segments: seq<EdgeSegment>, b: int, c: int): nat {
    if segments == [] then 0
    else Times(segments[..|segments| - 1], b, c) + if segments[|segments| - 1].Holds(b, c) then 1 else 0
  }

  lemma {:induction false} TimesConcat(s: seq<EdgeSegment>, t: seq<EdgeSegment>, b: int, c: int)
    ensures Times(s + t, b, c) == Times(s, b, c) + Times(t, b, c)
  {
    if t == [] {
      assert s + t == s;
    } else {
      assert (s + t)[..|s + t| - 1] == s + t[..|t| - 1];
      TimesConcat(s, t[..|t| - 1], b, c);
    }
  }

  lemma {:induction false} TimesInserted(s: seq<EdgeSegment>, x: EdgeSegment, b: int, c: int)
    ensures Times(Inserted(s, x), b, c) == Times(s, b, c) + if x.Holds(b, c) then 1 else 0
  {
    if s == [] || Ascending(s[|s| - 1], x) {
      assert (s + [x])[..|s|] == s;
    } else {
      var n := |s| - 1;
      TimesInserted(s[..n], x, b, c);
      TimesConcat(Inserted(s[..n], x), [s[n]], b, c);
    }
  }

  lemma {:induction false} TimesSorted(s: seq<EdgeSegment>, b: int, c: int)
    ensures Times(Sorted(s), b, c) == Times(s, b, c)
  {
    if s != [] {
      TimesSorted(s[..|s| - 1], b, c);
      TimesInserted(Sorted(s[..|s| - 1]), s[|s| - 1], b, c);
    }
  }

  ghost predicate Proper(segments: seq<EdgeSegment>) {
    forall i :: 0 <= i < |segments| ==> segments[i].start < segments[i].end
  }

  lemma TimesJoined(merged: seq<EdgeSegment>, s: EdgeSegment, b: int, c: int)
    requires Proper(merged) && s.start < s.end
    ensures Proper(Joined(merged, s))
    ensures Times(Joined(merged, s), b, c) == Times(merged, b, c) + if s.Holds(b, c) then 1 else 0
  {
    var n := |merged|;
    if n > 0 && merged[n - 1].end == s.start && merged[n - 1].boundary == s.boundary {
      TimesConcat(merged[..n - 1], [EdgeSegment(merged[n - 1].start, s.end, s.boundary)], b, c);
    } else {
      TimesConcat(merged, [s], b, c);
    }
  }

  lemma {:induction false} TimesMerged(segments: seq<EdgeSegment>, b: int, c: int)
    requires Proper(segments)
    ensures Proper(Merged(segments)) && Times(Merged(segments), b, c) == Times(segments, b, c)
  {
    if segments != [] {
      var n := |segments| - 1;
      TimesMerged(segments[..n], b, c);
      TimesJoined(Merged(segments[..n]), segments[n], b, c);
    }
  }

  // ---------- The sweep is exact ----------

  ghost predicate Covered(blocked: seq<EdgeSegment>, c: int) {
    exists i :: 0 <= i < |blocked| && blocked[i].start <= c < blocked[i].end
  }

  ghost predicate ByStart(blocked: seq<EdgeSegment>) {
    forall i, j :: 0 <= i < j < |blocked| ==> blocked[i].start <= blocked[j].start
  }

  lemma {:induction false} GapsAreExact(cursor: int, blocked: seq<EdgeSegment>, end: int, boundary: int, b: int, c: int)
    requires ByStart(blocked) && Proper(blocked)
    requires forall i :: 0 <= i < |blocked| ==> blocked[i].end <= end
    ensures Proper(Gaps(cursor, blocked, end, boundary))
    ensures Times(Gaps(cursor, blocked, end, boundary), b, c) ==
      if b == boundary && cursor <= c < end && !Covered(blocked, c) then 1 else 0
    decreases |blocked|
  {
    hide Times, Covered;
    NothingListed(b, c);
    if blocked == [] {
      NothingCovered(c);
      TimesOne(EdgeSegment(cursor, end, boundary), b, c);
    } else {
      var rest := blocked[1..];
      GapsAreExact(Max(cursor, blocked[0].end), rest, end, boundary, b, c);
      var first := if cursor < blocked[0].start then [EdgeSegment(cursor, blocked[0].start, boundary)] else [];
      TimesConcat(first, Gaps(Max(cursor, blocked[0].end), rest, end, boundary), b, c);
      TimesOne(EdgeSegment(cursor, blocked[0].start, boundary), b, c);
      CoveredStep(blocked, c);
      CoveredLater(blocked, c);
    }
  }

  lemma NothingListed(b: int, c: int)
    ensures Times([], b, c) == 0
  {}

  lemma TimesOne(s: EdgeSegment, b: int, c: int)
    ensures Times([s], b, c) == if s.Holds(b, c) then 1 else 0
  {
    assert [s][..0] == [];
  }

  lemma NothingCovered(c: int)
    ensures !Covered([], c)
  {}

  // Nothing before the first blocked interval is blocked.
  lemma CoveredLater(blocked: seq<EdgeSegment>, c: int)
    requires ByStart(blocked) && blocked != []
    ensures c < blocked[0].start ==> !Covered(blocked[1..], c)
  {}

  lemma CoveredStep(blocked: seq<EdgeSegment>, c: int)
    requires blocked != []
    ensures Covered(blocked, c) <==> blocked[0].start <= c < blocked[0].end || Covered(blocked[1..], c)
  {
    if Covered(blocked[1..], c) {
      var i :| 0 <= i < |blocked[1..]| && blocked[1..][i].start <= c < blocked[1..][i].end;
      assert blocked[i + 1] == blocked[1..][i];
    }
    if Covered(blocked, c) {
      var i :| 0 <= i < |blocked| && blocked[i].start <= c < blocked[i].end;
      assert i > 0 ==> blocked[1..][i - 1] == blocked[i];
    }
  }

  // The coordinate across the edge of the pixels just outside a boundary, and just inside it.
  function Outside(edge: ScreenEdge, b: int): int {
    if edge.Near() then b - 1 else b
  }

  function Inside(edge: ScreenEdge, b: int): int {
    if edge.Near() then b else b - 1
  }

  function Pixel(edge: ScreenEdge, across: int, along: int): Point {
    if edge.Vertical() then Point(across, along) else Point(along, across)
  }

  // e covers the pixel just outside d, and does not begin where d begins: the test the source makes.
  predicate Shields(e: DisplayRect, d: DisplayRect, edge: ScreenEdge, c: int) {
    e.Contains(Pixel(edge, Outside(edge, d.Boundary(edge)), c)) && e.AcrossLow(edge) != d.AcrossLow(edge)
  }

  ghost predicate Exposes(displays: seq<DisplayRect>, d: DisplayRect, edge: ScreenEdge, b: int, c: int) {
    d.Boundary(edge) == b && d.Spans(edge, c) && forall i :: 0 <= i < |displays| ==> !Shields(displays[i], d, edge, c)
  }

  ghost function Exposers(displays: seq<DisplayRect>, swept: seq<DisplayRect>, edge: ScreenEdge, b: int, c: int): nat {
    if swept == [] then 0
    else
      Exposers(displays, swept[..|swept| - 1], edge, b, c) +
      if Exposes(displays, swept[|swept| - 1], edge, b, c) then 1 else 0
  }

  // Stepping below the smallest number wraps to the largest one, where no display reaches either.
  lemma WrappingIsHarmless(e: DisplayRect, d: DisplayRect, edge: ScreenEdge, c: int)
    requires d.Spans(edge, c)
    ensures Blocks(e, d, edge) && Overlap(e, d, edge).start <= c < Overlap(e, d, edge).end <==> Shields(e, d, edge, c)
  {}

  lemma {:induction false} BlockedIsShielded(displays: seq<DisplayRect>, d: DisplayRect, edge: ScreenEdge, c: int)
    requires d.Spans(edge, c)
    ensures Covered(Blocked(displays, d, edge), c) <==> exists i :: 0 <= i < |displays| && Shields(displays[i], d, edge, c)
  {
    hide Blocks, Overlap, Shields, DisplayRect.Spans;
    if displays != [] {
      var n := |displays| - 1;
      BlockedIsShielded(displays[..n], d, edge, c);
      WrappingIsHarmless(displays[n], d, edge, c);
      var last := if Blocks(displays[n], d, edge) then [Overlap(displays[n], d, edge)] else [];
      CoveredConcat(Blocked(displays[..n], d, edge), last, c);
      CoveredStep([Overlap(displays[n], d, edge)], c);
      assert forall i :: 0 <= i < n ==> displays[..n][i] == displays[i];
    }
  }

  lemma CoveredConcat(s: seq<EdgeSegment>, t: seq<EdgeSegment>, c: int)
    ensures Covered(s + t, c) <==> Covered(s, c) || Covered(t, c)
  {
    if Covered(t, c) {
      var i :| 0 <= i < |t| && t[i].start <= c < t[i].end;
      assert (s + t)[|s| + i] == t[i];
    }
    if Covered(s, c) {
      var i :| 0 <= i < |s| && s[i].start <= c < s[i].end;
      assert (s + t)[i] == s[i];
    }
  }

  lemma CoveredMembers(s: seq<EdgeSegment>, t: seq<EdgeSegment>, c: int)
    requires forall x :: x in s ==> x in t
    ensures Covered(s, c) ==> Covered(t, c)
  {
    if Covered(s, c) {
      var i :| 0 <= i < |s| && s[i].start <= c < s[i].end;
      assert s[i] in t;
      var j :| 0 <= j < |t| && t[j] == s[i];
    }
  }

  lemma SameMembers(s: seq<EdgeSegment>)
    ensures forall x :: x in Sorted(s) <==> x in s
  {
    SortedKeeps(s);
    assert forall x :: x in Sorted(s) <==> x in multiset(Sorted(s));
  }

  lemma CoveredSorted(s: seq<EdgeSegment>, c: int)
    ensures Covered(Sorted(s), c) <==> Covered(s, c)
    ensures ByStart(Sorted(s))
    ensures forall x :: x in Sorted(s) <==> x in s
  {
    hide Sorted, Covered;
    SameMembers(s);
    SortedKeeps(s);
    CoveredMembers(s, Sorted(s), c);
    CoveredMembers(Sorted(s), s, c);
  }

  lemma {:induction false} BlockedFits(displays: seq<DisplayRect>, d: DisplayRect, edge: ScreenEdge)
    ensures forall x :: x in Blocked(displays, d, edge) ==> x.start < x.end <= d.AlongHigh(edge)
  {
    if displays != [] {
      BlockedFits(displays[..|displays| - 1], d, edge);
    }
  }

  // One display is swept into exactly the stretches of its edge that nothing shields.
  lemma ExposedIsExact(displays: seq<DisplayRect>, d: DisplayRect, edge: ScreenEdge, b: int, c: int)
    ensures Proper(Exposed(displays, d, edge))
    ensures Times(Exposed(displays, d, edge), b, c) == if Exposes(displays, d, edge, b, c) then 1 else 0
  {
    hide Sorted, Blocked, Gaps, Times, Shields, Blocks, Overlap, Covered;
    var blocked := Blocked(displays, d, edge);
    BlockedFits(displays, d, edge);
    CoveredSorted(blocked, c);
    assert forall i :: 0 <= i < |Sorted(blocked)| ==> Sorted(blocked)[i] in Sorted(blocked);
    GapsAreExact(d.AlongLow(edge), Sorted(blocked), d.AlongHigh(edge), d.Boundary(edge), b, c);
    if d.Spans(edge, c) {
      BlockedIsShielded(displays, d, edge, c);
    }
  }

  lemma {:induction false} AllExposedIsExact(displays: seq<DisplayRect>, swept: seq<DisplayRect>, edge: ScreenEdge, b: int, c: int)
    ensures Proper(AllExposed(displays, swept, edge))
    ensures Times(AllExposed(displays, swept, edge), b, c) == Exposers(displays, swept, edge, b, c)
  {
    hide Exposed, Exposes;
    if swept != [] {
      var n := |swept| - 1;
      AllExposedIsExact(displays, swept[..n], edge, b, c);
      ExposedIsExact(displays, swept[n], edge, b, c);
      TimesConcat(AllExposed(displays, swept[..n], edge), Exposed(displays, swept[n], edge), b, c);
    }
  }

  // For every layout, overlapping displays included: a pixel of an edge is listed once for every display that exposes it.
  lemma SweepIsExact(displays: seq<DisplayRect>, edge: ScreenEdge, b: int, c: int)
    ensures Proper(OuterEdgeSegments(displays, edge))
    ensures Times(OuterEdgeSegments(displays, edge), b, c) == Exposers(displays, displays, edge, b, c)
  {
    hide AllExposed, Sorted, Merged, Exposers, Times;
    var all := AllExposed(displays, displays, edge);
    AllExposedIsExact(displays, displays, edge, b, c);
    CoveredSorted(all, c);
    assert forall i :: 0 <= i < |Sorted(all)| ==> Sorted(all)[i] in Sorted(all);
    TimesSorted(all, b, c);
    TimesMerged(Sorted(all), b, c);
  }

  // ---------- The order of the list ----------

  // By start, then end, then boundary.
  ghost predicate ListOrder(a: EdgeSegment, b: EdgeSegment) {
    a.start <= b.start && (a.start == b.start ==> a.end <= b.end && (a.end == b.end ==> a.boundary <= b.boundary))
  }

  ghost predicate NoneTouch(segments: seq<EdgeSegment>) {
    forall i :: 0 < i < |segments| ==>
      !(segments[i - 1].end == segments[i].start && segments[i - 1].boundary == segments[i].boundary)
  }

  // The end of the merged list is the end of the list, possibly begun earlier.
  ghost predicate EndsAlike(merged: seq<EdgeSegment>, segments: seq<EdgeSegment>) {
    segments != [] ==>
      merged != [] &&
      var m, s := merged[|merged| - 1], segments[|segments| - 1];
      m.end == s.end && m.boundary == s.boundary && (m == s || m.start < s.start)
  }

  lemma {:induction false} MergedInOrder(segments: seq<EdgeSegment>)
    requires InOrder(segments) && Proper(segments)
    ensures InOrder(Merged(segments)) && NoneTouch(Merged(segments)) && EndsAlike(Merged(segments), segments)
  {
    if segments != [] {
      var n := |segments| - 1;
      var merged, s := Merged(segments[..n]), segments[n];
      MergedInOrder(segments[..n]);
      if merged != [] {
        assert Ascending(segments[n - 1], s);
        assert Ascending(merged[|merged| - 1], s);
      }
    }
  }

  // For every layout: the list is in order, and neighbours in it never touch on one boundary.
  lemma ListIsInOrder(displays: seq<DisplayRect>, edge: ScreenEdge)
    ensures
      var segments := OuterEdgeSegments(displays, edge);
      Proper(segments) && NoneTouch(segments) &&
      forall i, j :: 0 <= i < j < |segments| ==> ListOrder(segments[i], segments[j])
  {
    hide AllExposed, Sorted, Merged, Times, Exposers, Exposed;
    var all := AllExposed(displays, displays, edge);
    SweepIsExact(displays, edge, 0, 0);
    AllExposedIsExact(displays, displays, edge, 0, 0);
    SortedKeeps(all);
    SameMembers(all);
    assert forall i :: 0 <= i < |Sorted(all)| ==> Sorted(all)[i] in Sorted(all);
    MergedInOrder(Sorted(all));
  }

  // ---------- Layouts without overlap ----------

  // Displays of positive size, no two of which share a pixel.
  ghost predicate Apart(displays: seq<DisplayRect>) {
    (forall i :: 0 <= i < |displays| ==> displays[i].Sized()) &&
    (forall i, j, p: Point :: 0 <= i < j < |displays| ==> !(displays[i].Contains(p) && displays[j].Contains(p)))
  }

  // The pixel at c inside boundary b belongs to a display that ends there, and the one outside to no display.
  ghost predicate OnEdge(displays: seq<DisplayRect>, edge: ScreenEdge, b: int, c: int) {
    (exists i :: 0 <= i < |displays| && displays[i].Boundary(edge) == b && displays[i].Spans(edge, c)) &&
    (forall i :: 0 <= i < |displays| ==> !displays[i].Contains(Pixel(edge, Outside(edge, b), c)))
  }

  lemma InsidePixel(d: DisplayRect, edge: ScreenEdge, c: int)
    requires d.Sized() && d.Spans(edge, c)
    ensures d.Contains(Pixel(edge, Inside(edge, d.Boundary(edge)), c))
  {}

  // Without overlap, the source's exception for displays that begin alike never matters.
  lemma ShieldsAsCovers(e: DisplayRect, d: DisplayRect, edge: ScreenEdge, c: int)
    requires d.Sized() && e.Sized() && d.Spans(edge, c)
    requires e.Contains(Pixel(edge, Outside(edge, d.Boundary(edge)), c)) && e.AcrossLow(edge) == d.AcrossLow(edge)
    ensures e != d && e.Contains(Pixel(edge, d.AcrossLow(edge), c)) && d.Contains(Pixel(edge, d.AcrossLow(edge), c))
  {}

  lemma ExposesIsOnEdge(displays: seq<DisplayRect>, k: nat, edge: ScreenEdge, b: int, c: int)
    requires Apart(displays) && k < |displays|
    ensures Exposes(displays, displays[k], edge, b, c) <==>
      OnEdge(displays, edge, b, c) && displays[k].Boundary(edge) == b && displays[k].Spans(edge, c)
  {
    hide DisplayRect.Boundary, DisplayRect.Spans, DisplayRect.AcrossLow, DisplayRect.Contains, Outside;
    var d := displays[k];
    if d.Boundary(edge) == b && d.Spans(edge, c) {
      forall i | 0 <= i < |displays|
        ensures Shields(displays[i], d, edge, c) <==> displays[i].Contains(Pixel(edge, Outside(edge, b), c))
      {
        if displays[i].Contains(Pixel(edge, Outside(edge, b), c)) && displays[i].AcrossLow(edge) == d.AcrossLow(edge) {
          ShieldsAsCovers(displays[i], d, edge, c);
          assert false;
        }
      }
    }
  }

  lemma {:induction false} AtMostOneExposes(displays: seq<DisplayRect>, n: nat, edge: ScreenEdge, b: int, c: int)
    requires Apart(displays) && n <= |displays|
    ensures Exposers(displays, displays[..n], edge, b, c) ==
      if exists i :: 0 <= i < n && Exposes(displays, displays[i], edge, b, c) then 1 else 0
  {
    hide Exposes, DisplayRect.Boundary, DisplayRect.Spans, DisplayRect.Contains, Inside;
    if n > 0 {
      AtMostOneExposes(displays, n - 1, edge, b, c);
      assert displays[..n][..n - 1] == displays[..n - 1];
      if Exposes(displays, displays[n - 1], edge, b, c)
        && exists i :: 0 <= i < n - 1 && Exposes(displays, displays[i], edge, b, c)
      {
        var i :| 0 <= i < n - 1 && Exposes(displays, displays[i], edge, b, c);
        ExposerHasPixel(displays, displays[i], edge, b, c);
        ExposerHasPixel(displays, displays[n - 1], edge, b, c);
        assert false;
      }
    }
  }

  lemma ExposerHasPixel(displays: seq<DisplayRect>, d: DisplayRect, edge: ScreenEdge, b: int, c: int)
    requires d.Sized() && Exposes(displays, d, edge, b, c)
    ensures d.Contains(Pixel(edge, Inside(edge, b), c))
  {
    InsidePixel(d, edge, c);
  }

  // The list names exactly the exposed edge pixels, each once.
  lemma ListedIsOnEdge(displays: seq<DisplayRect>, edge: ScreenEdge, b: int, c: int)
    requires Apart(displays)
    ensures Times(OuterEdgeSegments(displays, edge), b, c) == if OnEdge(displays, edge, b, c) then 1 else 0
  {
    hide OuterEdgeSegments, Times, Exposes, Apart, DisplayRect.Boundary, DisplayRect.Spans, DisplayRect.Contains;
    SweepIsExact(displays, edge, b, c);
    AtMostOneExposes(displays, |displays|, edge, b, c);
    assert displays[..|displays|] == displays;
    if OnEdge(displays, edge, b, c) {
      var i :| 0 <= i < |displays| && displays[i].Boundary(edge) == b && displays[i].Spans(edge, c);
      ExposesIsOnEdge(displays, i, edge, b, c);
      assert Exposes(displays, displays[i], edge, b, c);
    } else if exists i :: 0 <= i < |displays| && Exposes(displays, displays[i], edge, b, c) {
      var i :| 0 <= i < |displays| && Exposes(displays, displays[i], edge, b, c);
      ExposesIsOnEdge(displays, i, edge, b, c);
    }
  }

  // ---------- Layouts with overlap ----------

  lemma PixelIsReached(d: DisplayRect, edge: ScreenEdge, a: int, c: int)
    ensures d.Contains(Pixel(edge, a, c)) <==> d.Reaches(edge, a) && d.Spans(edge, c)
  {}

  lemma {:induction false} ListedHasExposer(displays: seq<DisplayRect>, n: nat, edge: ScreenEdge, b: int, c: int)
    requires n <= |displays|
    ensures Exposers(displays, displays[..n], edge, b, c) > 0 <==> exists k :: 0 <= k < n && Exposes(displays, displays[k], edge, b, c)
  {
    hide Exposes;
    if n > 0 {
      ListedHasExposer(displays, n - 1, edge, b, c);
      assert displays[..n][..n - 1] == displays[..n - 1];
    }
  }

  // At c, d ends at its right or bottom edge inside displays that begin where it begins, and inside no others.
  ghost predicate Concealed(displays: seq<DisplayRect>, d: DisplayRect, edge: ScreenEdge, c: int) {
    !edge.Near() && d.Spans(edge, c) &&
    (exists i :: 0 <= i < |displays| && displays[i].Spans(edge, c) &&
      displays[i].AcrossLow(edge) == d.AcrossLow(edge) && displays[i].AcrossHigh(edge) > d.AcrossHigh(edge)) &&
    (forall i :: 0 <= i < |displays| && displays[i].Spans(edge, c) && displays[i].Reaches(edge, d.AcrossHigh(edge)) ==>
      displays[i].AcrossLow(edge) == d.AcrossLow(edge))
  }

  // A display exposes a pixel exactly when the pixel is at the edge of the screen or the display is concealed there.
  lemma ExposesOrConcealed(displays: seq<DisplayRect>, k: nat, edge: ScreenEdge, b: int, c: int)
    requires k < |displays| && displays[k].Sized() && displays[k].Boundary(edge) == b && displays[k].Spans(edge, c)
    ensures Exposes(displays, displays[k], edge, b, c) <==> OnEdge(displays, edge, b, c) || Concealed(displays, displays[k], edge, c)
    ensures !(OnEdge(displays, edge, b, c) && Concealed(displays, displays[k], edge, c))
  {
    hide DisplayRect.Contains, Pixel, DisplayRect.Spans;
    var d := displays[k];
    SizedSides(d, edge);
    forall i | 0 <= i < |displays|
      ensures displays[i].Contains(Pixel(edge, Outside(edge, b), c)) <==>
        displays[i].Reaches(edge, Outside(edge, b)) && displays[i].Spans(edge, c)
    {
      PixelIsReached(displays[i], edge, Outside(edge, b), c);
    }
    if Concealed(displays, d, edge, c) {
      var e: nat :| e < |displays| && displays[e].Spans(edge, c) &&
        displays[e].AcrossLow(edge) == d.AcrossLow(edge) && displays[e].AcrossHigh(edge) > d.AcrossHigh(edge);
      assert displays[e].Contains(Pixel(edge, Outside(edge, b), c));
    }
  }

  // For every layout, overlapping displays included, a pixel is listed if and only if it is at the edge of the screen, except
  // exactly where a display that ends there is concealed.
  lemma ListingIsWrongWhereConcealed(displays: seq<DisplayRect>, edge: ScreenEdge, b: int, c: int)
    requires forall i :: 0 <= i < |displays| ==> displays[i].Sized()
    ensures
      (Times(OuterEdgeSegments(displays, edge), b, c) > 0 <==> OnEdge(displays, edge, b, c)) <==>
      !exists k :: 0 <= k < |displays| && displays[k].Boundary(edge) == b && Concealed(displays, displays[k], edge, c)
    // The error is always an extra pixel, never a lost one.
    ensures OnEdge(displays, edge, b, c) ==> Times(OuterEdgeSegments(displays, edge), b, c) > 0
  {
    hide OuterEdgeSegments, Times, Exposers, Exposes, Concealed, OnEdge, DisplayRect.Boundary, DisplayRect.Spans;
    SweepIsExact(displays, edge, b, c);
    ListedHasExposer(displays, |displays|, edge, b, c);
    assert displays[..|displays|] == displays;
    if OnEdge(displays, edge, b, c) {
      EdgeHasDisplay(displays, edge, b, c);
    }
    forall k | 0 <= k < |displays|
      ensures Exposes(displays, displays[k], edge, b, c) <==>
        displays[k].Boundary(edge) == b && displays[k].Spans(edge, c) &&
        (OnEdge(displays, edge, b, c) || Concealed(displays, displays[k], edge, c))
      ensures displays[k].Boundary(edge) == b && Concealed(displays, displays[k], edge, c) ==>
        displays[k].Spans(edge, c) && !OnEdge(displays, edge, b, c)
    {
      ExposerSpans(displays, displays[k], edge, b, c);
      if displays[k].Boundary(edge) == b && displays[k].Spans(edge, c) {
        ExposesOrConcealed(displays, k, edge, b, c);
      }
    }
  }

  lemma EdgeHasDisplay(displays: seq<DisplayRect>, edge: ScreenEdge, b: int, c: int)
    requires OnEdge(displays, edge, b, c)
    ensures exists k :: 0 <= k < |displays| && displays[k].Boundary(edge) == b && displays[k].Spans(edge, c)
  {}

  lemma ExposerSpans(displays: seq<DisplayRect>, d: DisplayRect, edge: ScreenEdge, b: int, c: int)
    ensures Exposes(displays, d, edge, b, c) ==> d.Boundary(edge) == b && d.Spans(edge, c)
    ensures Concealed(displays, d, edge, c) ==> d.Spans(edge, c) && !edge.Near()
  {}

  // Left and top edges are listed exactly, whatever overlaps.
  lemma NearEdgesAreExact(displays: seq<DisplayRect>, edge: ScreenEdge, b: int, c: int)
    requires forall i :: 0 <= i < |displays| ==> displays[i].Sized()
    requires edge.Near()
    ensures Times(OuterEdgeSegments(displays, edge), b, c) > 0 <==> OnEdge(displays, edge, b, c)
  {
    hide OuterEdgeSegments, Times, OnEdge, Concealed;
    ListingIsWrongWhereConcealed(displays, edge, b, c);
    forall k | 0 <= k < |displays|
      ensures !Concealed(displays, displays[k], edge, c)
    {
      ExposerSpans(displays, displays[k], edge, b, c);
    }
  }

  // With overlap the exception can list a pixel that is not at the edge of the screen: the narrower of two displays that begin
  // together keeps its right edge.
  lemma OverlapIsListed()
    ensures
      var displays := [DisplayRect(0, 0, 1, 1), DisplayRect(0, 0, 2, 1)];
      Times(OuterEdgeSegments(displays, Right), 1, 0) == 1 && !OnEdge(displays, Right, 1, 0)
  {
    hide OuterEdgeSegments, Times;
    var displays := [DisplayRect(0, 0, 1, 1), DisplayRect(0, 0, 2, 1)];
    SweepIsExact(displays, Right, 1, 0);
    assert displays[..1] == [displays[0]];
    assert Exposers([displays[0]][..0], [displays[0]][..0], Right, 1, 0) == 0;
    assert displays[1].Contains(Pixel(Right, Outside(Right, 1), 0));
  }

  // ---------- The loops ----------

  method BlockedIntervals(displays: seq<DisplayRect>, display: DisplayRect, edge: ScreenEdge) returns (blocked: seq<EdgeSegment>)
    ensures blocked == Blocked(displays, display, edge)
  {
    hide Blocks, Overlap;
    blocked := [];
    for i := 0 to |displays|
      invariant blocked == Blocked(displays[..i], display, edge)
    {
      assert displays[..i + 1][..i] == displays[..i];
      if Blocks(displays[i], display, edge) {
        blocked := blocked + [Overlap(displays[i], display, edge)];
      }
    }
    assert displays[..|displays|] == displays;
  }

  method SweepDisplay(displays: seq<DisplayRect>, display: DisplayRect, edge: ScreenEdge) returns (segments: seq<EdgeSegment>)
    ensures segments == Exposed(displays, display, edge)
  {
    hide Blocked, Sorted;
    var blocked := BlockedIntervals(displays, display, edge);
    blocked := Sorted(blocked);
    segments := SweepGaps(display.AlongLow(edge), blocked, display.AlongHigh(edge), display.Boundary(edge));
  }

  method SweepGaps(start: int, blocked: seq<EdgeSegment>, end: int, boundary: int) returns (segments: seq<EdgeSegment>)
    ensures segments == Gaps(start, blocked, end, boundary)
  {
    hide Gaps;
    var cursor := start;
    segments := [];
    assert blocked[0..] == blocked;
    for i := 0 to |blocked|
      invariant segments + Gaps(cursor, blocked[i..], end, boundary) == Gaps(start, blocked, end, boundary)
    {
      GapsFrom(cursor, blocked, i, end, boundary);
      if cursor < blocked[i].start {
        segments := segments + [EdgeSegment(cursor, blocked[i].start, boundary)];
      }
      cursor := Max(cursor, blocked[i].end);
    }
    assert blocked[|blocked|..] == [] && segments + [] == segments;
    LastGap(cursor, end, boundary);
    if cursor < end {
      segments := segments + [EdgeSegment(cursor, end, boundary)];
    }
  }

  lemma GapsFrom(cursor: int, blocked: seq<EdgeSegment>, i: nat, end: int, boundary: int)
    requires i < |blocked|
    ensures
      var rest := Gaps(Max(cursor, blocked[i].end), blocked[i + 1..], end, boundary);
      Gaps(cursor, blocked[i..], end, boundary) ==
      if cursor < blocked[i].start then [EdgeSegment(cursor, blocked[i].start, boundary)] + rest else rest
  {
    assert blocked[i..][1..] == blocked[i + 1..] && blocked[i..][0] == blocked[i];
    var rest := Gaps(Max(cursor, blocked[i].end), blocked[i + 1..], end, boundary);
    assert [] + rest == rest;
  }

  lemma LastGap(cursor: int, end: int, boundary: int)
    ensures Gaps(cursor, [], end, boundary) == if cursor < end then [EdgeSegment(cursor, end, boundary)] else []
  {}

  lemma NothingMerged()
    ensures Merged([]) == []
  {}

  lemma MergedNext(segments: seq<EdgeSegment>, i: nat)
    requires i < |segments|
    ensures Merged(segments[..i + 1]) == Joined(Merged(segments[..i]), segments[i])
  {
    assert segments[..i + 1][..i] == segments[..i];
  }

  method MergeTouching(segments: seq<EdgeSegment>) returns (merged: seq<EdgeSegment>)
    ensures merged == Merged(segments)
  {
    hide Merged;
    merged := [];
    NothingMerged();
    for i := 0 to |segments|
      invariant merged == Merged(segments[..i])
    {
      MergedNext(segments, i);
      var segment, n := segments[i], |merged|;
      if n > 0 && merged[n - 1].end == segment.start && merged[n - 1].boundary == segment.boundary {
        merged := merged[..n - 1] + [merged[n - 1].(end := segment.end)];
      } else {
        merged := merged + [segment];
      }
    }
    assert segments[..|segments|] == segments;
  }

  method OuterEdges(displays: seq<DisplayRect>, edge: ScreenEdge) returns (merged: seq<EdgeSegment>)
    ensures merged == OuterEdgeSegments(displays, edge)
  {
    hide Exposed, Sorted, Merged;
    var segments := [];
    for i := 0 to |displays|
      invariant segments == AllExposed(displays, displays[..i], edge)
    {
      assert displays[..i + 1][..i] == displays[..i];
      var exposed := SweepDisplay(displays, displays[i], edge);
      segments := segments + exposed;
    }
    assert displays[..|displays|] == displays;
    segments := Sorted(segments);
    merged := MergeTouching(segments);
  }
}
