/** Moving the cursor: a target off the screen is replaced by the nearest point of a display. */
module Movement {

  import opened Geometry

  const I64_MAX: int := 0x7FFF_FFFF_FFFF_FFFF

  function Square(x: int): (r: int)
    ensures r >= 0
  {
    x * x
  }

  function Distance2(p: Point, q: Point): nat {
    Square(p.x - q.x) + Square(p.y - q.y)
  }

  // The key that is compared: products and sum stop at the largest 64-bit number.
  function Key(p: Point, q: Point): int {
    Min(Min(Square(p.x - q.x), I64_MAX) + Min(Square(p.y - q.y), I64_MAX), I64_MAX)
  }

  function Clamp(x: int, low: int, high: int): int {
    if x < low then low else if x > high then high else x
  }

  function Clamped(d: DisplayRect, target: Point): Point {
    Point(Clamp(target.x, d.x, d.RightSide() - 1), Clamp(target.y, d.y, d.BottomSide() - 1))
  }

  // The first candidate with the least key.
  function Closest(displays: seq<DisplayRect>, target: Point): Point
    requires displays != []
  {
    var n := |displays| - 1;
    if n == 0 then Clamped(displays[0], target) else
      var best, candidate := Closest(displays[..n], target), Clamped(displays[n], target);
      if Key(candidate, target) < Key(best, target) then candidate else best
  }

  function MovedTarget(point: Point, dx: i32, dy: i32): Point
    requires I32_MIN <= point.x <= I32_MAX && I32_MIN <= point.y <= I32_MAX
  {
    Point(SaturatingAdd(point.x, dx), SaturatingAdd(point.y, dy))
  }

  function MoveWithinLayout(displays: seq<DisplayRect>, point: Point, dx: i32, dy: i32): Point
    requires I32_MIN <= point.x <= I32_MAX && I32_MIN <= point.y <= I32_MAX
  {
    var target := MovedTarget(point, dx, dy);
    if exists i :: 0 <= i < |displays| && displays[i].Contains(target) then target
    else if displays == [] then point else Closest(displays, target)
  }

  ghost predicate OnScreen(displays: seq<DisplayRect>, p: Point) {
    exists i :: 0 <= i < |displays| && displays[i].Contains(p)
  }

  // p is on screen and no point on screen is closer to the target.
  ghost predicate IsNearest(displays: seq<DisplayRect>, p: Point, target: Point) {
    OnScreen(displays, p) && forall q: Point :: OnScreen(displays, q) ==> Distance2(p, target) <= Distance2(q, target)
  }

  lemma KeySaturates(p: Point, q: Point)
    ensures Key(p, q) == Min(Distance2(p, q), I64_MAX)
  {
    hide Square;
    SquareNat(p.x - q.x);
    SquareNat(p.y - q.y);
  }

  lemma SquareNat(x: int)
    ensures Square(x) >= 0
  {}

  lemma SquareGrows(a: int, b: int)
    requires 0 <= a <= b || b <= a <= 0
    ensures Square(a) <= Square(b)
  {
    if 0 <= a {
      assert b * b - a * a == (b - a) * (b + a);
      assert (b - a) * (b + a) >= 0;
    } else {
      assert b * b - a * a == (a - b) * (-a - b);
      assert (a - b) * (-a - b) >= 0;
    }
  }

  // Clamping gives the nearest point of one display.
  lemma ClampedIsNearest(d: DisplayRect, target: Point, q: Point)
    requires d.Sized() && d.Contains(q)
    ensures d.Contains(Clamped(d, target)) && Distance2(Clamped(d, target), target) <= Distance2(q, target)
  {
    hide Square;
    var p := Clamped(d, target);
    SquareGrows(p.x - target.x, q.x - target.x);
    SquareGrows(p.y - target.y, q.y - target.y);
  }

  // The chosen candidate has the least key; when every candidate's key is at the limit it is the first display's.
  lemma {:induction false} ClosestIsLeast(displays: seq<DisplayRect>, target: Point)
    requires displays != []
    ensures exists k :: 0 <= k < |displays| && Closest(displays, target) == Clamped(displays[k], target)
    ensures forall i :: 0 <= i < |displays| ==> Key(Closest(displays, target), target) <= Key(Clamped(displays[i], target), target)
    ensures Key(Closest(displays, target), target) == I64_MAX ==> Closest(displays, target) == Clamped(displays[0], target)
  {
    hide Key, Clamped;
    var n := |displays| - 1;
    if n == 0 {
      assert Closest(displays, target) == Clamped(displays[0], target);
    } else {
      ClosestIsLeast(displays[..n], target);
      var k :| 0 <= k < n && Closest(displays[..n], target) == Clamped(displays[..n][k], target);
      assert Closest(displays, target) in {Clamped(displays[k], target), Clamped(displays[n], target)};
      assert forall i :: 0 <= i < n ==> displays[..n][i] == displays[i];
      KeySaturates(Clamped(displays[n], target), target);
      KeySaturates(Closest(displays[..n], target), target);
    }
  }

  // The k-th display's candidate is no farther than any other display's: a check on the displays alone.
  predicate LeadsCandidates(displays: seq<DisplayRect>, k: nat, target: Point)
    requires k < |displays|
  {
    forall i :: 0 <= i < |displays| ==>
      Distance2(Clamped(displays[k], target), target) <= Distance2(Clamped(displays[i], target), target)
  }

  // A candidate is nearest among all points on screen exactly when it leads the candidates.
  lemma LeadingIsNearest(displays: seq<DisplayRect>, k: nat, target: Point)
    requires k < |displays| && forall i :: 0 <= i < |displays| ==> displays[i].Sized()
    ensures IsNearest(displays, Clamped(displays[k], target), target) <==> LeadsCandidates(displays, k, target)
  {
    hide Clamped, Distance2, DisplayRect.Contains, DisplayRect.Sized;
    forall i | 0 <= i < |displays|
      ensures displays[i].Contains(Clamped(displays[i], target))
    {
      ClampedIsOnDisplay(displays[i], target);
    }
    if LeadsCandidates(displays, k, target) {
      forall q: Point | OnScreen(displays, q)
        ensures Distance2(Clamped(displays[k], target), target) <= Distance2(q, target)
      {
        var j :| 0 <= j < |displays| && displays[j].Contains(q);
        ClampedIsNearest(displays[j], target, q);
      }
    } else {
      var i :| 0 <= i < |displays| &&
        Distance2(Clamped(displays[k], target), target) > Distance2(Clamped(displays[i], target), target);
      assert OnScreen(displays, Clamped(displays[i], target));
    }
  }

  lemma ClampedIsOnDisplay(d: DisplayRect, target: Point)
    requires d.Sized()
    ensures d.Contains(Clamped(d, target))
  {}

  // The target is the point moved in both directions, stopped at the ends of the number range. A target on screen is kept, and
  // the result is always on screen. Off screen, the result is a nearest point on screen exactly when some candidate's squared
  // distance is below the 64-bit limit, or the first display's candidate leads them.
  lemma MovingFindsNearest(displays: seq<DisplayRect>, point: Point, dx: i32, dy: i32)
    requires displays != [] && forall i :: 0 <= i < |displays| ==> displays[i].Sized()
    requires I32_MIN <= point.x <= I32_MAX && I32_MIN <= point.y <= I32_MAX
    ensures
      var target := Point(Clamp(point.x + dx, I32_MIN, I32_MAX), Clamp(point.y + dy, I32_MIN, I32_MAX));
      var r := MoveWithinLayout(displays, point, dx, dy);
      OnScreen(displays, r) && (OnScreen(displays, target) ==> r == target) &&
      (!OnScreen(displays, target) ==>
        (IsNearest(displays, r, target) <==>
         (exists i :: 0 <= i < |displays| && Distance2(Clamped(displays[i], target), target) < I64_MAX) ||
         LeadsCandidates(displays, 0, target)))
  {
    hide Key, Clamped, Distance2, DisplayRect.Contains, Closest, DisplayRect.Sized, IsNearest, LeadsCandidates;
    var target := MovedTarget(point, dx, dy);
    if !OnScreen(displays, target) {
      ClosestIsOnScreen(displays, target);
      ClosestIsNearest(displays, target);
    }
  }

  lemma ClosestIsNearest(displays: seq<DisplayRect>, target: Point)
    requires displays != [] && forall i :: 0 <= i < |displays| ==> displays[i].Sized()
    ensures IsNearest(displays, Closest(displays, target), target) <==>
      (exists i :: 0 <= i < |displays| && Distance2(Clamped(displays[i], target), target) < I64_MAX) ||
      LeadsCandidates(displays, 0, target)
  {
    hide Key, Clamped, Distance2, DisplayRect.Sized, Closest, IsNearest;
    ClosestIsLeast(displays, target);
    var k: nat :| k < |displays| && Closest(displays, target) == Clamped(displays[k], target);
    LeadingIsNearest(displays, k, target);
    LeadingIsNearest(displays, 0, target);
    forall i | 0 <= i < |displays|
      ensures Key(Clamped(displays[i], target), target) == Min(Distance2(Clamped(displays[i], target), target), I64_MAX)
    {
      KeySaturates(Clamped(displays[i], target), target);
    }
    if i :| 0 <= i < |displays| && Distance2(Clamped(displays[i], target), target) < I64_MAX {
      assert Key(Clamped(displays[k], target), target) <= Key(Clamped(displays[i], target), target) < I64_MAX;
    } else {
      assert Key(Closest(displays, target), target) == I64_MAX;
    }
  }

  lemma ClosestIsOnScreen(displays: seq<DisplayRect>, target: Point)
    requires displays != [] && forall i :: 0 <= i < |displays| ==> displays[i].Sized()
    ensures OnScreen(displays, Closest(displays, target))
  {
    hide Key, Closest;
    ClosestIsLeast(displays, target);
    var k :| 0 <= k < |displays| && Closest(displays, target) == Clamped(displays[k], target);
    assert displays[k].Contains(Clamped(displays[k], target));
  }

  // Two displays that are both too far away for 64 bits tie, and the first one wins although the second is nearer.
  lemma FarTargetsTie()
    ensures
      var displays := [DisplayRect(I32_MIN, I32_MIN, 1, 1), DisplayRect(I32_MIN, 0, 1, 1)];
      var corner := Point(I32_MAX, I32_MAX);
      MoveWithinLayout(displays, corner, 0, 0) == Point(I32_MIN, I32_MIN) &&
      !IsNearest(displays, MoveWithinLayout(displays, corner, 0, 0), corner)
  {
    hide Square, Key;
    var displays := [DisplayRect(I32_MIN, I32_MIN, 1, 1), DisplayRect(I32_MIN, 0, 1, 1)];
    var corner, first, second := Point(I32_MAX, I32_MAX), Point(I32_MIN, I32_MIN), Point(I32_MIN, 0);
    assert displays[..1] == [displays[0]];
    assert Clamped(displays[0], corner) == first && Clamped(displays[1], corner) == second;
    FarSquares();
    KeySaturates(first, corner);
    KeySaturates(second, corner);
    assert Closest([displays[0]], corner) == first;
    assert displays[1].Contains(second);
  }

  lemma FarSquares()
    ensures Square(-0xFFFF_FFFF) == 0xFFFF_FFFE_0000_0001 && Square(-0x7FFF_FFFF) == 0x3FFF_FFFF_0000_0001
  {}
}
