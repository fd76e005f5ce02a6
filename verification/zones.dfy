/** Where one box lies relative to another, judged from the centres of their rectangles, and
    whether two boxes face each other closely enough to be joined by one straight segment. */
module Zones {
  import opened Geometry
  import opened Lists

  /** The diagonal quadrant of `zone_of`. */
  datatype Quadrant = NorthEast | NorthWest | SouthWest | SouthEast

  /** The compass labels of `zone` (and of a box's preferred self-loop side). */
  datatype Compass = North | South | East | West

  /** Horizontal offset from the centre of r1 to the centre of r2. */
  function CentreDx(r1: Rect, r2: Rect): real { MidX(r2) - MidX(r1) }

  /** Vertical offset from the centre of r1 to the centre of r2 (positive: r2 is lower). */
  function CentreDy(r1: Rect, r2: Rect): real { MidY(r2) - MidY(r1) }

  /** `zone_of(box1, box2)`: the quadrant of box2's centre seen from box1's centre. The
      comparisons are non-strict and tried in the order NE, NW, SW, so each boundary
      line belongs to the first quadrant that accepts it; coinciding centres give NorthEast. */
  function ZoneOf(r1: Rect, r2: Rect): (q: Quadrant)
    ensures q == NorthEast <==> CentreDx(r1, r2) >= 0.0 && CentreDy(r1, r2) <= 0.0
    ensures q == NorthWest <==> CentreDx(r1, r2) < 0.0 && CentreDy(r1, r2) <= 0.0
    ensures q == SouthWest <==> CentreDx(r1, r2) <= 0.0 && CentreDy(r1, r2) > 0.0
    ensures q == SouthEast <==> CentreDx(r1, r2) > 0.0 && CentreDy(r1, r2) > 0.0
  {
    var c1, c2 := Center(r1), Center(r2);
    if c1.x <= c2.x && c1.y >= c2.y then NorthEast
    else if c1.x >= c2.x && c1.y >= c2.y then NorthWest
    else if c1.x >= c2.x && c1.y <= c2.y then SouthWest
    else SouthEast
  }

  function OppositeQuadrant(q: Quadrant): Quadrant {
    match q
    case NorthEast => SouthWest
    case NorthWest => SouthEast
    case SouthWest => NorthEast
    case SouthEast => NorthWest
  }

  /** Seen from the other box, a box strictly inside a quadrant lies in the opposite one. */
  lemma ZoneOfSwap(r1: Rect, r2: Rect)
    requires CentreDx(r1, r2) != 0.0 && CentreDy(r1, r2) != 0.0
    ensures ZoneOf(r2, r1) == OppositeQuadrant(ZoneOf(r1, r2))
  {
    assert CentreDx(r2, r1) == -CentreDx(r1, r2);
    assert CentreDy(r2, r1) == -CentreDy(r1, r2);
  }

  /** `zone(box1, box2)`: None when the centres coincide (the Python code returns False);
      otherwise the horizontal labels when the centre-to-centre vector is at least as wide
      as it is tall, and the vertical labels when it is taller. The Python code normalises the
      vector and compares |cos| with the square root of one half; over the reals that test
      holds exactly when |dx| >= |dy| (`CosineTest`), which is what is computed here. As in the Python code,
      a target to the right is labelled West and a lower target North. */
  function Zone(r1: Rect, r2: Rect): (z: Option<Compass>)
    ensures z == None <==> Center(r1) == Center(r2)
    ensures z == Some(West) <==> CentreDx(r1, r2) > 0.0 && Abs(CentreDy(r1, r2)) <= CentreDx(r1, r2)
    ensures z == Some(East) <==> CentreDx(r1, r2) < 0.0 && Abs(CentreDy(r1, r2)) <= -CentreDx(r1, r2)
    ensures z == Some(North) <==> CentreDy(r1, r2) > 0.0 && Abs(CentreDx(r1, r2)) < CentreDy(r1, r2)
    ensures z == Some(South) <==> CentreDy(r1, r2) < 0.0 && Abs(CentreDx(r1, r2)) < -CentreDy(r1, r2)
  {
    var dx, dy := CentreDx(r1, r2), CentreDy(r1, r2);
    if dx == 0.0 && dy == 0.0 then None
    else if Abs(dx) >= Abs(dy) then (if dx >= 0.0 then Some(West) else Some(East))
    else if dy >= 0.0 then Some(North)
    else Some(South)
  }

  /** The test of the Python code, |cos| >= sqrt(2) / 2 with cos = dx / d and d the length
      of the offset, holds over the reals exactly when |dx| >= |dy|, the test `Zone` makes. */
  lemma CosineTest(dx: real, dy: real, d: real, k: real)
    requires d > 0.0 && d * d == dx * dx + dy * dy
    requires k > 0.0 && 2.0 * (k * k) == 1.0
    ensures Abs(dx) / d >= k <==> Abs(dx) >= Abs(dy)
  {
    var ax, ay, kd := Abs(dx), Abs(dy), k * d;
    assert ax * ax == dx * dx && ay * ay == dy * dy;
    assert ax / d >= k <==> ax >= kd by {
      assert (ax / d) * d == ax;
      if ax / d >= k {
        ProductOrder(k, ax / d, d);
      } else {
        ProductOrder(ax / d, k, d);
      }
    }
    assert 2.0 * (kd * kd) == d * d by {
      assert kd * kd == (k * k) * (d * d);
    }
    SquareOrder(ax, kd);
    SquareOrder(ax, ay);
  }

  function OppositeCompass(c: Compass): Compass {
    match c
    case North => South
    case South => North
    case East => West
    case West => East
  }

  /** Swapping the two boxes turns every compass label into its opposite. */
  lemma ZoneSwap(r1: Rect, r2: Rect)
    ensures Zone(r2, r1) == if Zone(r1, r2) == None then None else Some(OppositeCompass(Zone(r1, r2).value))
  {
    assert CentreDx(r2, r1) == -CentreDx(r1, r2);
    assert CentreDy(r2, r1) == -CentreDy(r1, r2);
  }

  /** The two classifiers agree: a West (target to the right) result lies in an eastern
      quadrant, a North (target lower) result in a southern one, and so on. */
  lemma ZoneWithinQuadrant(r1: Rect, r2: Rect)
    ensures Zone(r1, r2) == Some(West) ==> ZoneOf(r1, r2) in {NorthEast, SouthEast}
    ensures Zone(r1, r2) == Some(East) ==> ZoneOf(r1, r2) in {NorthWest, SouthWest}
    ensures Zone(r1, r2) == Some(North) ==> ZoneOf(r1, r2) in {SouthWest, SouthEast}
    ensures Zone(r1, r2) == Some(South) ==> ZoneOf(r1, r2) in {NorthEast, NorthWest}
  {
  }

  /** `min` of a non-empty list of numbers. */
  function MinOf(s: seq<real>): (m: real)
    requires |s| > 0
    ensures m in s && forall i :: 0 <= i < |s| ==> m <= s[i]
  {
    if |s| == 1 then s[0]
    else
      var rest := MinOf(s[1..]);
      if s[0] <= rest then s[0] else rest
  }

  /** `max` of a non-empty list of numbers. */
  function MaxOf(s: seq<real>): (m: real)
    requires |s| > 0
    ensures m in s && forall i :: 0 <= i < |s| ==> s[i] <= m
  {
    if |s| == 1 then s[0]
    else
      var rest := MaxOf(s[1..]);
      if s[0] >= rest then s[0] else rest
  }

  /** `list.remove(v)`: drop the first occurrence of v. */
  function RemoveFirst(s: seq<real>, v: real): (r: seq<real>)
    requires v in s
    ensures |r| == |s| - 1
    ensures forall x | x in r :: x in s
  {
    assert s == [s[0]] + s[1..];
    if s[0] == v then s[1..]
    else [s[0]] + RemoveFirst(s[1..], v)
  }

  /** The projection of r on the coordinate that varies along `axis`'s cross direction:
      for Horizontal the y-extent (indices 1 and 3 of the rectangle), otherwise the x-extent. */
  function Extent(r: Rect, axis: Axis): (real, real) {
    if axis == Horizontal then (r.y1, r.y2) else (r.x1, r.x2)
  }

  function Max(a: real, b: real): real { if a >= b then a else b }

  function Min(a: real, b: real): real { if a <= b then a else b }

  /** `acceptance_zone(box1, box2, axis)`: compares the two boxes' projections on the
      cross direction of `axis`. */
  function AcceptanceZone(r1: Rect, r2: Rect, axis: Axis): (acc: Option<(real, real)>)
    ensures acc.Some? ==> Extent(r1, axis).0 <= acc.value.0 <= acc.value.1 <= Extent(r1, axis).1
    ensures acc.Some? ==> Extent(r2, axis).0 <= acc.value.0 <= acc.value.1 <= Extent(r2, axis).1
  {
    var (lo1, hi1) := Extent(r1, axis);
    var (lo2, hi2) := Extent(r2, axis);
    CommonInterval(lo1, hi1, lo2, hi2)
  }

  /** The body of `acceptance_zone` once the two intervals are known: when both are proper,
      the two middle end values form the answer if they lie inside both intervals,
      otherwise there is none. */
  function CommonInterval(lo1: real, hi1: real, lo2: real, hi2: real): (r: Option<(real, real)>)
    ensures r.Some? ==> lo1 < hi1 && lo2 < hi2
    ensures r.Some? ==> lo1 <= r.value.0 <= r.value.1 <= hi1 && lo2 <= r.value.0 <= r.value.1 <= hi2
  {
    if lo1 < hi1 && lo2 < hi2 then
      var x := Middle([lo1, hi1, lo2, hi2]);
      var a, b := MinOf(x), MaxOf(x);
      assert a <= x[0] <= b;
      if a >= lo1 && b <= hi1 && a >= lo2 && b <= hi2 then Some((a, b)) else None
    else None
  }

  /** `x.remove(min(x))` followed by `x.remove(max(x))`. */
  function Middle(x: seq<real>): (r: seq<real>)
    requires |x| >= 2
    ensures |r| == |x| - 2
  {
    var x' := RemoveFirst(x, MinOf(x));
    RemoveFirst(x', MaxOf(x'))
  }

  lemma DropLowest(lo1: real, hi1: real, lo2: real, hi2: real)
    requires lo1 < hi1 && lo2 < hi2
    ensures var x := [lo1, hi1, lo2, hi2];
            RemoveFirst(x, MinOf(x)) == if lo1 <= lo2 then [hi1, lo2, hi2] else [lo1, hi1, hi2]
  {
    var x := [lo1, hi1, lo2, hi2];
    assert x[1..] == [hi1, lo2, hi2] && x[1..][1..] == [lo2, hi2] && x[1..][1..][1..] == [hi2];
    assert MinOf([lo2, hi2]) == lo2;
    assert MinOf([hi1, lo2, hi2]) == Min(hi1, lo2);
    if lo1 <= lo2 {
      assert MinOf(x) == lo1;
    } else {
      assert MinOf(x) == lo2;
      assert RemoveFirst([lo2, hi2], lo2) == [hi2];
      assert RemoveFirst([hi1, lo2, hi2], lo2) == [hi1, hi2];
    }
  }

  lemma DropHighest(a: real, b: real, c: real)
    ensures var x := [a, b, c];
            RemoveFirst(x, MaxOf(x)) ==
              if a >= b && a >= c then [b, c] else if b >= c then [a, c] else [a, b]
  {
    var x := [a, b, c];
    assert x[1..] == [b, c] && x[1..][1..] == [c];
  }

  /** After removing the smallest and then the largest of the four end values of two proper
      intervals, the two values left are the larger lower end and the smaller upper end. */
  lemma MiddleOfFour(lo1: real, hi1: real, lo2: real, hi2: real)
    requires lo1 < hi1 && lo2 < hi2
    ensures var x := Middle([lo1, hi1, lo2, hi2]);
            x == [Max(lo1, lo2), Min(hi1, hi2)] || x == [Min(hi1, hi2), Max(lo1, lo2)]
  {
    DropLowest(lo1, hi1, lo2, hi2);
    if lo1 <= lo2 {
      DropHighest(hi1, lo2, hi2);
    } else {
      DropHighest(lo1, hi1, hi2);
    }
  }

  /** The common interval is the intersection of the two intervals, present exactly when
      both are proper and they overlap (touching counts): then it is (max of the lower ends,
      min of the upper ends), which lies inside both. */
  lemma {:induction false} CommonIntervalIsOverlap(lo1: real, hi1: real, lo2: real, hi2: real)
    ensures CommonInterval(lo1, hi1, lo2, hi2) ==
              if lo1 < hi1 && lo2 < hi2 && Max(lo1, lo2) <= Min(hi1, hi2)
              then Some((Max(lo1, lo2), Min(hi1, hi2)))
              else None
  {
    if lo1 < hi1 && lo2 < hi2 {
      MiddleBounds(lo1, hi1, lo2, hi2);
    }
  }

  /** The two values the Python code keeps are, in order, the smaller and the larger of the
      larger lower end and the smaller upper end. */
  lemma MiddleBounds(lo1: real, hi1: real, lo2: real, hi2: real)
    requires lo1 < hi1 && lo2 < hi2
    ensures var x, lo, hi := Middle([lo1, hi1, lo2, hi2]), Max(lo1, lo2), Min(hi1, hi2);
            MinOf(x) == Min(lo, hi) && MaxOf(x) == Max(lo, hi)
  {
    MiddleOfFour(lo1, hi1, lo2, hi2);
    PairBounds(Middle([lo1, hi1, lo2, hi2]));
  }

  /** The smallest and largest of two numbers. */
  lemma PairBounds(x: seq<real>)
    requires |x| == 2
    ensures MinOf(x) == Min(x[0], x[1]) && MaxOf(x) == Max(x[0], x[1])
  {
    assert x[1..] == [x[1]];
  }

  /** The overlap of the two boxes' projections on the cross direction of `axis`, present
      when both projections are proper intervals and they meet (touching counts). */
  function Overlap(r1: Rect, r2: Rect, axis: Axis): Option<(real, real)> {
    var (lo1, hi1) := Extent(r1, axis);
    var (lo2, hi2) := Extent(r2, axis);
    if lo1 < hi1 && lo2 < hi2 && Max(lo1, lo2) <= Min(hi1, hi2) then Some((Max(lo1, lo2), Min(hi1, hi2))) else None
  }

  /** The acceptance zone on an axis is the overlap of the two boxes' projections. */
  lemma AcceptanceZoneIsOverlap(r1: Rect, r2: Rect, axis: Axis)
    ensures AcceptanceZone(r1, r2, axis) == Overlap(r1, r2, axis)
  {
    var (lo1, hi1) := Extent(r1, axis);
    var (lo2, hi2) := Extent(r2, axis);
    CommonIntervalIsOverlap(lo1, hi1, lo2, hi2);
  }

  /** The overlap lies inside both projections. */
  lemma OverlapInside(r1: Rect, r2: Rect, axis: Axis)
    requires Overlap(r1, r2, axis).Some?
    ensures var (lo, hi) := Overlap(r1, r2, axis).value;
            && Extent(r1, axis).0 <= lo <= hi <= Extent(r1, axis).1
            && Extent(r2, axis).0 <= lo <= hi <= Extent(r2, axis).1
  {
  }

  /** The overlap does not depend on the order of the boxes. */
  lemma OverlapSymmetric(r1: Rect, r2: Rect, axis: Axis)
    ensures Overlap(r1, r2, axis) == Overlap(r2, r1, axis)
  {
  }

  /** The acceptance zone does not depend on which box is the source. */
  lemma AcceptanceZoneSymmetric(r1: Rect, r2: Rect, axis: Axis)
    ensures AcceptanceZone(r1, r2, axis) == AcceptanceZone(r2, r1, axis)
  {
    AcceptanceZoneIsOverlap(r1, r2, axis);
    AcceptanceZoneIsOverlap(r2, r1, axis);
    OverlapSymmetric(r1, r2, axis);
  }
}
