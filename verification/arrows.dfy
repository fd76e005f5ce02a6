/** `classic_arrow`: the three-point elbow drawn when neither a direct segment nor an
    inner route applies. The transitions leaving a box towards one quadrant share an edge
    of the box; they are ordered by the distance from a corner of the box to their target
    and spread evenly along that edge by rank. */
module Arrows {
  import opened Geometry
  import opened Lists
  import opened Zones
  import opened Diagram
  import opened Spacing

  /** The target lies to the west (zone_of says northwest or southwest). */
  predicate Westward(q: Quadrant) {
    q == NorthWest || q == SouthWest
  }

  /** The target lies to the north (zone_of says northeast or northwest). */
  predicate Northward(q: Quadrant) {
    q == NorthEast || q == NorthWest
  }

  /** The corner of the source box the sort key measures from: the corner facing the
      quadrant. */
  function SourceCorner(q: Quadrant, s: Rect): Point {
    Point(if Westward(q) then s.x1 else s.x2, if Northward(q) then s.y1 else s.y2)
  }

  /** The point of a target box the sort key measures to: the middle of its side facing the
      source, the right or left side under a horizontal parent and the bottom or top side
      under a vertical one. */
  function TargetAnchor(axis: Axis, q: Quadrant, r: Rect): Point {
    match axis
    case Horizontal => Point(if Westward(q) then r.x2 else r.x1, MidY(r))
    case Vertical => Point(MidX(r), if Northward(q) then r.y2 else r.y1)
  }

  /** The boxes a fan is computed over all have a rectangle: the source and the target of
      each of its outgoing transitions. */
  predicate FanDefined(src: Box, rects: map<Box, Rect>) {
    src in rects && forall u | u in src.transitions :: u.target in rects
  }

  /** The sort key of u, squared (the Python code takes its square root, which keeps the
      order). Outside FanDefined the key is never used. */
  function FanKey(u: Transition, src: Rect, rects: map<Box, Rect>, axis: Axis, q: Quadrant): real {
    if u.target in rects then Dist2(SourceCorner(q, src), TargetAnchor(axis, q, rects[u.target])) else 0.0
  }

  /** The outgoing transitions of src whose target lies in quadrant q of it. */
  function InQuadrant(src: Box, rects: map<Box, Rect>, q: Quadrant): set<Transition>
    requires FanDefined(src, rects)
  {
    set u | u in src.transitions && ZoneOf(rects[src], rects[u.target]) == q
  }

  /** `generate_list(zone)` followed by `l.sort(key=...)`: the transitions of src into
      quadrant q, in their order in `src.transitions`, stably sorted by key. */
  function Fan(src: Box, rects: map<Box, Rect>, axis: Axis, q: Quadrant): seq<Transition>
    requires FanDefined(src, rects)
  {
    var s := rects[src];
    SortBy(Select(src.transitions, InQuadrant(src, rects, q)),
           (a: Transition, b: Transition) => FanKey(a, s, rects, axis, q) < FanKey(b, s, rects, axis, q))
  }

  /** The fan holds exactly the transitions of src into the quadrant, ordered by
      non-decreasing key. */
  lemma FanContents(src: Box, rects: map<Box, Rect>, axis: Axis, q: Quadrant)
    requires FanDefined(src, rects)
    ensures var fan := Fan(src, rects, axis, q);
            && (forall u :: u in fan <==> u in src.transitions && ZoneOf(rects[src], rects[u.target]) == q)
            && (forall i, j :: 0 <= i < j < |fan| ==>
                  FanKey(fan[i], rects[src], rects, axis, q) <= FanKey(fan[j], rects[src], rects, axis, q))
  {
    var s := rects[src];
    var lt := (a: Transition, b: Transition) => FanKey(a, s, rects, axis, q) < FanKey(b, s, rects, axis, q);
    var chosen := Select(src.transitions, InQuadrant(src, rects, q));
    var fan := SortBy(chosen, lt);
    assert forall u :: u in fan <==> u in chosen by {
      forall u ensures u in fan <==> u in chosen {
        assert u in fan <==> u in multiset(fan);
        assert u in chosen <==> u in multiset(chosen);
      }
    }
    SortBySorted(chosen, lt);
  }

  /** Classic arrows can be drawn for t: its boxes and those of its siblings have
      rectangles, t is one of its source's transitions (for `l.index`), and the source has
      a parent (whose axis is read). */
  predicate ArrowDefined(t: Transition, rects: map<Box, Rect>) {
    FanDefined(t.source, rects) && t.source.parent != null && t in t.source.transitions
  }

  /** `target_counter` and `target_index`: the size of the fan of t and the first position
      of t in it. */
  function FanSize(t: Transition, rects: map<Box, Rect>): nat
    requires ArrowDefined(t, rects)
  {
    |Fan(t.source, rects, t.source.parent.axis, ZoneOf(rects[t.source], rects[t.target]))|
  }

  function FanRank(t: Transition, rects: map<Box, Rect>): (i: nat)
    requires ArrowDefined(t, rects)
    ensures i < FanSize(t, rects)
    ensures var fan := Fan(t.source, rects, t.source.parent.axis, ZoneOf(rects[t.source], rects[t.target]));
            i < |fan| && fan[i] == t && forall k :: 0 <= k < i ==> fan[k] != t
  {
    var q := ZoneOf(rects[t.source], rects[t.target]);
    var axis := t.source.parent.axis;
    FanContents(t.source, rects, axis, q);
    IndexOf(Fan(t.source, rects, axis, q), t)
  }

  /** The elbow from source s to target r in quadrant q for rank i of n: under a horizontal
      parent, leave through the top or bottom side facing the target at the rank's position
      along it, go vertically to the height of the target's centre, then horizontally to
      the target's facing side; under a vertical parent, leave through the left or right
      side, go horizontally to the target's centre line, then vertically to its facing
      side. The position is counted from the corner facing the quadrant. */
  function Elbow(axis: Axis, s: Rect, r: Rect, q: Quadrant, i: nat, n: nat): seq<Point> {
    match axis
    case Horizontal =>
      var x := Along(s.x1, s.x2, Westward(q), i, n);
      var y := MidY(r);
      [Point(x, if Northward(q) then s.y1 else s.y2), Point(x, y), Point(if Westward(q) then r.x2 else r.x1, y)]
    case Vertical =>
      var y := Along(s.y1, s.y2, Northward(q), i, n);
      var x := MidX(r);
      [Point(if Westward(q) then s.x1 else s.x2, y), Point(x, y), Point(x, if Northward(q) then r.y2 else r.y1)]
  }

  /** Where along its side the elbow leaves the source: x under a horizontal parent, y
      under a vertical one. */
  function ExitOf(axis: Axis, p: seq<Point>): real
    requires |p| > 0
  {
    if axis == Horizontal then p[0].x else p[0].y
  }

  /** Every elbow has one vertical and one horizontal leg, leaves from the source's side
      facing the quadrant and ends on the target's side facing the source. */
  lemma ElbowLegs(axis: Axis, s: Rect, r: Rect, q: Quadrant, i: nat, n: nat)
    ensures var p := Elbow(axis, s, r, q, i, n);
            && |p| == 3 && Orthogonal(p)
            && (axis == Horizontal ==>
                  p[0].x == p[1].x && p[1].y == p[2].y && p[0].y == (if Northward(q) then s.y1 else s.y2))
            && (axis == Vertical ==>
                  p[0].y == p[1].y && p[1].x == p[2].x && p[0].x == (if Westward(q) then s.x1 else s.x2))
            && (Ordered(r) ==> OnBoundary(p[2], r))
  {
  }

  /** The elbow leaves (i + 1) / (n + 1) of the way along the source's side from the corner
      facing the quadrant; for a rank of the fan, that is strictly inside the side of a
      proper box. */
  lemma ElbowExit(axis: Axis, s: Rect, r: Rect, q: Quadrant, i: nat, n: nat)
    ensures var p, k := Elbow(axis, s, r, q, i, n), (i + 1) as real;
            ExitOf(axis, p) == match axis
              case Horizontal =>
                if Westward(q) then s.x1 + k * ((s.x2 - s.x1) / (n + 1) as real)
                else s.x2 - k * ((s.x2 - s.x1) / (n + 1) as real)
              case Vertical =>
                if Northward(q) then s.y1 + k * ((s.y2 - s.y1) / (n + 1) as real)
                else s.y2 - k * ((s.y2 - s.y1) / (n + 1) as real)
    ensures i < n && Proper(s) ==>
              var p := Elbow(axis, s, r, q, i, n);
              && OnBoundary(p[0], s)
              && (axis == Horizontal ==> s.x1 < p[0].x < s.x2)
              && (axis == Vertical ==> s.y1 < p[0].y < s.y2)
  {
    AlongInside(s.x1, s.x2, Westward(q), i, n);
    AlongInside(s.y1, s.y2, Northward(q), i, n);
  }

  /** Of two ranks of the same fan, the lower one leaves nearer the corner facing the
      quadrant. */
  lemma ElbowExitMonotone(axis: Axis, s: Rect, r1: Rect, r2: Rect, q: Quadrant, i: nat, j: nat, n: nat)
    requires i < j && Proper(s)
    ensures var e1, e2 := ExitOf(axis, Elbow(axis, s, r1, q, i, n)), ExitOf(axis, Elbow(axis, s, r2, q, j, n));
            if (axis == Horizontal && Westward(q)) || (axis == Vertical && Northward(q)) then e1 < e2 else e2 < e1
  {
    SpreadMonotone(s.x1, s.x2 - s.x1, i, j, n);
    SpreadMonotone(s.x2, s.x2 - s.x1, i, j, n);
    SpreadMonotone(s.y1, s.y2 - s.y1, i, j, n);
    SpreadMonotone(s.y2, s.y2 - s.y1, i, j, n);
  }

  /** `classic_arrow`: the elbow for the quadrant of the target, at the rank of t in its
      fan. */
  function ClassicArrow(t: Transition, rects: map<Box, Rect>): seq<Point>
    requires ArrowDefined(t, rects)
  {
    var s, r := rects[t.source], rects[t.target];
    Elbow(t.source.parent.axis, s, r, ZoneOf(s, r), FanRank(t, rects), FanSize(t, rects))
  }

  /** Where the classic arrow of t leaves its source. */
  function ExitPosition(t: Transition, rects: map<Box, Rect>): real
    requires ArrowDefined(t, rects)
  {
    var s, r := rects[t.source], rects[t.target];
    ElbowLegs(t.source.parent.axis, s, r, ZoneOf(s, r), FanRank(t, rects), FanSize(t, rects));
    ExitOf(t.source.parent.axis, ClassicArrow(t, rects))
  }

  /** The classic arrow of t is an elbow with one vertical and one horizontal leg from a
      point of its source's boundary to the middle of the target's side facing it; it
      leaves at the position of its rank in its fan along the source's side facing the
      quadrant (which `AlongInside` places (rank + 1) / (size + 1) of the way along). */
  lemma ClassicArrowShape(t: Transition, rects: map<Box, Rect>)
    requires ArrowDefined(t, rects)
    ensures var p, s, r := ClassicArrow(t, rects), rects[t.source], rects[t.target];
            var q, i, n := ZoneOf(s, r), FanRank(t, rects), FanSize(t, rects);
            && |p| == 3 && Orthogonal(p)
            && (Ordered(r) ==> OnBoundary(p[2], r))
            && (Proper(s) ==> OnBoundary(p[0], s))
            && (t.source.parent.axis == Horizontal ==>
                  p[0] == Point(Along(s.x1, s.x2, Westward(q), i, n), if Northward(q) then s.y1 else s.y2)
                  && p[2] == Point(if Westward(q) then r.x2 else r.x1, MidY(r)))
            && (t.source.parent.axis == Vertical ==>
                  p[0] == Point(if Westward(q) then s.x1 else s.x2, Along(s.y1, s.y2, Northward(q), i, n))
                  && p[2] == Point(MidX(r), if Northward(q) then r.y2 else r.y1))
  {
    var s, r := rects[t.source], rects[t.target];
    var axis, q, i, n := t.source.parent.axis, ZoneOf(s, r), FanRank(t, rects), FanSize(t, rects);
    ElbowLegs(axis, s, r, q, i, n);
    ElbowExit(axis, s, r, q, i, n);
  }

  /** Two different transitions from the same box into the same quadrant leave the box at
      different points of the same side, in the order of their keys: the one ranked first
      is nearer the corner facing the quadrant. */
  lemma ClassicArrowFansOut(t: Transition, u: Transition, rects: map<Box, Rect>)
    requires ArrowDefined(t, rects) && ArrowDefined(u, rects)
    requires t.source == u.source && t != u && Proper(rects[t.source])
    requires ZoneOf(rects[t.source], rects[t.target]) == ZoneOf(rects[u.source], rects[u.target])
    ensures ExitPosition(t, rects) != ExitPosition(u, rects)
    ensures var q := ZoneOf(rects[t.source], rects[t.target]);
            FanRank(t, rects) < FanRank(u, rects) ==>
              if (t.source.parent.axis == Horizontal && Westward(q)) || (t.source.parent.axis == Vertical && Northward(q))
              then ExitPosition(t, rects) < ExitPosition(u, rects)
              else ExitPosition(u, rects) < ExitPosition(t, rects)
  {
    var s := rects[t.source];
    var q := ZoneOf(s, rects[t.target]);
    var axis := t.source.parent.axis;
    FanContents(t.source, rects, axis, q);
    IndexOfInjective(Fan(t.source, rects, axis, q), t, u);
    var n, i, j := FanSize(t, rects), FanRank(t, rects), FanRank(u, rects);
    assert FanSize(u, rects) == n;
    if i < j {
      ElbowExitMonotone(axis, s, rects[t.target], rects[u.target], q, i, j, n);
    } else {
      ElbowExitMonotone(axis, s, rects[u.target], rects[t.target], q, j, i, n);
    }
  }
}
