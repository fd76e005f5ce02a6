/** `update_transitions_coordinates`: the first route of every transition, followed by the
    resolution of conflicts. A transition between two boxes whose projections on one axis
    overlap becomes a straight segment across the overlap; one into a descendant of its
    source, a straight segment through the gap between the two boxes; any other, the
    classic elbow; a self-loop, a five-point loop around a corner of its box. The
    transitions joining the same two boxes, in either direction, form the reciprocal list
    and are spread evenly across the overlap by their rank in it. */
module Routing {
  import opened Geometry
  import opened Lists
  import opened Zones
  import opened Diagram
  import opened Spacing
  import opened Arrows
  import opened Rerouting

  /** The sort key of the reciprocal list: the source's name followed by the target's. */
  function PairKey(u: Transition): string {
    u.source.name + u.target.name
  }

  predicate KeyLess(a: Transition, b: Transition) {
    LexLess(PairKey(a), PairKey(b))
  }

  /** The transitions listed by src that go to dst. */
  function Towards(src: Box, dst: Box): set<Transition> {
    set u | u in src.transitions && u.target == dst
  }

  /** `generate_list()`: the transitions from s to g taken from the list of s, then those
      from g to s taken from the list of g, stably sorted by key. */
  function Reciprocal(s: Box, g: Box): seq<Transition> {
    SortBy(Select(s.transitions, Towards(s, g)) + Select(g.transitions, Towards(g, s)), KeyLess)
  }

  /** Comparing keys is a strict weak order on any list of transitions. */
  lemma KeyOrder(xs: seq<Transition>)
    ensures StrictWeakOrderOn(xs, KeyLess)
  {
    forall a, b | a in xs && b in xs
      ensures KeyLess(a, b) ==> !KeyLess(b, a)
    {
      LexLessTotal(PairKey(a), PairKey(b));
    }
    forall a, b, c | a in xs && b in xs && c in xs
      ensures !KeyLess(a, b) && !KeyLess(b, c) ==> !KeyLess(a, c)
    {
      var ka, kb, kc := PairKey(a), PairKey(b), PairKey(c);
      LexLessTotal(ka, kb);
      LexLessTotal(kb, kc);
      LexLessTotal(ka, kc);
      if LexLess(kb, ka) && LexLess(kc, kb) {
        LexLessTransitive(kc, kb, ka);
      }
    }
  }

  /** The reciprocal list holds exactly the transitions of s to g and of g to s listed by
      their sources' boxes, in non-decreasing order of key. */
  lemma ReciprocalContents(s: Box, g: Box)
    ensures forall u :: u in Reciprocal(s, g) <==>
              (u in s.transitions && u.target == g) || (u in g.transitions && u.target == s)
    ensures var l := Reciprocal(s, g);
            forall i, j :: 0 <= i < j < |l| ==> !LexLess(PairKey(l[j]), PairKey(l[i]))
  {
    var input := Select(s.transitions, Towards(s, g)) + Select(g.transitions, Towards(g, s));
    var l := Reciprocal(s, g);
    forall u
      ensures u in l <==> u in input
    {
      assert u in l <==> u in multiset(l);
      assert u in input <==> u in multiset(input);
    }
    KeyOrder(input);
    SortBySorted(input, KeyLess);
  }

  /** `same_target_index`: the first position of t in its reciprocal list. */
  function ReciprocalRank(t: Transition): (i: nat)
    requires t in t.source.transitions
    ensures i < |Reciprocal(t.source, t.target)| && Reciprocal(t.source, t.target)[i] == t
  {
    ReciprocalContents(t.source, t.target);
    IndexOf(Reciprocal(t.source, t.target), t)
  }

  /** Every transition listed by b leaves b. */
  predicate Owns(b: Box) {
    forall u | u in b.transitions :: u.source == b
  }

  /** Both ends of a pair of boxes compute the same reciprocal list, provided the two keys
      differ: all transitions of one direction share one key, so the stable sort puts the
      block with the smaller key first whatever the order of its input. */
  lemma ReciprocalListsAgree(s: Box, g: Box)
    requires s != g && Owns(s) && Owns(g)
    requires s.name + g.name != g.name + s.name
    ensures Reciprocal(s, g) == Reciprocal(g, s)
  {
    var out, back := Select(s.transitions, Towards(s, g)), Select(g.transitions, Towards(g, s));
    var ko, kb := s.name + g.name, g.name + s.name;
    assert forall u | u in out :: PairKey(u) == ko;
    assert forall u | u in back :: PairKey(u) == kb;
    LexLessTotal(ko, ko);
    LexLessTotal(kb, kb);
    LexLessTotal(ko, kb);
    if LexLess(ko, kb) {
      SortBlocks(out, back, KeyLess);
    } else {
      SortBlocks(back, out, KeyLess);
    }
  }

  /** The first route of a transition: a straight segment between two endpoints, which
      empties the polyline, or a polyline, which leaves the endpoints as they were. */
  datatype Route = Direct(start: Point, end: Point) | Path(points: seq<Point>)

  /** The state a route leaves in a transition whose state was d. */
  function Drawn(r: Route, d: Drawing): (d': Drawing)
    ensures r.Direct? ==> Ends(d') == (r.start, r.end) && d'.polyline == []
    ensures r.Path? && r.points != [] ==> Ends(d') == (r.points[0], r.points[|r.points| - 1])
    ensures r.Path? ==> d'.start == d.start && d'.end == d.end
  {
    match r
    case Direct(a, b) => Drawing([], a, b)
    case Path(p) => Drawing(p, d.start, d.end)
  }

  /** Giving a transition the same route twice leaves it as giving it once. */
  lemma DrawnTwice(r: Route, d: Drawing)
    ensures Drawn(r, Drawn(r, d)) == Drawn(r, d)
  {
  }

  /** The straight route through the common interval [lo, hi] for rank i of n: a
      horizontal segment at the rank's height, from the side of the source facing the
      target to the side of the target facing the source, or a vertical one at the rank's
      abscissa. */
  function Straight(axis: Axis, s: Rect, r: Rect, q: Quadrant, lo: real, hi: real, i: nat, n: nat): Route {
    var p := Spread(lo, hi - lo, i, n);
    match axis
    case Horizontal =>
      if Westward(q) then Direct(Point(s.x1, p), Point(r.x2, p)) else Direct(Point(s.x2, p), Point(r.x1, p))
    case Vertical =>
      if Northward(q) then Direct(Point(p, s.y1), Point(p, r.y2)) else Direct(Point(p, s.y2), Point(p, r.y1))
  }

  /** The route into a child r of the source s: for the first child of the source's
      layout, from the source's left side (horizontal layout) or top side (vertical layout)
      to the same side of the child, for the last child from the opposite side, and for any
      other child from the side facing the quadrant. The segment runs at the child's
      middle. */
  function Inner(axis: Axis, s: Rect, r: Rect, q: Quadrant, first: bool, last: bool): Route {
    var mx, my := MidX(r), MidY(r);
    match axis
    case Horizontal =>
      if first then Direct(Point(s.x1, my), Point(r.x1, my))
      else if last then Direct(Point(s.x2, my), Point(r.x2, my))
      else if Northward(q) then Direct(Point(mx, s.y1), Point(mx, r.y1))
      else Direct(Point(mx, s.y2), Point(mx, r.y2))
    case Vertical =>
      if first then Direct(Point(mx, s.y1), Point(mx, r.y1))
      else if last then Direct(Point(mx, s.y2), Point(mx, r.y2))
      else if Westward(q) then Direct(Point(s.x1, my), Point(r.x1, my))
      else Direct(Point(s.x2, my), Point(r.x2, my))
  }

  /** The loop of a self-transition of a box with rectangle r: out of the middle of the side
      named by the box's zone, around the nearby corner at distance `space`, and back into
      the middle of the adjacent side. */
  function SelfLoop(r: Rect, side: Compass, space: real): seq<Point> {
    var mx, my := MidX(r), MidY(r);
    match side
    case North =>
      [Point(mx, r.y1), Point(mx, r.y1 - space), Point(r.x1 - space, r.y1 - space), Point(r.x1 - space, my), Point(r.x1, my)]
    case South =>
      [Point(mx, r.y2), Point(mx, r.y2 + space), Point(r.x2 + space, r.y2 + space), Point(r.x2 + space, my), Point(r.x2, my)]
    case West =>
      [Point(r.x1, my), Point(r.x1 - space, my), Point(r.x1 - space, r.y1 - space), Point(mx, r.y1 - space), Point(mx, r.y1)]
    case East =>
      [Point(r.x2, my), Point(r.x2 + space, my), Point(r.x2 + space, r.y2 + space), Point(mx, r.y2 + space), Point(mx, r.y2)]
  }

  /** p lies outside the closed rectangle r. */
  predicate Outside(p: Point, r: Rect) {
    p.x < r.x1 || r.x2 < p.x || p.y < r.y1 || r.y2 < p.y
  }

  /** A self-loop has five points joined by horizontal and vertical legs. It starts on the
      side of the box named by the zone and ends on the box's boundary; with a positive
      `space` its three inner points lie outside the box, and with a non-negative one no
      point leaves the margin of width `space` around the box. */
  lemma SelfLoopShape(r: Rect, side: Compass, space: real)
    ensures var p := SelfLoop(r, side, space);
            && |p| == 5 && Orthogonal(p)
            && (Ordered(r) ==> OnBoundary(p[0], r) && OnBoundary(p[4], r))
            && (side == North ==> p[0].y == r.y1)
            && (side == South ==> p[0].y == r.y2)
            && (side == West ==> p[0].x == r.x1)
            && (side == East ==> p[0].x == r.x2)
            && (space > 0.0 ==> forall k :: 1 <= k <= 3 ==> Outside(p[k], r))
            && (space >= 0.0 && Ordered(r) ==> forall k :: 0 <= k < 5 ==> WithinMargin(p[k], r, space))
  {
    var p := SelfLoop(r, side, space);
    assert Ordered(r) ==> r.x1 <= MidX(r) <= r.x2 && r.y1 <= MidY(r) <= r.y2;
    assert forall k :: 0 <= k < 4 ==> AxisAligned(p[k], p[k + 1]);
  }

  /** The west loop is the north loop run backwards, and the east loop the south loop. */
  lemma SelfLoopReversed(r: Rect, space: real)
    ensures SelfLoop(r, West, space) == Reversed(SelfLoop(r, North, space))
    ensures SelfLoop(r, East, space) == Reversed(SelfLoop(r, South, space))
  {
    var n, s := SelfLoop(r, North, space), SelfLoop(r, South, space);
    var w, e := Reversed(n), Reversed(s);
    assert w[0] == n[4] && w[1] == n[3] && w[2] == n[2] && w[3] == n[1] && w[4] == n[0];
    assert e[0] == s[4] && e[1] == s[3] && e[2] == s[2] && e[3] == s[1] && e[4] == s[0];
  }

  /** The child of its parent that the inner route enters is listed among the parent's
      children. */
  predicate InnerDefined(t: Transition) {
    t.target.parent != null && t.target in t.target.parent.children
  }

  /** What the first route of t reads exists: both rectangles; unless t is a self-loop, t
      in its source's list (for the rank), and, when no straight route applies, the
      target's place among its siblings (inner route) or what the classic arrow reads. */
  predicate RouteDefined(t: Transition, rects: map<Box, Rect>) {
    && t.source in rects && t.target in rects
    && (t.source != t.target ==>
          && t in t.source.transitions
          && (AcceptanceZone(rects[t.source], rects[t.target], Horizontal).None?
              && AcceptanceZone(rects[t.source], rects[t.target], Vertical).None? ==>
                if t.IsDownward() then InnerDefined(t) else ArrowDefined(t, rects)))
  }

  /** The body of the loop of `update_transitions_coordinates` for t: the self-loop of the
      source's zone; else a straight horizontal route when the boxes' y-extents overlap;
      else a straight vertical one when their x-extents overlap; else the inner route when
      the target is a descendant of the source; else the classic arrow. */
  function PrimaryRoute(t: Transition, rects: map<Box, Rect>, space: real): Route
    requires RouteDefined(t, rects)
  {
    var s, r := rects[t.source], rects[t.target];
    if t.source == t.target then Path(SelfLoop(s, t.source.zone, space))
    else
      var q, i, n := ZoneOf(s, r), ReciprocalRank(t), |Reciprocal(t.source, t.target)|;
      match AcceptanceZone(s, r, Horizontal)
      case Some((lo, hi)) => Straight(Horizontal, s, r, q, lo, hi, i, n)
      case None =>
        match AcceptanceZone(s, r, Vertical)
        case Some((lo, hi)) => Straight(Vertical, s, r, q, lo, hi, i, n)
        case None =>
          if t.IsDownward() then
            // the Python code looks the index up a second time through a misspelt attribute
            // (`childrent`) for the last-child test; the list meant is `children`
            var k := IndexOf(t.target.parent.children, t.target);
            Inner(t.source.axis, s, r, q, k == 0, k == |t.target.parent.children| - 1)
          else Path(ClassicArrow(t, rects))
  }

  /** The coordinate that a straight route keeps along its whole length: y for a
      horizontal one, x for a vertical one. */
  function Lane(route: Route, axis: Axis): real
    requires route.Direct?
  {
    if axis == Horizontal then route.start.y else route.start.x
  }

  /** A straight route is one segment that keeps the rank's even-spacing position in
      [lo, hi] along its whole length. */
  lemma StraightLane(axis: Axis, s: Rect, r: Rect, q: Quadrant, lo: real, hi: real, i: nat, n: nat)
    ensures var route := Straight(axis, s, r, q, lo, hi, i, n);
            && route.Direct?
            && Lane(route, axis) == Spread(lo, hi - lo, i, n)
            && (axis == Horizontal ==> route.start.y == route.end.y)
            && (axis == Vertical ==> route.start.x == route.end.x)
  {
  }

  /** A straight route across an interval [lo, hi] that lies inside the extents of both s
      and r on `axis` runs from the boundary of s to the boundary of r, and its lane lies
      inside the interval (strictly inside when the interval is not a single point). */
  lemma StraightShape(axis: Axis, s: Rect, r: Rect, q: Quadrant, lo: real, hi: real, i: nat, n: nat)
    requires Extent(s, axis).0 <= lo <= hi <= Extent(s, axis).1
    requires Extent(r, axis).0 <= lo <= hi <= Extent(r, axis).1
    requires i < n
    ensures var route := Straight(axis, s, r, q, lo, hi, i, n);
            && lo <= Lane(route, axis) <= hi
            && (lo < hi ==> lo < Lane(route, axis) < hi)
            && OnBoundary(route.start, s) && OnBoundary(route.end, r)
  {
    StraightLane(axis, s, r, q, lo, hi, i, n);
    SpreadBounds(lo, hi - lo, i, n);
  }

  /** When the first acceptance zone found is on `axis`, the first route of t is the
      straight route across it for t's rank in its reciprocal list. */
  lemma StraightRouteTaken(t: Transition, rects: map<Box, Rect>, space: real, axis: Axis)
    requires RouteDefined(t, rects) && t.source != t.target
    requires axis == Vertical ==> AcceptanceZone(rects[t.source], rects[t.target], Horizontal).None?
    requires AcceptanceZone(rects[t.source], rects[t.target], axis).Some?
    ensures var s, r := rects[t.source], rects[t.target];
            var (lo, hi) := AcceptanceZone(s, r, axis).value;
            PrimaryRoute(t, rects, space)
              == Straight(axis, s, r, ZoneOf(s, r), lo, hi, ReciprocalRank(t), |Reciprocal(t.source, t.target)|)
  {
  }

  /** When the first acceptance zone found is on `axis`, the first route of t is one
      straight segment along that axis from the boundary of the source to the boundary of
      the target, whose lane is the position of t's rank in its reciprocal list, inside the
      zone (strictly inside when the zone is not a single point). */
  lemma StraightRouteShape(t: Transition, rects: map<Box, Rect>, space: real, axis: Axis)
    requires RouteDefined(t, rects) && t.source != t.target
    requires axis == Vertical ==> AcceptanceZone(rects[t.source], rects[t.target], Horizontal).None?
    requires AcceptanceZone(rects[t.source], rects[t.target], axis).Some?
    ensures var s, r := rects[t.source], rects[t.target];
            var (lo, hi) := AcceptanceZone(s, r, axis).value;
            var route := PrimaryRoute(t, rects, space);
            && route.Direct?
            && Lane(route, axis) == Spread(lo, hi - lo, ReciprocalRank(t), |Reciprocal(t.source, t.target)|)
            && (axis == Horizontal ==> route.start.y == route.end.y)
            && (axis == Vertical ==> route.start.x == route.end.x)
            && lo <= Lane(route, axis) <= hi
            && (lo < hi ==> lo < Lane(route, axis) < hi)
            && OnBoundary(route.start, s) && OnBoundary(route.end, r)
  {
    var s, r := rects[t.source], rects[t.target];
    StraightRouteTaken(t, rects, space, axis);
    AcceptanceZoneIsOverlap(s, r, axis);
    StraightAcrossOverlap(axis, s, r, ZoneOf(s, r), ReciprocalRank(t), |Reciprocal(t.source, t.target)|);
  }

  /** The straight route across the overlap of s and r on `axis`, for rank i of n. */
  lemma StraightAcrossOverlap(axis: Axis, s: Rect, r: Rect, q: Quadrant, i: nat, n: nat)
    requires Overlap(s, r, axis).Some? && i < n
    ensures var (lo, hi) := Overlap(s, r, axis).value;
            var route := Straight(axis, s, r, q, lo, hi, i, n);
            && route.Direct?
            && Lane(route, axis) == Spread(lo, hi - lo, i, n)
            && (axis == Horizontal ==> route.start.y == route.end.y)
            && (axis == Vertical ==> route.start.x == route.end.x)
            && lo <= Lane(route, axis) <= hi
            && (lo < hi ==> lo < Lane(route, axis) < hi)
            && OnBoundary(route.start, s) && OnBoundary(route.end, r)
  {
    var (lo, hi) := Overlap(s, r, axis).value;
    OverlapInside(s, r, axis);
    StraightLane(axis, s, r, q, lo, hi, i, n);
    StraightShape(axis, s, r, q, lo, hi, i, n);
  }

  /** Two different transitions joining the same two boxes, in the same direction or in
      opposite directions, get different lanes when their common interval is not a single
      point. For opposite directions this needs the two keys of the pair to differ. */
  lemma ReciprocalSeparation(t: Transition, u: Transition, rects: map<Box, Rect>, space: real, axis: Axis)
    requires RouteDefined(t, rects) && RouteDefined(u, rects) && t != u && t.source != t.target
    requires || (u.source == t.source && u.target == t.target)
             || (&& u.source == t.target && u.target == t.source && Owns(t.source) && Owns(t.target)
                 && t.source.name + t.target.name != t.target.name + t.source.name)
    requires axis == Vertical ==> AcceptanceZone(rects[t.source], rects[t.target], Horizontal).None?
    requires AcceptanceZone(rects[t.source], rects[t.target], axis).Some?
    requires AcceptanceZone(rects[t.source], rects[t.target], axis).value.0
             < AcceptanceZone(rects[t.source], rects[t.target], axis).value.1
    ensures PrimaryRoute(t, rects, space).Direct? && PrimaryRoute(u, rects, space).Direct?
    ensures Lane(PrimaryRoute(t, rects, space), axis) != Lane(PrimaryRoute(u, rects, space), axis)
  {
    var s, r := rects[t.source], rects[t.target];
    var l := Reciprocal(t.source, t.target);
    var (lo, hi) := AcceptanceZone(s, r, axis).value;
    assert Reciprocal(u.source, u.target) == l by {
      if u.source != t.source {
        ReciprocalListsAgree(t.source, t.target);
      }
    }
    assert AcceptanceZone(rects[u.source], rects[u.target], axis) == Some((lo, hi))
        && (axis == Vertical ==> AcceptanceZone(rects[u.source], rects[u.target], Horizontal).None?) by {
      AcceptanceZoneSymmetric(s, r, Horizontal);
      AcceptanceZoneSymmetric(s, r, Vertical);
    }
    var i, j := ReciprocalRank(t), ReciprocalRank(u);
    assert Lane(PrimaryRoute(t, rects, space), axis) == Spread(lo, hi - lo, i, |l|) by {
      StraightRouteTaken(t, rects, space, axis);
      StraightLane(axis, s, r, ZoneOf(s, r), lo, hi, i, |l|);
    }
    assert Lane(PrimaryRoute(u, rects, space), axis) == Spread(lo, hi - lo, j, |l|) by {
      StraightRouteTaken(u, rects, space, axis);
      StraightLane(axis, rects[u.source], rects[u.target], ZoneOf(rects[u.source], rects[u.target]), lo, hi, j, |l|);
    }
    IndexOfInjective(l, t, u);
    SpreadDistinct(lo, hi - lo, i, j, |l|);
  }

  /** The inner route is one straight segment from a side of the source to the same side
      of the target, at the target's middle. */
  lemma InnerRouteShape(t: Transition, rects: map<Box, Rect>, space: real)
    requires RouteDefined(t, rects) && t.source != t.target && t.IsDownward()
    requires AcceptanceZone(rects[t.source], rects[t.target], Horizontal).None?
    requires AcceptanceZone(rects[t.source], rects[t.target], Vertical).None?
    ensures var s, r, route := rects[t.source], rects[t.target], PrimaryRoute(t, rects, space);
            && route.Direct?
            && (|| (route.start.y == route.end.y == MidY(r)
                    && ((route.start.x == s.x1 && route.end.x == r.x1) || (route.start.x == s.x2 && route.end.x == r.x2)))
                || (route.start.x == route.end.x == MidX(r)
                    && ((route.start.y == s.y1 && route.end.y == r.y1) || (route.start.y == s.y2 && route.end.y == r.y2))))
  {
  }

  /** A target drawn as a proper rectangle inside its source's rectangle always shares the
      source's y-extent overlap, so the straight horizontal route is taken and the inner
      route is never reached for it. */
  lemma NestedTargetIsStraight(t: Transition, rects: map<Box, Rect>, space: real)
    requires RouteDefined(t, rects) && t.source != t.target
    requires Proper(rects[t.target]) && Proper(rects[t.source])
    requires rects[t.source].y1 <= rects[t.target].y1 && rects[t.target].y2 <= rects[t.source].y2
    ensures AcceptanceZone(rects[t.source], rects[t.target], Horizontal) == Some((rects[t.target].y1, rects[t.target].y2))
    ensures PrimaryRoute(t, rects, space).Direct?
  {
    var s, r := rects[t.source], rects[t.target];
    NestedOverlap(s, r);
    AcceptanceZoneIsOverlap(s, r, Horizontal);
    StraightRouteShape(t, rects, space, Horizontal);
  }

  /** The y-extent of a box nested in another's y-extent is their overlap. */
  lemma NestedOverlap(s: Rect, r: Rect)
    requires Proper(s) && Proper(r) && s.y1 <= r.y1 && r.y2 <= s.y2
    ensures Overlap(s, r, Horizontal) == Some((r.y1, r.y2))
  {
  }

  /** Two boxes side by side, (0, 0, 10, 10) and (20, 0, 30, 10), joined by one transition:
      the route is the horizontal segment at mid-height from the right side of the first
      to the left side of the second. */
  lemma SideBySideExample(t: Transition, rects: map<Box, Rect>, space: real)
    requires t.source != t.target && t.source.transitions == [t] && t.target.transitions == []
    requires rects == map[t.source := Rect(0.0, 0.0, 10.0, 10.0), t.target := Rect(20.0, 0.0, 30.0, 10.0)]
    ensures RouteDefined(t, rects)
    ensures PrimaryRoute(t, rects, space) == Direct(Point(10.0, 5.0), Point(20.0, 5.0))
  {
    var s, r := rects[t.source], rects[t.target];
    assert Reciprocal(t.source, t.target) == [t] by {
      assert Select(t.source.transitions, Towards(t.source, t.target)) == [t];
      assert Select(t.target.transitions, Towards(t.target, t.source)) == [];
    }
    assert ReciprocalRank(t) == 0;
    SideBySideGeometry(s, r);
    StraightRouteTaken(t, rects, space, Horizontal);
  }

  /** The geometry of the side-by-side example: the y-extents coincide, and the straight
      route for the only rank is the segment at mid-height. */
  lemma SideBySideGeometry(s: Rect, r: Rect)
    requires s == Rect(0.0, 0.0, 10.0, 10.0) && r == Rect(20.0, 0.0, 30.0, 10.0)
    ensures AcceptanceZone(s, r, Horizontal) == Some((0.0, 10.0))
    ensures Straight(Horizontal, s, r, ZoneOf(s, r), 0.0, 10.0, 0, 1) == Direct(Point(10.0, 5.0), Point(20.0, 5.0))
  {
    assert Overlap(s, r, Horizontal) == Some((0.0, 10.0));
    AcceptanceZoneIsOverlap(s, r, Horizontal);
    SpreadSingle(0.0, 10.0);
    assert !Westward(ZoneOf(s, r));
    StraightLane(Horizontal, s, r, ZoneOf(s, r), 0.0, 10.0, 0, 1);
  }

  /** A self-loop on a box (0, 0, 10, 10) whose zone is north. */
  lemma SelfLoopExample(t: Transition, rects: map<Box, Rect>, space: real)
    requires t.source == t.target && t.source.zone == North
    requires rects == map[t.source := Rect(0.0, 0.0, 10.0, 10.0)]
    ensures RouteDefined(t, rects)
    ensures PrimaryRoute(t, rects, space)
            == Path([Point(5.0, 0.0), Point(5.0, -space), Point(-space, -space), Point(-space, 5.0), Point(0.0, 5.0)])
  {
  }

  /** Gives t the state the route leaves: a straight route empties the polyline and sets the
      endpoints (`update_coordinates`), a path replaces the polyline. */
  method Place(t: Transition, route: Route)
    modifies t
    ensures t.State() == Drawn(route, old(t.State()))
  {
    match route
    case Direct(a, b) =>
      t.polyline := [];
      t.UpdateCoordinates(a, b);
    case Path(p) =>
      t.polyline := p;
  }

  /** The loop of `update_transitions_coordinates`: every transition of ts, in list order,
      is given its route. */
  method PlaceAll(ts: seq<Transition>, routes: map<Transition, Route>)
    requires forall t | t in ts :: t in routes
    modifies set t | t in ts
    ensures forall t | t in ts :: t.State() == Drawn(routes[t], old(t.State()))
  {
    for k := 0 to |ts|
      invariant forall t | t in ts[..k] :: t.State() == Drawn(routes[t], old(t.State()))
      invariant forall t | t in ts && t !in ts[..k] :: t.State() == old(t.State())
    {
      var t := ts[k];
      Place(t, routes[t]);
      assert ts[..k + 1] == ts[..k] + [t];
    }
    assert ts[..|ts|] == ts;
  }

  /** `update_transitions_coordinates`: every transition gets its first route, in list
      order; then `conflicts_checking` gives a detour to those in conflict. The endpoints are
      those the first route leaves. The k-th transition keeps its first route's polyline
      while the counters stay, or gets the detour computed from `us[k]` while the counters
      move past it. */
  method UpdateTransitionsCoordinates(ts: seq<Transition>, layout: Layout, c: Collaborators)
    returns (ghost us: seq<Usage>)
    requires ValidLayout(layout)
    requires Distinct(ts)
    requires forall t | t in ts :: RouteDefined(t, layout.rect)
    requires forall t | t in ts && t.source != t.target :: Reroutable(t, layout, c)
    modifies set t | t in ts
    ensures forall t | t in ts ::
              var d := Drawn(PrimaryRoute(t, layout.rect, c.space), old(t.State()));
              t.State().start == d.start && t.State().end == d.end
    ensures |us| == |ts| + 1 && us[0] == map[]
    ensures forall k | 0 <= k < |ts| ::
              var d := Drawn(PrimaryRoute(ts[k], layout.rect, c.space), old(ts[k].State()));
              PolylineStep(ts[k], layout, c, d.polyline, ts[k].polyline, us[k], us[k + 1])
  {
    var routes := map t | t in ts :: PrimaryRoute(t, layout.rect, c.space);
    PlaceAll(ts, routes);
    us := ConflictsChecking(ts, layout, c);
  }
}
