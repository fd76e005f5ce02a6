/** The second pass: a transition whose route crosses another transition or an unrelated box
    is sent through one of four attraction points of the lowest common ancestor of its two
    boxes. A counter per attraction point, shared by the whole pass, spreads the detours. */
module Rerouting {
  import opened Geometry
  import opened Lists
  import opened Zones
  import opened Diagram

  /** North, east, south and west attraction points of a box. */
  datatype AttractionPoints = AttractionPoints(n: Point, e: Point, s: Point, w: Point)

  /** `compute_attraction_points`: the middles of the four sides of the box below its
      header, each moved inwards by half the corridor width. */
  function ComputeAttractionPoints(r: Rect, header: real, space: real): (ap: AttractionPoints)
    ensures ap.n.x == ap.s.x && ap.e.y == ap.w.y
    ensures ap.n.x == MidX(r) && ap.e.y == MidY(Rect(r.x1, r.y1 + header, r.x2, r.y2))
    ensures ap.s.y - ap.n.y == r.y2 - (r.y1 + header) - space
    ensures ap.e.x - ap.w.x == r.x2 - r.x1 - space
    ensures ap.n.y == r.y1 + header + space / 2.0 && ap.s.y == r.y2 - space / 2.0
    ensures ap.w.x == r.x1 + space / 2.0 && ap.e.x == r.x2 - space / 2.0
  {
    var top := r.y1 + header;
    var midX, midY := (r.x1 + r.x2) / 2.0, (top + r.y2) / 2.0;
    AttractionPoints(
      Point(midX, top + space / 2.0),
      Point(r.x2 - space / 2.0, midY),
      Point(midX, r.y2 - space / 2.0),
      Point(r.x1 + space / 2.0, midY))
  }

  /** When the box is wider and, below its header, taller than the corridor, the four
      attraction points lie strictly inside it. */
  lemma AttractionPointsInside(r: Rect, header: real, space: real)
    requires space > 0.0 && header >= 0.0
    requires r.x1 + space < r.x2 && r.y1 + header + space < r.y2
    ensures var ap := ComputeAttractionPoints(r, header, space);
            forall p | p in [ap.n, ap.e, ap.s, ap.w] :: r.x1 < p.x < r.x2 && r.y1 < p.y < r.y2
  {
  }

  /** The usage counters: `attractions_points`, absent keys counting zero. */
  type Usage = map<Point, nat>

  function Uses(u: Usage, p: Point): nat {
    if p in u then u[p] else 0
  }

  /** One more use of p. */
  function Bump(u: Usage, p: Point): (u': Usage)
    ensures Uses(u', p) == Uses(u, p) + 1
    ensures forall q :: q != p ==> Uses(u', q) == Uses(u, q)
  {
    u[p := Uses(u, p) + 1]
  }

  /** The position `min(candidates, key=usage)` returns: a least-used candidate, the
      earliest one when several are least used. */
  function LeastUsedIndex(candidates: seq<Point>, u: Usage): (i: nat)
    requires |candidates| > 0
    ensures i < |candidates|
    ensures forall k :: 0 <= k < |candidates| ==> Uses(u, candidates[i]) <= Uses(u, candidates[k])
    ensures forall k :: 0 <= k < i ==> Uses(u, candidates[k]) > Uses(u, candidates[i])
  {
    if |candidates| == 1 then 0
    else
      var j := LeastUsedIndex(candidates[1..], u);
      if Uses(u, candidates[0]) <= Uses(u, candidates[1 + j]) then 0 else 1 + j
  }

  function LeastUsed(candidates: seq<Point>, u: Usage): (p: Point)
    requires |candidates| > 0
    ensures p in candidates
  {
    candidates[LeastUsedIndex(candidates, u)]
  }

  /** The candidate picked is used no more than any other, and it comes no later than any
      candidate used as little as it is. */
  lemma LeastUsedIsFirstMinimum(candidates: seq<Point>, u: Usage)
    requires |candidates| > 0
    ensures var p := LeastUsed(candidates, u);
            && (forall k :: 0 <= k < |candidates| ==> Uses(u, p) <= Uses(u, candidates[k]))
            && (forall k :: 0 <= k < |candidates| && Uses(u, candidates[k]) == Uses(u, p) ==> p in candidates[..k + 1])
  {
    var i := LeastUsedIndex(candidates, u);
    forall k | 0 <= k < |candidates| && Uses(u, candidates[k]) == Uses(u, candidates[i])
      ensures candidates[i] in candidates[..k + 1]
    {
      assert candidates[..k + 1][i] == candidates[i];
    }
  }

  /** A partial or finished detour together with the counters after it. */
  datatype Detour = Detour(points: seq<Point>, usage: Usage)

  /** The branch taken for a West or East zone (`:365-400`, `:406-441`). When `outer` holds,
      the candidates are north, south and `side` (west or east); picking `side` leaves the
      source at `exit` towards it and then heads for the less used of north and south.
      Otherwise the candidates are north and south only. The path stops at the north or
      south attraction point. */
  function HorizontalApproach(src: Rect, ap: AttractionPoints, u: Usage, outer: bool, side: Point, exit: Point)
    : (d: Detour)
    ensures |d.points| == 3 || |d.points| == 5
    ensures d.points[|d.points| - 1] == ap.n || d.points[|d.points| - 1] == ap.s
    ensures AxisAligned(d.points[|d.points| - 2], d.points[|d.points| - 1])
    ensures d.usage == Bump(u, LeastUsed(if outer then [ap.n, ap.s, side] else [ap.n, ap.s], u))
    ensures Ordered(src) && OnBoundary(exit, src) ==> OnBoundary(d.points[0], src)
  {
    if outer then HorizontalOuter(src, ap, u, side, exit) else HorizontalInner(src, ap, u)
  }

  /** The West or East branch with three candidates. */
  function HorizontalOuter(src: Rect, ap: AttractionPoints, u: Usage, side: Point, exit: Point): (d: Detour)
    ensures |d.points| == 3 || |d.points| == 5
    ensures d.points[|d.points| - 1] == ap.n || d.points[|d.points| - 1] == ap.s
    ensures AxisAligned(d.points[|d.points| - 2], d.points[|d.points| - 1])
    ensures d.usage == Bump(u, LeastUsed([ap.n, ap.s, side], u))
    ensures Ordered(src) && OnBoundary(exit, src) ==> OnBoundary(d.points[0], src)
  {
    var midX, midY := MidX(src), MidY(src);
    var p := LeastUsed([ap.n, ap.s, side], u);
    var u' := Bump(u, p);
    var pts := if p == side then [exit, Point(side.x, midY), LeastUsed([ap.n, ap.s], u')] else [p];
    var last := pts[|pts| - 1];
    var goal := if last == ap.n then ap.n else ap.s;
    var pts' := if |pts| == 1 then [Point(midX, if last == ap.n then src.y1 else src.y2)] else pts;
    Detour(pts' + [Point(pts'[|pts'| - 1].x, goal.y), goal], u')
  }

  /** The West or East branch with two candidates. */
  function HorizontalInner(src: Rect, ap: AttractionPoints, u: Usage): (d: Detour)
    ensures |d.points| == 3
    ensures d.points[2] == ap.n || d.points[2] == ap.s
    ensures AxisAligned(d.points[1], d.points[2])
    ensures d.usage == Bump(u, LeastUsed([ap.n, ap.s], u))
    ensures Ordered(src) ==> OnBoundary(d.points[0], src)
  {
    var midY := MidY(src);
    var p := LeastUsed([ap.n, ap.s], u);
    var pts := if p == ap.n then [Point(src.x1, midY), Point(src.x1, ap.n.y), ap.n]
               else [Point(src.x2, midY), Point(src.x2, ap.s.y), ap.s];
    Detour(pts, Bump(u, p))
  }

  /** The branch taken for a North or South zone (`:447-482`, `:488-523`). When `outer`
      holds, the candidates are `side` (north or south), west and east; picking `side`
      leaves the source at `exit` towards it and then heads for the less used of east and
      west. Otherwise the candidates are west and east only, and `westStartX` is where the
      path towards the west point starts on the top side. The path stops at the west or
      east attraction point. */
  function VerticalApproach(src: Rect, ap: AttractionPoints, u: Usage, outer: bool, side: Point, exit: Point,
                            westStartX: real): (d: Detour)
    ensures |d.points| == 3 || |d.points| == 5
    ensures d.points[|d.points| - 1] == ap.w || d.points[|d.points| - 1] == ap.e
    ensures AxisAligned(d.points[|d.points| - 2], d.points[|d.points| - 1])
    ensures d.usage == Bump(u, LeastUsed(if outer then [side, ap.w, ap.e] else [ap.w, ap.e], u))
    ensures Ordered(src) && OnBoundary(exit, src) && src.x1 <= westStartX <= src.x2 ==>
              OnBoundary(d.points[0], src)
  {
    if outer then VerticalOuter(src, ap, u, side, exit) else VerticalInner(src, ap, u, westStartX)
  }

  /** The North or South branch with three candidates. */
  function VerticalOuter(src: Rect, ap: AttractionPoints, u: Usage, side: Point, exit: Point): (d: Detour)
    ensures |d.points| == 3 || |d.points| == 5
    ensures d.points[|d.points| - 1] == ap.w || d.points[|d.points| - 1] == ap.e
    ensures AxisAligned(d.points[|d.points| - 2], d.points[|d.points| - 1])
    ensures d.usage == Bump(u, LeastUsed([side, ap.w, ap.e], u))
    ensures Ordered(src) && OnBoundary(exit, src) ==> OnBoundary(d.points[0], src)
  {
    var midX, midY := MidX(src), MidY(src);
    var p := LeastUsed([side, ap.w, ap.e], u);
    var u' := Bump(u, p);
    var pts := if p == side then [exit, Point(midX, side.y), LeastUsed([ap.e, ap.w], u')] else [p];
    var last := pts[|pts| - 1];
    var goal := if last == ap.w then ap.w else ap.e;
    var pts' := if |pts| == 1 then [Point(if last == ap.w then src.x1 else src.x2, midY)] else pts;
    Detour(pts' + [Point(goal.x, pts'[|pts'| - 1].y), goal], u')
  }

  /** The North or South branch with two candidates. */
  function VerticalInner(src: Rect, ap: AttractionPoints, u: Usage, westStartX: real): (d: Detour)
    ensures |d.points| == 3
    ensures d.points[2] == ap.w || d.points[2] == ap.e
    ensures AxisAligned(d.points[1], d.points[2])
    ensures d.usage == Bump(u, LeastUsed([ap.w, ap.e], u))
    ensures Ordered(src) && src.x1 <= westStartX <= src.x2 ==> OnBoundary(d.points[0], src)
  {
    var midX := MidX(src);
    var p := LeastUsed([ap.w, ap.e], u);
    var pts := if p == ap.w then [Point(westStartX, src.y1), Point(ap.w.x, src.y1), ap.w]
               else [Point(midX, src.y2), Point(ap.e.x, src.y2), ap.e];
    Detour(pts, Bump(u, p))
  }

  /** The approach for the compass zone from source to target. A zone of None (centres that
      coincide, `False` in the Python code) matches none of the first three tests and takes the
      South branch. */
  function Approach(zone: Option<Compass>, src: Rect, ap: AttractionPoints, u: Usage): (d: Detour)
    ensures |d.points| == 3 || |d.points| == 5
  {
    var midX, midY := MidX(src), MidY(src);
    if zone == Some(West) then
      HorizontalApproach(src, ap, u, src.x1 <= ap.n.x, ap.w, Point(src.x1, midY))
    else if zone == Some(East) then
      HorizontalApproach(src, ap, u, src.x1 >= ap.n.x, ap.e, Point(src.x2, midY))
    else if zone == Some(North) then
      // the start of the path towards the west point is computed as (x2 + x2) / 2, which
      // is x2 itself rather than the middle of the top side; kept as written
      VerticalApproach(src, ap, u, src.y1 <= ap.w.y, ap.n, Point(midX, src.y1), (src.x2 + src.x2) / 2.0)
    else
      VerticalApproach(src, ap, u, src.y1 >= ap.w.y, ap.s, Point(midX, src.y2), midX)
  }

  /** Every approach bumps the counter of the first pick. */
  lemma ApproachUsage(zone: Option<Compass>, src: Rect, ap: AttractionPoints, u: Usage)
    ensures Approach(zone, src, ap, u).usage == Bump(u, LeastUsed(FirstCandidates(zone, src, ap), u))
  {
    if zone == Some(West) || zone == Some(East) {
      SideApproach(zone, src, ap, u);
    } else {
      TopBottomApproach(zone, src, ap, u);
    }
  }

  /** Every approach leaves the source from a point of its boundary. */
  lemma ApproachStart(zone: Option<Compass>, src: Rect, ap: AttractionPoints, u: Usage)
    ensures Ordered(src) ==> OnBoundary(Approach(zone, src, ap, u).points[0], src)
  {
    var midX, midY := MidX(src), MidY(src);
    if Ordered(src) {
      assert src.y1 <= midY <= src.y2 && src.x1 <= midX <= src.x2;
      match zone
      case Some(West) =>
        assert OnBoundary(Point(src.x1, midY), src);
      case Some(East) =>
        assert OnBoundary(Point(src.x2, midY), src);
      case Some(North) =>
        assert OnBoundary(Point(midX, src.y1), src);
      case _ =>
        assert OnBoundary(Point(midX, src.y2), src);
    }
  }

  /** Every approach ends, after an axis-aligned leg, at the north or south attraction point
      (West and East zones) or at the west or east one (the other zones). */
  lemma ApproachEnd(zone: Option<Compass>, src: Rect, ap: AttractionPoints, u: Usage)
    ensures var p := Approach(zone, src, ap, u).points;
            && AxisAligned(p[|p| - 2], p[|p| - 1])
            && if zone == Some(West) || zone == Some(East) then p[|p| - 1] == ap.n || p[|p| - 1] == ap.s
               else p[|p| - 1] == ap.w || p[|p| - 1] == ap.e
  {
    if zone == Some(West) || zone == Some(East) {
      SideApproach(zone, src, ap, u);
    } else {
      TopBottomApproach(zone, src, ap, u);
    }
  }

  /** A West or East approach ends at the north or south attraction point and bumps the
      counter of the first pick. */
  lemma SideApproach(zone: Option<Compass>, src: Rect, ap: AttractionPoints, u: Usage)
    requires zone == Some(West) || zone == Some(East)
    ensures var p := Approach(zone, src, ap, u).points;
            AxisAligned(p[|p| - 2], p[|p| - 1]) && (p[|p| - 1] == ap.n || p[|p| - 1] == ap.s)
    ensures Approach(zone, src, ap, u).usage == Bump(u, LeastUsed(FirstCandidates(zone, src, ap), u))
  {
    var midY := MidY(src);
    var d := if zone == Some(West)
             then HorizontalApproach(src, ap, u, src.x1 <= ap.n.x, ap.w, Point(src.x1, midY))
             else HorizontalApproach(src, ap, u, src.x1 >= ap.n.x, ap.e, Point(src.x2, midY));
    assert Approach(zone, src, ap, u) == d;
    assert |d.points| >= 2;
  }

  /** Any other approach ends at the west or east attraction point and bumps the counter of
      the first pick. */
  lemma TopBottomApproach(zone: Option<Compass>, src: Rect, ap: AttractionPoints, u: Usage)
    requires zone != Some(West) && zone != Some(East)
    ensures var p := Approach(zone, src, ap, u).points;
            AxisAligned(p[|p| - 2], p[|p| - 1]) && (p[|p| - 1] == ap.w || p[|p| - 1] == ap.e)
    ensures Approach(zone, src, ap, u).usage == Bump(u, LeastUsed(FirstCandidates(zone, src, ap), u))
  {
    var midX := MidX(src);
    if zone == Some(North) {
      var d := VerticalApproach(src, ap, u, src.y1 <= ap.w.y, ap.n, Point(midX, src.y1), (src.x2 + src.x2) / 2.0);
      assert Approach(zone, src, ap, u) == d;
      assert FirstCandidates(zone, src, ap) == if src.y1 <= ap.w.y then [ap.n, ap.w, ap.e] else [ap.w, ap.e];
      assert |d.points| >= 2;
    } else {
      var d := VerticalApproach(src, ap, u, src.y1 >= ap.w.y, ap.s, Point(midX, src.y2), midX);
      assert Approach(zone, src, ap, u) == d;
      assert FirstCandidates(zone, src, ap) == if src.y1 >= ap.w.y then [ap.s, ap.w, ap.e] else [ap.w, ap.e];
      assert |d.points| >= 2;
    }
  }

  /** The candidates of the first `min` of each branch. */
  function FirstCandidates(zone: Option<Compass>, src: Rect, ap: AttractionPoints): (c: seq<Point>)
    ensures 2 <= |c| <= 3
  {
    if zone == Some(West) then (if src.x1 <= ap.n.x then [ap.n, ap.s, ap.w] else [ap.n, ap.s])
    else if zone == Some(East) then (if src.x1 >= ap.n.x then [ap.n, ap.s, ap.e] else [ap.n, ap.s])
    else if zone == Some(North) then (if src.y1 <= ap.w.y then [ap.n, ap.w, ap.e] else [ap.w, ap.e])
    else if src.y1 >= ap.w.y then [ap.s, ap.w, ap.e] else [ap.w, ap.e]
  }

  /** The two points of the target the detour may end at: the middles of its top and
      bottom sides after a West or East approach, of its left and right sides otherwise. */
  function EntryCandidates(zone: Option<Compass>, tgt: Rect): (Point, Point) {
    if zone == Some(West) || zone == Some(East) then (Point(MidX(tgt), tgt.y1), Point(MidX(tgt), tgt.y2))
    else (Point(tgt.x1, MidY(tgt)), Point(tgt.x2, MidY(tgt)))
  }

  /** The detour of one conflicting transition (the body of the loop of
      `conflicts_checking` for one transition): the approach, then an elbow to the entry
      point of the target nearer to the attraction point reached. */
  function Reroute(zone: Option<Compass>, src: Rect, tgt: Rect, ap: AttractionPoints, u: Usage): (d: Detour)
    ensures |d.points| == 5 || |d.points| == 7
    ensures d.usage == Bump(u, LeastUsed(FirstCandidates(zone, src, ap), u))
    ensures Ordered(src) ==> OnBoundary(d.points[0], src)
    ensures var p, k := d.points, |d.points|;
            && p[k - 3] in {ap.n, ap.e, ap.s, ap.w}
            && AxisAligned(p[k - 4], p[k - 3])
            && AxisAligned(p[k - 3], p[k - 2]) && AxisAligned(p[k - 2], p[k - 1])
            && p[k - 1] == Nearer(p[k - 3], EntryCandidates(zone, tgt).0, EntryCandidates(zone, tgt).1)
    ensures Ordered(tgt) ==> OnBoundary(d.points[|d.points| - 1], tgt)
  {
    ApproachUsage(zone, src, ap, u);
    ApproachStart(zone, src, ap, u);
    ApproachEnd(zone, src, ap, u);
    var a := Approach(zone, src, ap, u);
    var p := Enter(a.points, zone, tgt);
    assert p[|p| - 3] == a.points[|a.points| - 1] && p[|p| - 4] == a.points[|a.points| - 2];
    assert p[0] == a.points[0];
    Detour(p, a.usage)
  }

  /** The end of every detour: from the last point reached, an elbow to the entry point of
      the target nearer to it, turning vertically after a West or East approach and
      horizontally otherwise. */
  function Enter(pts: seq<Point>, zone: Option<Compass>, tgt: Rect): (r: seq<Point>)
    requires |pts| >= 1
    ensures |r| == |pts| + 2 && r[..|pts|] == pts
    ensures AxisAligned(r[|pts| - 1], r[|pts|]) && AxisAligned(r[|pts|], r[|pts| + 1])
    ensures r[|pts| + 1] == Nearer(pts[|pts| - 1], EntryCandidates(zone, tgt).0, EntryCandidates(zone, tgt).1)
    ensures Ordered(tgt) ==> OnBoundary(r[|pts| + 1], tgt)
  {
    var last := pts[|pts| - 1];
    var (c1, c2) := EntryCandidates(zone, tgt);
    var b := Nearer(last, c1, c2);
    if zone == Some(West) || zone == Some(East) then pts + [Point(b.x, last.y), b]
    else pts + [Point(last.x, b.y), b]
  }

  /** The attraction points a conflicting transition is routed through: those of the lowest
      common ancestor of its source and target. */
  function AttractionPointsFor(t: Transition, layout: Layout, c: Collaborators): AttractionPoints
    requires c.lowestCommonAncestor(t.source, t.target) in layout.rect
  {
    var lca := c.lowestCommonAncestor(t.source, t.target);
    ComputeAttractionPoints(layout.rect[lca], lca.header, c.space)
  }

  /** Every box a rerouted transition needs has a rectangle. */
  predicate Reroutable(t: Transition, layout: Layout, c: Collaborators) {
    && t.source in layout.rect && t.target in layout.rect
    && c.lowestCommonAncestor(t.source, t.target) in layout.rect
  }

  /** The detour computed for t from the counters u. */
  function DetourOf(t: Transition, layout: Layout, c: Collaborators, u: Usage): seq<Point>
    requires Reroutable(t, layout, c)
  {
    var src, tgt := layout.rect[t.source], layout.rect[t.target];
    Reroute(Zone(src, tgt), src, tgt, AttractionPointsFor(t, layout, c), u).points
  }

  /** The counters after the detour of t computed from the counters u. */
  function UsageAfter(t: Transition, layout: Layout, c: Collaborators, u: Usage): Usage
    requires Reroutable(t, layout, c)
  {
    var src, tgt := layout.rect[t.source], layout.rect[t.target];
    Reroute(Zone(src, tgt), src, tgt, AttractionPointsFor(t, layout, c), u).usage
  }

  /** Gives t its detour for the counters u and returns the counters after it. */
  method Detach(t: Transition, layout: Layout, c: Collaborators, u: Usage) returns (u': Usage)
    requires Reroutable(t, layout, c)
    modifies t
    ensures t.polyline == DetourOf(t, layout, c, u) && u' == UsageAfter(t, layout, c, u)
    ensures t.x1 == old(t.x1) && t.y1 == old(t.y1) && t.x2 == old(t.x2) && t.y2 == old(t.y2)
  {
    var src, tgt := layout.rect[t.source], layout.rect[t.target];
    var d := Reroute(Zone(src, tgt), src, tgt, AttractionPointsFor(t, layout, c), u);
    t.polyline := d.points;
    u' := d.usage;
  }

  /** t crosses another transition of ts or a box of the layout other than its source, its
      target and the target's ancestors. */
  ghost predicate InConflict(t: Transition, ts: seq<Transition>, layout: Layout, c: Collaborators)
    reads t, set u | u in ts
  {
    || t.CrossingTransitions(ts, c.intersect) != {}
    || t.CrossedBoxes(layout.boxes, layout.rect, c) != {}
  }

  /** The test of `conflicts_checking`: the list of crossed transitions is not empty, or
      else the list of crossed boxes is not empty. */
  method HasConflict(t: Transition, ts: seq<Transition>, layout: Layout, c: Collaborators) returns (conflict: bool)
    requires ValidLayout(layout)
    ensures conflict == InConflict(t, ts, layout, c)
  {
    var crossing := t.ConflictsWithTransitions(ts, c.intersect);
    var crossed: seq<Box> := [];
    if crossing == [] {
      crossed := t.ConflictsWithBoxes(layout.boxes, layout.rect, c);
    }
    conflict := crossing != [] || crossed != [];
    SelectEmpty(ts, t.CrossingTransitions(ts, c.intersect));
    SelectEmpty(layout.boxes, t.CrossedBoxes(layout.boxes, layout.rect, c));
  }

  /** One step of `conflicts_checking`: t, unless it is a self-loop, gets its detour when it
      is in conflict in the current state; otherwise nothing changes. */
  method CheckOne(t: Transition, ts: seq<Transition>, layout: Layout, c: Collaborators, u: Usage)
    returns (u': Usage)
    requires ValidLayout(layout)
    requires t.source != t.target ==> Reroutable(t, layout, c)
    modifies t
    ensures old(InConflict(t, ts, layout, c)) && t.source != t.target ==>
              t.polyline == DetourOf(t, layout, c, u) && u' == UsageAfter(t, layout, c, u)
    ensures !old(InConflict(t, ts, layout, c)) || t.source == t.target ==>
              t.polyline == old(t.polyline) && u' == u
    ensures t.x1 == old(t.x1) && t.y1 == old(t.y1) && t.x2 == old(t.x2) && t.y2 == old(t.y2)
    ensures PolylineStep(t, layout, c, old(t.polyline), t.polyline, u, u')
  {
    var conflict := HasConflict(t, ts, layout, c);
    u' := u;
    if conflict && t.source != t.target {
      u' := Detach(t, layout, c, u);
      assert t.polyline == DetourOf(t, layout, c, u);
    }
  }

  /** One step of a polyline, with the counters it was computed from: it stays as it was
      and the counters do not move, or, for a transition that is not a self-loop, it
      becomes the detour for those counters and they move on past it. */
  predicate PolylineStep(t: Transition, layout: Layout, c: Collaborators, before: seq<Point>, after: seq<Point>,
                         u: Usage, u': Usage)
    requires t.source != t.target ==> Reroutable(t, layout, c)
  {
    || (after == before && u' == u)
    || (t.source != t.target && after == DetourOf(t, layout, c, u) && u' == UsageAfter(t, layout, c, u))
  }

  /** No transition is listed twice. */
  predicate Distinct(ts: seq<Transition>) {
    forall i, j | 0 <= i < j < |ts| :: ts[i] != ts[j]
  }

  /** `conflicts_checking`: visits the transitions in order; one that is not a self-loop and
      that crosses another transition or an unrelated box gets a detour, and the counters
      move on. Endpoints never change. The ghost trace `us` holds the counters before each
      visit and after the last one: they start empty, and the k-th transition either keeps
      its polyline while the counters stay, or gets the detour computed from `us[k]` while
      the counters move past it to `us[k + 1]`. */
  method ConflictsChecking(ts: seq<Transition>, layout: Layout, c: Collaborators) returns (ghost us: seq<Usage>)
    requires ValidLayout(layout)
    requires Distinct(ts)
    requires forall t | t in ts && t.source != t.target :: Reroutable(t, layout, c)
    modifies set t | t in ts
    ensures forall t | t in ts :: t.x1 == old(t.x1) && t.y1 == old(t.y1) && t.x2 == old(t.x2) && t.y2 == old(t.y2)
    ensures |us| == |ts| + 1 && us[0] == map[]
    ensures forall k | 0 <= k < |ts| :: PolylineStep(ts[k], layout, c, old(ts[k].polyline), ts[k].polyline, us[k], us[k + 1])
  {
    var usage: Usage := map[];
    us := [usage];
    for k := 0 to |ts|
      invariant forall t | t in ts :: t.x1 == old(t.x1) && t.y1 == old(t.y1) && t.x2 == old(t.x2) && t.y2 == old(t.y2)
      invariant |us| == k + 1 && us[0] == map[] && us[k] == usage
      invariant forall j | 0 <= j < k :: PolylineStep(ts[j], layout, c, old(ts[j].polyline), ts[j].polyline, us[j], us[j + 1])
      invariant forall j | k <= j < |ts| :: ts[j].polyline == old(ts[j].polyline)
    {
      usage := CheckOne(ts[k], ts, layout, c, usage);
      us := us + [usage];
    }
  }
}
