/** The objects a route is computed for: boxes of the hierarchical diagram, transitions
    between them, and the collaborators the router calls but does not define. */
module Diagram {
  import opened Geometry
  import opened Lists
  import opened Zones

  /** A box of the diagram. The hierarchy is built before routing starts and is only read
      while transitions are routed, so every attribute is a constant of the object.
      `ancestors` runs from the box itself up to the root; `header` is the height reserved
      for the title; `zone` is the side a self-loop leaves from; `transitions` are the
      box's outgoing transitions. */
  class Box {
    const name: string
    const parent: Box?
    const children: seq<Box>
    const axis: Axis
    const ancestors: seq<Box>
    const header: real
    const zone: Compass
    const transitions: seq<Transition>
  }

  /** An arrow from `source` to `target`. Its route is either the polyline, when that is not
      empty, or the straight segment between the two endpoints (x1, y1) and (x2, y2). */
  class Transition {
    const source: Box
    const target: Box
    var x1: real
    var y1: real
    var x2: real
    var y2: real
    var polyline: seq<Point>

    /** A new transition has both endpoints at the origin and no polyline. */
    constructor (source: Box, target: Box)
      ensures this.source == source && this.target == target
      ensures x1 == 0.0 && y1 == 0.0 && x2 == 0.0 && y2 == 0.0 && polyline == []
    {
      this.source := source;
      this.target := target;
      x1, y1, x2, y2 := 0.0, 0.0, 0.0, 0.0;
      polyline := [];
    }

    /** `coordinates`: the first and last points of the route. */
    function Coordinates(): (ends: (Point, Point))
      reads this
      ensures polyline != [] ==> ends == (polyline[0], polyline[|polyline| - 1])
      ensures polyline == [] ==> ends == (Point(x1, y1), Point(x2, y2))
    {
      Ends(State())
    }

    /** The drawable state of the transition. */
    function State(): Drawing
      reads this
    {
      Drawing(polyline, Point(x1, y1), Point(x2, y2))
    }

    /** `is_downward_transition`: the target lies inside the source. */
    predicate IsDownward() {
      source in target.ancestors
    }

    /** `segments`: the legs of the polyline in order, or the one segment between the
        endpoints when there is no polyline. A one-point polyline has no legs. */
    function Segments(): (segs: seq<Segment>)
      reads this
      ensures polyline == [] ==> segs == [Segment(Point(x1, y1), Point(x2, y2))]
      ensures polyline != [] ==> |segs| == |polyline| - 1
      ensures forall i :: 0 <= i < |segs| && polyline != [] ==> segs[i] == Segment(polyline[i], polyline[i + 1])
    {
      if polyline != [] then BuildSegments(polyline, [], 0)
      else [Segment(Point(x1, y1), Point(x2, y2))]
    }

    /** `update_coordinates`: sets the two endpoints and nothing else. */
    method UpdateCoordinates(start: Point, end: Point)
      modifies this
      ensures x1 == start.x && y1 == start.y && x2 == end.x && y2 == end.y
      ensures polyline == old(polyline)
    {
      x1, x2, y1, y2 := start.x, end.x, start.y, end.y;
    }

    /** The transitions of ts, other than this one, that some leg of this route crosses. */
    ghost function CrossingTransitions(ts: seq<Transition>, intersect: (Segment, Segment) -> bool): set<Transition>
      reads this, set u | u in ts
    {
      set u | u in ts && u != this && Crosses(Segments(), u.Segments(), intersect)
    }

    /** `conflicts_with_transitions`: the transitions of ts that this route crosses, in the
        order of ts; this transition itself is never reported. */
    method ConflictsWithTransitions(ts: seq<Transition>, intersect: (Segment, Segment) -> bool)
      returns (conflicts: seq<Transition>)
      ensures conflicts == Select(ts, CrossingTransitions(ts, intersect))
      ensures this !in conflicts
      ensures forall u | u in ts :: u in conflicts <==> u != this && Crosses(Segments(), u.Segments(), intersect)
    {
      ghost var hits := CrossingTransitions(ts, intersect);
      conflicts := [];
      for k := 0 to |ts|
        invariant conflicts == Select(ts[..k], hits)
      {
        var u := ts[k];
        if this != u {
          var found := FindCrossing(Segments(), u.Segments(), intersect);
          if found {
            conflicts := conflicts + [u];
          }
        }
        assert ts[..k + 1] == ts[..k] + [u];
        SelectSnoc(ts[..k], u, hits);
      }
      assert ts[..|ts|] == ts;
    }

    /** The boxes of `boxes` that this route crosses, leaving out its source, its target and
        every ancestor of its target. */
    ghost function CrossedBoxes(boxes: seq<Box>, rect: map<Box, Rect>, c: Collaborators): set<Box>
      reads this
    {
      set b | b in boxes && b !in target.ancestors && b != source && b != target
                && Crosses(Segments(), c.boxSegments(b, rect), c.intersect)
    }

    /** `conflicts_with_boxes`: the boxes of the layout, in key order, that this route
        crosses, apart from its own source and target and the target's ancestors. */
    method ConflictsWithBoxes(boxes: seq<Box>, rect: map<Box, Rect>, c: Collaborators)
      returns (conflicts: seq<Box>)
      ensures conflicts == Select(boxes, CrossedBoxes(boxes, rect, c))
      ensures source !in conflicts && target !in conflicts
      ensures forall b | b in conflicts :: b !in target.ancestors
      ensures forall b | b in boxes && b !in target.ancestors && b != source && b != target ::
                b in conflicts <==> Crosses(Segments(), c.boxSegments(b, rect), c.intersect)
    {
      ghost var hits := CrossedBoxes(boxes, rect, c);
      conflicts := [];
      for k := 0 to |boxes|
        invariant conflicts == Select(boxes[..k], hits)
      {
        var b := boxes[k];
        if b !in target.ancestors && b != source && b != target {
          var found := FindCrossing(Segments(), c.boxSegments(b, rect), c.intersect);
          if found {
            conflicts := conflicts + [b];
          }
        }
        assert boxes[..k + 1] == boxes[..k] + [b];
        SelectSnoc(boxes[..k], b, hits);
      }
      assert boxes[..|boxes|] == boxes;
    }
  }

  /** What a route leaves in a transition: its polyline and its two endpoints. */
  datatype Drawing = Drawing(polyline: seq<Point>, start: Point, end: Point)

  /** The first and last points of a drawing: those of the polyline when there is one, the
      two endpoints otherwise. */
  function Ends(d: Drawing): (Point, Point) {
    if d.polyline != [] then (d.polyline[0], d.polyline[|d.polyline| - 1]) else (d.start, d.end)
  }

  /** The legs joining p[i] to p[i + 1], from index i on, appended to acc: the recursive
      `build` of `segments`. */
  function BuildSegments(p: seq<Point>, acc: seq<Segment>, i: nat): (r: seq<Segment>)
    decreases |p| - i
    ensures |r| == |acc| + (if i + 1 < |p| then |p| - 1 - i else 0)
    ensures r[..|acc|] == acc
    ensures forall k :: |acc| <= k < |r| ==> r[k] == Segment(p[i + k - |acc|], p[i + k - |acc| + 1])
  {
    if |p| == 0 || i >= |p| - 1 then acc
    else BuildSegments(p, acc + [Segment(p[i], p[i + 1])], i + 1)
  }

  /** Some leg of one route and some leg of the other satisfy `intersect`. */
  predicate Crosses(mine: seq<Segment>, theirs: seq<Segment>, intersect: (Segment, Segment) -> bool) {
    exists i, j :: 0 <= i < |mine| && 0 <= j < |theirs| && intersect(mine[i], theirs[j])
  }

  /** With a symmetric `intersect`, crossing is symmetric: t reports u exactly when u
      reports t. */
  lemma CrossesSymmetric(mine: seq<Segment>, theirs: seq<Segment>, intersect: (Segment, Segment) -> bool)
    requires forall a, b :: intersect(a, b) == intersect(b, a)
    ensures Crosses(mine, theirs, intersect) == Crosses(theirs, mine, intersect)
  {
    if Crosses(mine, theirs, intersect) {
      var i, j :| 0 <= i < |mine| && 0 <= j < |theirs| && intersect(mine[i], theirs[j]);
      assert intersect(theirs[j], mine[i]);
    }
    if Crosses(theirs, mine, intersect) {
      var j, i :| 0 <= j < |theirs| && 0 <= i < |mine| && intersect(theirs[j], mine[i]);
      assert intersect(mine[i], theirs[j]);
    }
  }

  /** The inner `conflict` helper: tries every leg of one route against every leg of the
      other and stops at the first pair that `intersect` accepts. */
  method FindCrossing(mine: seq<Segment>, theirs: seq<Segment>, intersect: (Segment, Segment) -> bool)
    returns (found: bool)
    ensures found == Crosses(mine, theirs, intersect)
  {
    for i := 0 to |mine|
      invariant forall i', j :: 0 <= i' < i && 0 <= j < |theirs| ==> !intersect(mine[i'], theirs[j])
    {
      for j := 0 to |theirs|
        invariant forall j' :: 0 <= j' < j ==> !intersect(mine[i], theirs[j'])
      {
        if intersect(mine[i], theirs[j]) {
          return true;
        }
      }
    }
    return false;
  }

  /** The two views of a route agree: the first leg starts and the last leg ends at the
      route's coordinates (a one-point polyline, which has no legs, is the exception). */
  lemma CoordinatesAreSegmentEnds(t: Transition)
    requires |t.polyline| != 1
    ensures var segs := t.Segments();
            |segs| >= 1 && segs[0].a == t.Coordinates().0 && segs[|segs| - 1].b == t.Coordinates().1
  {
  }

  /** The functions the router uses from the rest of the program: the corridor width
      `space`, the segment intersection test, the four sides of a box as segments, and the
      lowest common ancestor of two boxes. */
  datatype Collaborators = Collaborators(
    space: real,
    intersect: (Segment, Segment) -> bool,
    boxSegments: (Box, map<Box, Rect>) -> seq<Segment>,
    lowestCommonAncestor: (Box, Box) -> Box)

  /** The coordinate dictionary: the rectangle of every box, and the order of its keys. */
  datatype Layout = Layout(boxes: seq<Box>, rect: map<Box, Rect>)

  /** The listed boxes are the keys of the dictionary, each listed once. */
  predicate ValidLayout(l: Layout) {
    && (forall b | b in l.rect :: b in l.boxes)
    && (forall i | 0 <= i < |l.boxes| :: l.boxes[i] in l.rect)
    && (forall i, j | 0 <= i < j < |l.boxes| :: l.boxes[i] != l.boxes[j])
  }
}
