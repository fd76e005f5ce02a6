# Transition routing for hierarchical box diagrams

This project models how a statechart-like diagram draws its transitions once every box has a
rectangle (`structures/transition.py`). Boxes nest: each box has a parent, children laid out
along a horizontal or vertical axis, a header, a preferred side for self-loops, and a list
of outgoing transitions. Drawing happens in two passes.

1. **First route** (`update_transitions_coordinates`). Each transition gets one of these:
   - a self-loop around a corner of its box;
   - a straight segment across the overlap of the two boxes' extents (the *acceptance
     zone*), when there is one;
   - a straight segment into a child, when the target is a descendant of the source;
   - otherwise the *classic arrow*: a three-point elbow. The elbows leaving one box towards
     one quadrant are spread evenly along the edge facing that quadrant.

   The transitions joining the same two boxes, in either direction, are spread evenly across
   the overlap by their rank in the *reciprocal list*.
2. **Conflict resolution** (`conflicts_checking`). A transition whose route crosses another
   transition or an unrelated box is re-routed through one of four *attraction points* of
   the lowest common ancestor of its boxes. Counters shared by the whole pass spread these
   detours.

Modules:
- `Geometry`: points, rectangles, segments, boundary tests, squared distances.
- `Lists`: filtering, stable insertion sort, first index, string order.
- `Zones`: `zone_of`, `zone` and `acceptance_zone`.
- `Spacing`: even spacing by rank.
- `Diagram`: the `Box` and `Transition` classes and their conflict tests.
- `Arrows`: `classic_arrow`.
- `Rerouting`: `compute_attraction_points` and `conflicts_checking`.
- `Routing`: the reciprocal list, the first route and `update_transitions_coordinates`.

`Transition` is a class with mutable coordinates and a mutable polyline. Its methods state
the new state, and the loops over the transition list are methods with invariants. The
geometry is made of pure functions with lemmas.

The routes themselves are computed by plain functions, and the rows below name the lemmas
about them:
- `Arrows.Fan` and `Arrows.ClassicArrow` compute the sorted fan and the elbow (`FanContents`, `ClassicArrowShape`).
- `Routing.Reciprocal` and `Routing.PrimaryRoute` compute the reciprocal list and the first route (`ReciprocalContents`, `StraightRouteTaken`).
- `Rerouting.InConflict` is the conflict test (`HasConflict`).
- `Rerouting.DetourOf` is the detour of one transition (`Reroute`, `CheckOne`).

## Model

| member | source | states |
|---|---|---|
| Diagram.Transition.constructor | structures/transition.py:10-17 | A new transition joins the given source and target, has all four coordinates at zero and has an empty polyline. |
| Diagram.Transition.Coordinates | structures/transition.py:19-27 | With a polyline, the endpoints are its first and last points. Without one, they are the two stored coordinates. |
| Diagram.Transition.Segments | structures/transition.py:36-51 | Without a polyline, the route is the one segment between the coordinates. With one, leg i joins point i to point i + 1, so there is one leg fewer than points. |
| Diagram.BuildSegments | structures/transition.py:42-46 | The recursive `build` keeps what it has already collected and appends the legs from index i onwards, each joining consecutive points. |
| Diagram.CoordinatesAreSegmentEnds | structures/transition.py:19-51 | `coordinates` and `segments` agree: the first leg starts at the start coordinate and the last leg ends at the end coordinate, for any polyline except a one-point one. |
| Diagram.Transition.UpdateCoordinates | structures/transition.py:53-60 | Sets both endpoints to the given points and leaves the polyline as it was. |
| Diagram.FindCrossing | structures/transition.py:92-97 | The nested loop of `conflict` answers true exactly when some leg of one route and some leg of the other intersect. |
| Diagram.CrossesSymmetric | structures/transition.py:85-104 | With a symmetric intersection test, t reports u as crossing exactly when u reports t. |
| Diagram.Transition.ConflictsWithTransitions | structures/transition.py:85-104 | Returns, in list order, exactly the other transitions whose legs meet this route's legs; never the transition itself. |
| Diagram.Transition.ConflictsWithBoxes | structures/transition.py:62-83 | Returns, in key order, exactly the boxes this route crosses, leaving out its source, its target and the target's ancestors. |
| Geometry.Dist2 | structures/transition.py:540-543 | The squared distance is never negative, and it is zero from a point to itself. |
| Geometry.Dist2Symmetric | structures/transition.py:540-543 | The distance from p to q equals the distance from q to p. |
| Geometry.SquareOrder | structures/transition.py:540-543 | Two non-negative numbers compare, and are equal, exactly as their squares do. So comparing squared distances gives the answers that comparing `sqrt` distances gives. |
| Geometry.Nearer | structures/transition.py:404 | `min` over two candidates keyed by distance returns one of them, no farther than either. It returns the second only when the second is strictly nearer, so the first wins ties. |
| Zones.ZoneOf | structures/transition.py:113-134 | Each quadrant holds exactly when the centre offsets have the matching signs; the non-strict tests put boundary lines in the first quadrant tried. |
| Zones.ZoneOfSwap | structures/transition.py:113-134 | Seen from the other box, a box strictly inside a quadrant lies in the opposite quadrant. |
| Zones.Zone | structures/transition.py:546-564 | None exactly when the centres coincide. West or East exactly when the offset is at least as wide as tall (West for a target to the right). North or South otherwise (North for a lower target). |
| Zones.ZoneSwap | structures/transition.py:546-564 | Swapping the two boxes turns every label into its opposite. |
| Zones.ZoneWithinQuadrant | structures/transition.py:113-134 | The compass label and the quadrant agree: West lies in an eastern quadrant, North in a southern one, and so on. |
| Zones.CosineTest | structures/transition.py:555-564 | Let d be the length of the offset and k the positive square root of one half. Over the reals, the test abs(dx / d) >= k holds exactly when abs(dx) >= abs(dy), which is the test `Zone` makes. |
| Zones.MiddleOfFour | structures/transition.py:151-153 | Removing the minimum and then the maximum of two proper intervals' four ends leaves the larger lower end and the smaller upper end. |
| Zones.DropLowest | structures/transition.py:152 | Removing the first minimum of the four ends removes the smaller lower end. |
| Zones.DropHighest | structures/transition.py:153 | Removing the first maximum of three values removes the first largest one. |
| Zones.MiddleBounds | structures/transition.py:151-154 | The two values kept are, in order, the smaller and the larger of the larger lower end and the smaller upper end. |
| Zones.CommonInterval | structures/transition.py:150-156 | A result is found only when both intervals are proper. It lies inside both intervals. |
| Zones.AcceptanceZone | structures/transition.py:137-156 | A zone that is found lies within both boxes' extents across the axis. |
| Zones.CommonIntervalIsOverlap | structures/transition.py:137-156 | The interval is the intersection of the two extents. It is present exactly when both extents are proper and they meet, touching included. |
| Zones.AcceptanceZoneIsOverlap | structures/transition.py:137-156 | `acceptance_zone` on an axis equals the closed-form overlap of the two boxes' extents across that axis. |
| Zones.AcceptanceZoneSymmetric | structures/transition.py:137-156 | The zone does not depend on the order of the two boxes. |
| Spacing.Spread | structures/transition.py:295 | The position `lo + w/(n+1) + i*w/(n+1)` is i + 1 steps of w/(n + 1) from the lower end. |
| Spacing.SpreadBack | structures/transition.py:196 | The position `hi - w/(n+1) - i*w/(n+1)` is i + 1 steps of w/(n + 1) back from the upper end. |
| Spacing.SpreadBounds | structures/transition.py:295 | Every rank below the count falls inside the interval, strictly inside when the interval has positive width. |
| Spacing.SpreadMonotone | structures/transition.py:295 | A higher rank lies further from the end the positions are counted from. |
| Spacing.SpreadDistinct | structures/transition.py:295-306 | Distinct ranks get distinct positions in an interval of positive width. |
| Spacing.SpreadSingle | structures/transition.py:295 | A single item sits at the middle of the interval. |
| Spacing.AlongInside | structures/transition.py:183-184 | The elbow position is (rank + 1)/(count + 1) of the way from the chosen end of the side, strictly inside a proper side. |
| Arrows.FanContents | structures/transition.py:172-180 | The sorted list (`Fan`) holds exactly the source's transitions into the quadrant, in non-decreasing order of distance from the facing corner to the target's facing side. |
| Arrows.FanRank | structures/transition.py:181-182 | The rank is the first position of the transition in its sorted list, as `l.index` returns it. |
| Arrows.ElbowLegs | structures/transition.py:175-270 | Every elbow (`Elbow`) has three points, one vertical and one horizontal leg, leaves from the source's side facing the quadrant and ends on the target's boundary. |
| Arrows.ElbowExit | structures/transition.py:183-186 | The elbow leaves the source (i + 1)/(n + 1) of the way along its side from the corner facing the quadrant. For a rank of the list this is strictly inside the side of a proper box. |
| Arrows.ElbowExitMonotone | structures/transition.py:175-198 | A lower rank leaves nearer the corner facing the quadrant. |
| Arrows.ClassicArrowShape | structures/transition.py:159-270 | The classic arrow (`ClassicArrow`) is a three-point orthogonal elbow. It leaves at its rank's position along the source's side facing the quadrant and ends at the middle of the target's facing side, for both parent axes. |
| Arrows.ClassicArrowFansOut | structures/transition.py:172-198 | Two different transitions from one box into one quadrant leave at different points, in the order of their ranks. |
| Rerouting.ComputeAttractionPoints | structures/transition.py:532-537 | North lies half a corridor below the header and south half a corridor above the bottom. West and east lie half a corridor inside the left and right sides. North and south share the middle x, and west and east share the middle y of the area below the header. |
| Rerouting.AttractionPointsInside | structures/transition.py:532-537 | When the box is larger than the corridor, all four points lie strictly inside it. |
| Rerouting.Bump | structures/transition.py:369 | Exactly the chosen point's counter goes up by one. |
| Rerouting.LeastUsedIndex | structures/transition.py:368 | `min(..., key=usage)` returns a least-used candidate, the earliest among ties. |
| Rerouting.LeastUsed | structures/transition.py:368 | The chosen point is one of the candidates. |
| Rerouting.LeastUsedIsFirstMinimum | structures/transition.py:368 | The chosen point's counter is no greater than any candidate's. No candidate before it has the same count, so it is the first least-used one, as `min` with a key returns. |
| Rerouting.HorizontalApproach | structures/transition.py:365-400 | West and East approaches: 3 or 5 points, starting on the source's boundary and ending with an axis-aligned leg at the north or south point. The first pick's counter goes up. |
| Rerouting.HorizontalOuter | structures/transition.py:367-387 | The outer branch, where the side point is a candidate, has the same shape as HorizontalApproach. |
| Rerouting.HorizontalInner | structures/transition.py:388-400 | The inner branch has 3 points and ends at north or south. |
| Rerouting.VerticalApproach | structures/transition.py:447-482 | North and South approaches: 3 or 5 points, ending with an axis-aligned leg at the west or east point. The first pick's counter goes up. |
| Rerouting.VerticalOuter | structures/transition.py:449-469 | The outer branch, where the top or bottom point is a candidate, has the same shape as VerticalApproach. |
| Rerouting.VerticalInner | structures/transition.py:470-482 | The inner branch has 3 points and ends at west or east. |
| Rerouting.Approach | structures/transition.py:365-523 | Every approach has 3 or 5 points. |
| Rerouting.ApproachUsage | structures/transition.py:365-523 | In every zone, exactly the counter of the first least-used pick goes up. |
| Rerouting.ApproachStart | structures/transition.py:365-523 | In every zone the detour starts on the source's boundary. |
| Rerouting.ApproachEnd | structures/transition.py:365-523 | West and East approaches end at the north or south point, all others at the west or east point, each after an axis-aligned leg. |
| Rerouting.SideApproach | structures/transition.py:365-441 | The West and East cases of ApproachEnd and ApproachUsage. |
| Rerouting.TopBottomApproach | structures/transition.py:447-523 | The North and South (and no-zone) cases of ApproachEnd and ApproachUsage. |
| Rerouting.Enter | structures/transition.py:401-405 | The last two points are an elbow from the attraction point to whichever of the target's two facing midpoints is nearer (the first on ties). That midpoint lies on the target's boundary. |
| Rerouting.Reroute | structures/transition.py:363-528 | A detour (`DetourOf` for a transition) has 5 or 7 points. It starts on the source's boundary, passes through an attraction point and ends on the target's boundary at the nearer entry point, with axis-aligned final legs. The counters change by exactly one bump. |
| Rerouting.Detach | structures/transition.py:363-529 | Replaces the polyline by the detour and returns the updated counters; the endpoints are unchanged. |
| Rerouting.HasConflict | structures/transition.py:360-362 | For a layout whose box list and rectangle keys agree, the result is true exactly when the route crosses another transition, or else an unrelated box (`InConflict`). |
| Rerouting.CheckOne | structures/transition.py:359-529 | A transition that is not a self-loop and is in conflict at the time of the call gets the detour computed from the counters given, and the counters move past that detour. Otherwise nothing changes. The endpoints never change. |
| Rerouting.ConflictsChecking | structures/transition.py:356-529 | Endpoints never change. A ghost trace holds the counters before each visit and after the last one, starting empty. At visit k the transition either keeps its polyline while the counters stay, or, when it is not a self-loop, gets the detour computed from entry k while the counters become entry k + 1, the counters after that detour. So self-loops keep their polyline, and each detour is computed from the counters left by the visits before it. |
| Routing.KeyOrder | structures/transition.py:284 | Comparing the name keys is a strict weak order, so the stable sort is well defined. |
| Routing.ReciprocalContents | structures/transition.py:281-285 | The reciprocal list (`Reciprocal`) holds exactly the transitions between the two boxes in either direction, as listed by their sources, in non-decreasing key order. |
| Routing.ReciprocalRank | structures/transition.py:287-288 | The rank is a position of the transition in its reciprocal list. |
| Routing.ReciprocalListsAgree | structures/transition.py:281-285 | Both ends of a pair compute the same list whenever the two keys differ. |
| Routing.Drawn | structures/transition.py:292-352 | A straight route sets both endpoints and empties the polyline. A path sets the polyline, whose ends become the coordinates, and keeps the endpoints. |
| Routing.DrawnTwice | structures/transition.py:292-352 | Drawing the same route twice is the same as drawing it once. |
| Routing.StraightLane | structures/transition.py:292-310 | A straight route (`Straight`) is one horizontal (or vertical) segment whose lane is the rank's evenly spaced position. |
| Routing.StraightShape | structures/transition.py:292-310 | Across an interval inside both extents, the segment runs from the source's boundary to the target's boundary with its lane inside the interval. |
| Routing.StraightRouteTaken | structures/transition.py:290-310 | When a zone is found, horizontal first, the first route (`PrimaryRoute`) is the straight route across it at the transition's reciprocal rank. |
| Routing.StraightRouteShape | structures/transition.py:290-310 | That route is one axis-aligned segment from boundary to boundary. Its lane is the rank's position, inside the zone and strictly inside when the zone has positive width. |
| Routing.StraightAcrossOverlap | structures/transition.py:292-310 | The same shape for the straight route across the closed-form overlap. |
| Routing.ReciprocalSeparation | structures/transition.py:281-310 | Two different transitions joining the same two boxes, in either direction, get different lanes. |
| Routing.InnerRouteShape | structures/transition.py:311-333 | For a downward transition (`IsDownward`), the route into a child (`Inner`) is one segment, at the child's middle, from a side of the source to the same side of the child. |
| Routing.NestedTargetIsStraight | structures/transition.py:289-333 | A proper target inside its source's y-extent always has a horizontal zone, so it gets a straight route. |
| Routing.NestedOverlap | structures/transition.py:137-156 | A y-extent nested in another is their overlap. |
| Routing.SelfLoopShape | structures/transition.py:337-352 | A self-loop (`SelfLoop`) has five points and orthogonal legs, starts on the side named by the box's zone and ends on the box. With a positive space its three middle points lie outside the box, and no point goes beyond the margin. |
| Routing.SelfLoopReversed | structures/transition.py:338-352 | The west loop is the north loop reversed, and the east loop is the south loop reversed. |
| Routing.SideBySideExample | structures/transition.py:292-299 | Boxes (0,0,10,10) and (20,0,30,10) joined by one transition: the route is the segment from (10,5) to (20,5). |
| Routing.SideBySideGeometry | structures/transition.py:137-156 | The zone of the two example boxes is (0,10), and the single-rank straight route is at mid-height. |
| Routing.SelfLoopExample | structures/transition.py:338-341 | A north self-loop on (0,0,10,10) is the five listed points. |
| Routing.Place | structures/transition.py:292-352 | Leaves in the transition exactly the state its route describes. |
| Routing.PlaceAll | structures/transition.py:274-352 | After the loop, every transition holds the state its route describes. |
| Routing.UpdateTransitionsCoordinates | structures/transition.py:273-353 | The endpoints are those the first route leaves. With the counter trace of the conflict pass, the k-th transition keeps its first route's polyline while the counters stay, or, when it is not a self-loop, gets the detour computed from entry k while the counters become those after that detour. |
| Lists.SortBySorted | structures/transition.py:284 | The stable sort orders the list when the comparison is a strict weak order. |
| Lists.SortBy | structures/transition.py:284 | The sort returns a permutation of its input. |
| Lists.SortByStable | structures/transition.py:284 | Elements of a set none of which precedes another, such as those sharing one key, keep their input order. |
| Lists.IndexOf | structures/transition.py:288 | `list.index` returns a position holding the element, with no earlier one. |
| Lists.LexLess | structures/transition.py:284 | The string order is irreflexive, and a proper prefix comes before the longer string. |
| Lists.IndexOfInjective | structures/transition.py:288 | Different transitions have different first positions. |
| Lists.SortBlocks | structures/transition.py:281-284 | Sorting two blocks with constant, different keys puts the block with the smaller key first, whatever the input order. |

## Left out

- The guard, event and action texts of a transition, and `__str__`. They play no part in routing.
- Floating point. Coordinates are exact reals, so `sqrt` is not modelled. Distance comparisons use squared distances, which order the same way. `zone` compares |dx| with |dy| instead of normalising the vector and comparing with the square root of one half; over the reals the two tests agree (`CosineTest`). In floating point they can differ on an exact diagonal: 1/1.4142135623730951 is about 0.70710678118654746, which is below sqrt(2)/2, about 0.70710678118654757, so the Python code may pick North or South there where the model picks West or East. This is a hand calculation and was not executed.
- The segment intersection test, the four sides of a box as segments, the lowest common ancestor and the corridor width `space` come from `structures/segment.py` and `structures/box.py`. These are parameters here (`Collaborators`), and those files are not part of this model.
- Box layout, headers and children lists are read-only here (`const` fields); no box is constructed.
- `zone` returning `False` (coinciding centres) is modelled as `None`. It takes the final `else`, the south branch, as in the code.
- In the north branch, the start of the path towards the west point is `(x2 + x2) / 2`, that is x2, not the middle of the top side. It is kept as written.
- A detour has 5 or 7 points, and when the side attraction point wins the first pick it contains a diagonal leg. This follows the code. The detour is therefore not always orthogonal, and it can have 7 points.
- The inner route reads `parent.childrent` for the last-child test. As written, Python would raise for any child that is not the first. It is modelled as the `children` list meant.
- A box's zone is a `Compass`. The self-loop code sends any other value to the east loop; such values are not representable here.
- The routes of the first pass are computed before any transition is updated. This is equivalent to the code, because a first route reads only rectangles and the transition lists, never coordinates or polylines.
- Rerouting.Approach: its own contract gives only the length. End point, start and counters are stated by ApproachEnd, ApproachStart and ApproachUsage.
- Rerouting.ConflictsChecking: it does not state which transitions are found in conflict, because that depends on the polylines of the other transitions at the time of each visit. CheckOne states that decision for one visit, and the loop applies CheckOne in list order.
- Rerouting.ConflictsChecking: it requires each transition to be listed once, as the transitions of a diagram are. With a repeated transition, the later visit would see the polyline left by the earlier one, and the contract states nothing for such a list.
- Rerouting.ConflictsChecking: it requires rectangles for every box a detour could need, including the lowest common ancestor, for every transition that is not a self-loop. The code needs them only for the transitions found in conflict, which are not known before the pass.
- Rerouting.CheckOne: it requires those rectangles for a transition that is not a self-loop even when it is not in conflict. The code reads them only in the conflict branch.
- Routing.UpdateTransitionsCoordinates: like ConflictsChecking, it does not state which transitions the conflict pass detours, and it requires each transition to be listed once.
- The rectangle dictionary is modelled as a list of boxes with a map from box to rectangle. `ValidLayout` requires the list to hold the map's keys, each once, which a Python dictionary guarantees of its keys.
- Routing.UpdateTransitionsCoordinates: it requires rectangles for every box a detour could need, including the lowest common ancestor, for every transition that is not a self-loop. The code needs them only for the transitions found in conflict.
- Routing.ReciprocalSeparation: for opposite directions it assumes the two name keys differ. With names such as "a" and "aa" both ends compute the lists in different orders, and the ranks may clash.
