/**
 * The older tree's 2D geometry helpers (aecGeomCalc): colinearity and
 * polygon checks, the monotone-chain convex hull, colinear-vertex removal,
 * box corners, midpoints, compass points on a bounding box, and mirroring
 * about an axis-parallel line.  Points are taken as already checked, so
 * the point check they are passed through is the identity here.
 */
module GeomCalc {
  import opened Wrappers
  import opened Points
  import opened Hull
  import opened Colinear

  /** aecGeomCalc.areColinear: None for fewer than 3 points, else whether the polygon has no area. */
  function AreColinear(points: seq<Point2>): (r: Option<bool>)
    ensures r.None? <==> |points| < 3
    ensures r == Some(true) <==> |points| >= 3 && Area(points) == 0.0
    ensures r == Some(false) <==> |points| >= 3 && Area(points) > 0.0
  {
    if |points| < 3 then None
    else if Area(points) > 0.0 then Some(false)
    else Some(true)
  }

  /** Three points are colinear exactly when their cross product vanishes. */
  lemma AreColinearTriple(a: Point2, b: Point2, c: Point2)
    ensures AreColinear([a, b, c]) == Some(Cross(a, b, c) == 0.0)
  {
    TriangleArea(a, b, c);
  }

  /** The window test inside rmvColinear is this areColinear on the window. */
  lemma AreColinearWindow(co: seq<Point2>)
    requires |co| == 3
    ensures AreColinear(co) == Some(ZeroArea(co))
  {
  }

  /** aecGeomCalc.checkPolygon: the points, unless there are fewer than 3 or they are colinear. */
  function CheckPolygon(points: seq<Point2>): (r: Option<seq<Point2>>)
    ensures r.Some? <==> |points| >= 3 && Area(points) > 0.0
    ensures r.Some? ==> r.value == points
  {
    if |points| < 3 || AreColinear(points) == Some(true) then None else Some(points)
  }

  /** The smallest element of a strictly increasing list comes first. */
  lemma IncreasingFirst(s: seq<Point2>, q: Point2)
    requires Increasing(s) && q in s
    ensures q == s[0] || Less(s[0], q)
  {
  }

  /** Two different members force at least two elements. */
  lemma TwoMembers(s: seq<Point2>, p: Point2, q: Point2)
    requires p in s && q in s && p != q
    ensures |s| >= 2
  {
  }

  /** One repeated point, or none at all: the inputs whose hull has no vertex. */
  predicate HullEmpty(points: seq<Point2>) {
    points == [] || (|points| > 2 && forall i :: 0 <= i < |points| ==> points[i] == points[0])
  }

  /** A strictly increasing list whose members all equal one point holds that point alone. */
  lemma SingleMember(s: seq<Point2>, p: Point2)
    requires Increasing(s) && forall q :: q in s ==> q == p
    ensures |s| <= 1
  {
    if |s| >= 2 {
      HeadPair(s);
      assert false;
    }
  }

  /** A strictly increasing list of two or more starts with two different members. */
  lemma HeadPair(s: seq<Point2>)
    requires Increasing(s) && |s| >= 2
    ensures s[0] in s && s[1] in s && s[0] != s[1]
  {
    assert Less(s[0], s[1]);
  }

  /**
   * aecGeomCalc.convexHull: at most two points come back unchanged;
   * otherwise the distinct points are sorted and the lower and upper chains
   * built and joined.  The hull uses distinct input points, starts at the
   * lexicographically smallest one, and turns strictly left within each
   * chain (the lower one up to split, the upper one after it).
   */
  method ConvexHull(points: seq<Point2>) returns (hull: seq<Point2>, ghost split: nat)
    ensures |points| <= 2 ==> hull == points
    ensures |points| > 2 ==> forall q :: q in hull ==> q in points
    ensures |points| > 2 ==> Distinct(hull)
    ensures |points| > 2 && |hull| > 0 ==> forall q :: q in points ==> q == hull[0] || Less(hull[0], q)
    ensures |points| > 2 && (exists i, j :: 0 <= i < j < |points| && points[i] != points[j]) ==> |hull| >= 2
    ensures hull == [] <==> HullEmpty(points)
    ensures |points| > 2 ==> split <= |hull|
    ensures |points| > 2 ==> Increasing(hull[..split]) && LeftTurns(hull[..split])
    ensures |points| > 2 ==> Decreasing(hull[split..]) && LeftTurns(hull[split..])
  {
    if |points| <= 2 {
      return points, 0;
    }
    var sorted := SortedSet(points);
    hull, split := MonotoneHull(sorted);
    if |hull| > 0 {
      forall q | q in points ensures q == hull[0] || Less(hull[0], q) {
        IncreasingFirst(sorted, q);
      }
    }
    if exists i, j :: 0 <= i < j < |points| && points[i] != points[j] {
      var i, j :| 0 <= i < j < |points| && points[i] != points[j];
      TwoMembers(sorted, points[i], points[j]);
    } else {
      assert forall q :: q in points ==> q == points[0];
      SingleMember(sorted, points[0]);
    }
  }

  /**
   * aecGeomCalc.rmvColinear: None for no points; otherwise the distinct
   * points in first-appearance order, doubled, swept three times removing
   * the middle of every zero-area window, and deduplicated again.
   */
  method RmvColinear(points: seq<Point2>) returns (r: Option<seq<Point2>>)
    ensures r.None? <==> points == []
    ensures r.Some? ==> r.value == Reduce(points)
    ensures r.Some? ==> Distinct(r.value) && |r.value| >= 1 && forall q :: q in r.value ==> q in points
  {
    if points == [] {
      return None;
    }
    var d := Dedupe(points);
    var work := Sweeps(d);
    r := Some(Dedupe(work));
    ReduceKeeps(points);
  }

  /** A point as the older tree passes it around: an (x, y) or an (x, y, z) tuple. */
  datatype Coord = C2(x: real, y: real) | C3(x: real, y: real, z: real)

  function Plan(c: Coord): Point2 { Point2(c.x, c.y) }

  /** aecGeomCalc.getMidpoint: halfway in x and y, and in z only when both points have one. */
  function GetMidpoint(a: Coord, b: Coord): (m: Coord)
    ensures m.C3? <==> a.C3? && b.C3?
    ensures m.x - a.x == b.x - m.x && m.y - a.y == b.y - m.y
    ensures m.C3? ==> m.z - a.z == b.z - m.z
  {
    var x, y := (a.x + b.x) * 0.5, (a.y + b.y) * 0.5;
    if a.C3? && b.C3? then C3(x, y, (a.z + b.z) * 0.5) else C2(x, y)
  }

  lemma MidpointSymmetric(a: Coord, b: Coord)
    ensures GetMidpoint(a, b) == GetMidpoint(b, a)
  {
  }

  /**
   * aecGeomCalc.getBoxPoints: the corners origin, +x, +x+y, +y, as 2D
   * points for a 2D box and at the origin's z otherwise; a 3D box needs a
   * 3D origin.
   */
  function GetBoxPoints(origin: Coord, vector: Coord, box2D: bool): (r: Option<seq<Coord>>)
    ensures r.None? <==> !box2D && origin.C2?
    ensures r.Some? ==> |r.value| == 4 && forall i :: 0 <= i < 4 ==> r.value[i].C3? == !box2D
    ensures r.Some? ==> Plan(r.value[0]) == Plan(origin)
    ensures r.Some? ==> Plan(r.value[2]) == Point2(origin.x + vector.x, origin.y + vector.y)
    ensures r.Some? && !box2D ==> forall i :: 0 <= i < 4 ==> r.value[i].z == origin.z
  {
    var x0, y0 := origin.x, origin.y;
    var x1, y1 := origin.x + vector.x, origin.y + vector.y;
    if box2D then Some([C2(x0, y0), C2(x1, y0), C2(x1, y1), C2(x0, y1)])
    else if origin.C2? then None
    else Some([C3(x0, y0, origin.z), C3(x1, y0, origin.z), C3(x1, y1, origin.z), C3(x0, y1, origin.z)])
  }

  /** The box's plan has area |vx * vy| and runs counter-clockwise when vx * vy > 0. */
  lemma BoxPlanArea(origin: Coord, vector: Coord, box2D: bool)
    requires GetBoxPoints(origin, vector, box2D).Some?
    ensures var b := GetBoxPoints(origin, vector, box2D).value;
      var plan := [Plan(b[0]), Plan(b[1]), Plan(b[2]), Plan(b[3])];
      Shoelace(plan) == 2.0 * vector.x * vector.y &&
      Area(plan) == Abs(vector.x * vector.y)
  {
    var b := GetBoxPoints(origin, vector, box2D).value;
    var plan := [Plan(b[0]), Plan(b[1]), Plan(b[2]), Plan(b[3])];
    var x0, y0, x1, y1 := origin.x, origin.y, origin.x + vector.x, origin.y + vector.y;
    assert plan == [Point2(x0, y0), Point2(x1, y0), Point2(x1, y1), Point2(x0, y1)];
    assert ShoelaceFrom(plan, 3) == Term(plan[3], plan[0]) + ShoelaceFrom(plan, 4);
    assert ShoelaceFrom(plan, 2) == Term(plan[2], plan[3]) + ShoelaceFrom(plan, 3);
    assert ShoelaceFrom(plan, 1) == Term(plan[1], plan[2]) + ShoelaceFrom(plan, 2);
    assert ShoelaceFrom(plan, 0) == Term(plan[0], plan[1]) + ShoelaceFrom(plan, 1);
    assert Term(plan[0], plan[1]) + Term(plan[1], plan[2]) + Term(plan[2], plan[3]) + Term(plan[3], plan[0])
      == 2.0 * vector.x * vector.y;
  }

  /**
   * aecGeomCalc.checkBoundingBox: at least two points; two or three are an
   * origin and a vector, four or more are the corners themselves.
   */
  function CheckBoundingBox(boundingbox: seq<Coord>, box2D: bool): (r: Option<seq<Coord>>)
    ensures |boundingbox| < 2 ==> r.None?
    ensures |boundingbox| >= 4 ==> r == Some(boundingbox[..4])
    ensures 2 <= |boundingbox| < 4 ==> r == GetBoxPoints(boundingbox[0], boundingbox[1], box2D)
    ensures r.Some? ==> |r.value| == 4
  {
    if |boundingbox| < 2 then None
    else if |boundingbox| < 4 then GetBoxPoints(boundingbox[0], boundingbox[1], box2D)
    else Some(boundingbox[..4])
  }

  /** The compass constants of aecCompass. */
  const C := 0
  const N := 1
  const NNE := 2
  const NE := 3
  const ENE := 4
  const E := 5
  const ESE := 6
  const SE := 7
  const SSE := 8
  const S := 9
  const SSW := 10
  const SW := 11
  const WSW := 12
  const W := 13
  const WNW := 14
  const NW := 15
  const NNW := 16

  /**
   * aecGeomCalc.getCompassPointBox: None for an orientation outside C..NNW
   * or a box that does not check; otherwise the centre, a side midpoint, a
   * corner, or the midpoint between a side midpoint and a corner.
   */
  function GetCompassPointBox(boundingbox: seq<Coord>, box2D: bool, orient: int): (r: Option<Coord>)
    ensures r.Some? <==> C <= orient <= NNW && CheckBoundingBox(boundingbox, box2D).Some?
    ensures r.Some? ==> var b := CheckBoundingBox(boundingbox, box2D).value;
      (orient == C ==> r.value == GetMidpoint(b[0], b[2])) &&
      (orient == N ==> r.value == GetMidpoint(b[3], b[2])) &&
      (orient == SW ==> r.value == b[0]) && (orient == SE ==> r.value == b[1]) &&
      (orient == NE ==> r.value == b[2]) && (orient == NW ==> r.value == b[3])
  {
    if orient < C || orient > NNW then None
    else match CheckBoundingBox(boundingbox, box2D)
      case None => None
      case Some(b) =>
        var north := GetMidpoint(b[3], b[2]);
        var west := GetMidpoint(b[0], b[3]);
        var south := GetMidpoint(b[0], b[1]);
        var east := GetMidpoint(b[1], b[2]);
        Some(
          if orient == C then GetMidpoint(b[0], b[2])
          else if orient == N then north
          else if orient == W then west
          else if orient == S then south
          else if orient == E then east
          else if orient == SW then b[0]
          else if orient == SE then b[1]
          else if orient == NE then b[2]
          else if orient == NW then b[3]
          else if orient == NNW then GetMidpoint(north, b[3])
          else if orient == WNW then GetMidpoint(west, b[3])
          else if orient == WSW then GetMidpoint(west, b[0])
          else if orient == SSW then GetMidpoint(b[0], south)
          else if orient == SSE then GetMidpoint(south, b[1])
          else if orient == ESE then GetMidpoint(east, b[1])
          else if orient == ENE then GetMidpoint(east, b[2])
          else GetMidpoint(north, b[2]))
  }

  /** Where each compass direction sits across the box, as a fraction of its width. */
  function EastFraction(orient: int): real {
    if orient in {SW, WSW, W, WNW, NW} then 0.0
    else if orient in {SSW, NNW} then 0.25
    else if orient in {C, N, S} then 0.5
    else if orient in {NNE, SSE} then 0.75
    else 1.0
  }

  /** Where each compass direction sits up the box, as a fraction of its depth. */
  function NorthFraction(orient: int): real {
    if orient in {SW, SSW, S, SSE, SE} then 0.0
    else if orient in {WSW, ESE} then 0.25
    else if orient in {C, W, E} then 0.5
    else if orient in {WNW, ENE} then 0.75
    else 1.0
  }

  /**
   * On a box given by a 3D origin and a vector, every compass point lies at
   * its fraction of the vector from the origin, at the origin's level.
   */
  lemma CompassOnBox(origin: Coord, vector: Coord, orient: int)
    requires origin.C3? && C <= orient <= NNW
    ensures GetCompassPointBox([origin, vector], false, orient) ==
      Some(C3(origin.x + EastFraction(orient) * vector.x, origin.y + NorthFraction(orient) * vector.y, origin.z))
  {
    var b := GetBoxPoints(origin, vector, false).value;
    assert CheckBoundingBox([origin, vector], false) == Some(b);
  }

  /** Python's list(point) with the x coordinate reflected: 2 * mx - x, written as the source's step. */
  function MirrorX(p: Point2, mx: real): (q: Point2)
    ensures q == Point2(2.0 * mx - p.x, p.y)
  {
    var distance := Abs(p.x - mx) * 2.0;
    if p.x < mx then Point2(p.x + distance, p.y) else Point2(p.x - distance, p.y)
  }

  function MirrorY(p: Point2, my: real): (q: Point2)
    ensures q == Point2(p.x, 2.0 * my - p.y)
  {
    var distance := Abs(p.y - my) * 2.0;
    if p.y < my then Point2(p.x, p.y + distance) else Point2(p.x, p.y - distance)
  }

  /** The reflection of one point about the axis through m1 and m2, vertical first. */
  function Mirror(p: Point2, m1: Point2, m2: Point2): Point2
    requires m1.x == m2.x || m1.y == m2.y
  {
    if m1.x == m2.x then MirrorX(p, m1.x) else MirrorY(p, m1.y)
  }

  /** Mirroring twice gives back the point, points on the axis stay, and distance to it is kept. */
  lemma MirrorInvolution(p: Point2, m1: Point2, m2: Point2)
    requires m1.x == m2.x || m1.y == m2.y
    ensures Mirror(Mirror(p, m1, m2), m1, m2) == p
    ensures m1.x == m2.x ==> (p.x == m1.x <==> Mirror(p, m1, m2) == p)
    ensures m1.x == m2.x ==> Abs(Mirror(p, m1, m2).x - m1.x) == Abs(p.x - m1.x)
    ensures m1.x != m2.x ==> (p.y == m1.y <==> Mirror(p, m1, m2) == p)
    ensures m1.x != m2.x ==> Abs(Mirror(p, m1, m2).y - m1.y) == Abs(p.y - m1.y)
  {
  }

  /**
   * aecGeomCalc.mirrorPoints2D for a vertical or horizontal mirror line:
   * a new list with every point reflected.
   */
  method MirrorPoints2D(points: seq<Point2>, m1: Point2, m2: Point2) returns (newPoints: seq<Point2>)
    requires m1.x == m2.x || m1.y == m2.y
    ensures |newPoints| == |points|
    ensures forall i :: 0 <= i < |points| ==> newPoints[i] == Mirror(points[i], m1, m2)
  {
    newPoints := [];
    if m1.x == m2.x {
      for i := 0 to |points|
        invariant |newPoints| == i
        invariant forall k :: 0 <= k < i ==> newPoints[k] == Mirror(points[k], m1, m2)
      {
        var point := points[i];
        var distance := Abs(point.x - m1.x) * 2.0;
        if point.x < m1.x {
          point := point.(x := point.x + distance);
        } else {
          point := point.(x := point.x - distance);
        }
        newPoints := newPoints + [point];
      }
    } else {
      for i := 0 to |points|
        invariant |newPoints| == i
        invariant forall k :: 0 <= k < i ==> newPoints[k] == Mirror(points[k], m1, m2)
      {
        var point := points[i];
        var distance := Abs(point.y - m1.y) * 2.0;
        if point.y < m1.y {
          point := point.(y := point.y + distance);
        } else {
          point := point.(y := point.y - distance);
        }
        newPoints := newPoints + [point];
      }
    }
  }
}
