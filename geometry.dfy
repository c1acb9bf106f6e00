/**
 * The package's geometry helpers (aecGeometry): the same hull and
 * colinear-vertex removal as the older tree on aecPoint values, convexity
 * of a counter-clockwise polygon, box corners, midpoints, compass points
 * on a quad of corners, and mirroring of point objects in place.
 */
module Geometry {
  import opened Wrappers
  import opened Points
  import opened Hull
  import opened Colinear
  import AecPoint

  /** aecGeometry.areColinear: True for fewer than 3 points, else whether the plan has no area. */
  function AreColinear(points: seq<Point3>): (r: bool)
    ensures |points| < 3 ==> r
    ensures |points| >= 3 ==> (r <==> Area(Flat(points)) == 0.0)
  {
    if |points| < 3 then true
    else if Area(Flat(points)) > 0.0 then false
    else true
  }

  /** Three points are colinear exactly when their cross product vanishes, whatever their levels. */
  lemma AreColinearTriple(a: Point3, b: Point3, c: Point3)
    ensures AreColinear([a, b, c]) <==> Cross(XY(a), XY(b), XY(c)) == 0.0
  {
    assert Flat([a, b, c]) == [XY(a), XY(b), XY(c)];
    TriangleArea(XY(a), XY(b), XY(c));
  }

  /**
   * The convex flag of aecGeometry.getAngles: the turn from the incoming
   * edge (prv to vtx) to the outgoing edge (vtx to nxt) is not clockwise.
   */
  predicate IsConvexVertex(vtx: Point3, prv: Point3, nxt: Point3) {
    var ix, iy := vtx.x - prv.x, vtx.y - prv.y;
    var ox, oy := nxt.x - vtx.x, nxt.y - vtx.y;
    ix * oy - iy * ox >= 0.0
  }

  /** The vertex test is the cross product of the corner prv, vtx, nxt. */
  lemma ConvexVertexCross(vtx: Point3, prv: Point3, nxt: Point3)
    ensures IsConvexVertex(vtx, prv, nxt) <==> Cross(XY(prv), XY(vtx), XY(nxt)) >= 0.0
  {
    var ix, iy := vtx.x - prv.x, vtx.y - prv.y;
    var bx, by_ := nxt.x - prv.x, nxt.y - prv.y;
    assert ix * (by_ - iy) - iy * (bx - ix) == ix * by_ - iy * bx;
  }

  /** Python's (i - 1) % n and (i + 1) % n on a list index. */
  function Prev(i: nat, n: nat): nat
    requires i < n
  {
    if i == 0 then n - 1 else i - 1
  }

  function Next(i: nat, n: nat): nat
    requires i < n
  {
    if i + 1 == n then 0 else i + 1
  }

  /** Every vertex, with its cyclic neighbours, is convex. */
  predicate AllConvex(points: seq<Point3>) {
    forall i :: 0 <= i < |points| ==>
      IsConvexVertex(points[i], points[Prev(i, |points|)], points[Next(i, |points|)])
  }

  /** aecGeometry.isConvex: walks the vertices and stops at the first concave one. */
  method IsConvex(points: seq<Point3>) returns (r: bool)
    ensures r <==> AllConvex(points)
  {
    var index := 0;
    var length := |points|;
    while index < length
      invariant 0 <= index <= length
      invariant forall i :: 0 <= i < index ==>
        IsConvexVertex(points[i], points[Prev(i, length)], points[Next(i, length)])
    {
      if !IsConvexVertex(points[index], points[Prev(index, length)], points[Next(index, length)]) {
        return false;
      }
      index := index + 1;
    }
    return true;
  }

  /** aecGeometry.getBoxPoints: origin, +x, +x+y, +y, at level 0. */
  function GetBoxPoints(origin: Point3, xDelta: real, yDelta: real): (r: seq<Point3>)
    ensures |r| == 4 && forall i :: 0 <= i < 4 ==> r[i].z == 0.0
    ensures XY(r[0]) == XY(origin) && XY(r[2]) == Point2(origin.x + xDelta, origin.y + yDelta)
    ensures r[1].y == r[0].y && r[3].x == r[0].x && r[1].x == r[2].x && r[3].y == r[2].y
  {
    [Point3(origin.x, origin.y, 0.0), Point3(origin.x + xDelta, origin.y, 0.0),
     Point3(origin.x + xDelta, origin.y + yDelta, 0.0), Point3(origin.x, origin.y + yDelta, 0.0)]
  }

  /** A box spanned by non-negative deltas is convex. */
  lemma BoxIsConvex(origin: Point3, xDelta: real, yDelta: real)
    requires xDelta >= 0.0 && yDelta >= 0.0
    ensures AllConvex(GetBoxPoints(origin, xDelta, yDelta))
  {
    var b := GetBoxPoints(origin, xDelta, yDelta);
    assert Prev(0, 4) == 3 && Next(0, 4) == 1 && Prev(3, 4) == 2 && Next(3, 4) == 0;
    assert IsConvexVertex(b[0], b[3], b[1]) && IsConvexVertex(b[1], b[0], b[2]);
    assert IsConvexVertex(b[2], b[1], b[3]) && IsConvexVertex(b[3], b[2], b[0]);
  }

  /** aecGeometry.getMidpoint: halfway in every coordinate. */
  function GetMidpoint(a: Point3, b: Point3): (m: Point3)
    ensures m.x - a.x == b.x - m.x && m.y - a.y == b.y - m.y && m.z - a.z == b.z - m.z
  {
    Point3((a.x + b.x) * 0.5, (a.y + b.y) * 0.5, (a.z + b.z) * 0.5)
  }

  /** The corners of a quad_points record (its ID and normal play no part here). */
  datatype Quad = Quad(SW: Point3, SE: Point3, NE: Point3, NW: Point3)

  /** The package's compass constants, north first. */
  const N := 0
  const NNE := 1
  const NE := 2
  const ENE := 3
  const E := 4
  const ESE := 5
  const SE := 6
  const SSE := 7
  const S := 8
  const SSW := 9
  const SW := 10
  const WSW := 11
  const W := 12
  const WNW := 13
  const NW := 14
  const NNW := 15

  /**
   * aecGeometry.getCompassPoint: None outside N..NNW; corners as they are,
   * side midpoints, and midpoints between a side midpoint and a corner.
   */
  function GetCompassPoint(box: Quad, orient: int): (r: Option<Point3>)
    ensures r.Some? <==> N <= orient <= NNW
    ensures orient == SW ==> r == Some(box.SW)
    ensures orient == SE ==> r == Some(box.SE)
    ensures orient == NE ==> r == Some(box.NE)
    ensures orient == NW ==> r == Some(box.NW)
    ensures orient == N ==> r == Some(GetMidpoint(box.NW, box.NE))
    ensures orient == NNE ==> r == Some(GetMidpoint(GetMidpoint(box.NW, box.NE), box.NE))
  {
    if orient < N || orient > NNW then None
    else
      var north := GetMidpoint(box.NW, box.NE);
      var west := GetMidpoint(box.SW, box.NW);
      var south := GetMidpoint(box.SW, box.SE);
      var east := GetMidpoint(box.SE, box.NE);
      Some(
        if orient == N then north
        else if orient == W then west
        else if orient == S then south
        else if orient == E then east
        else if orient == SW then box.SW
        else if orient == SE then box.SE
        else if orient == NE then box.NE
        else if orient == NW then box.NW
        else if orient == NNW then GetMidpoint(north, box.NW)
        else if orient == WNW then GetMidpoint(west, box.NW)
        else if orient == WSW then GetMidpoint(west, box.SW)
        else if orient == SSW then GetMidpoint(south, box.SW)
        else if orient == SSE then GetMidpoint(south, box.SE)
        else if orient == ESE then GetMidpoint(east, box.SE)
        else if orient == ENE then GetMidpoint(east, box.NE)
        else GetMidpoint(north, box.NE))
  }

  /** Where each direction sits across and up the box, as fractions of its size. */
  function EastFraction(orient: int): real {
    if orient in {SW, WSW, W, WNW, NW} then 0.0
    else if orient in {SSW, NNW} then 0.25
    else if orient in {N, S} then 0.5
    else if orient in {NNE, SSE} then 0.75
    else 1.0
  }

  function NorthFraction(orient: int): real {
    if orient in {SW, SSW, S, SSE, SE} then 0.0
    else if orient in {WSW, ESE} then 0.25
    else if orient in {W, E} then 0.5
    else if orient in {WNW, ENE} then 0.75
    else 1.0
  }

  /** The axis-parallel box with the given south-west corner and size. */
  function BoxQuad(sw: Point3, width: real, depth: real): Quad {
    Quad(sw, Point3(sw.x + width, sw.y, sw.z), Point3(sw.x + width, sw.y + depth, sw.z), Point3(sw.x, sw.y + depth, sw.z))
  }

  /** On an axis-parallel box every compass point lies at its fractions of the box's size. */
  lemma CompassOnBox(sw: Point3, width: real, depth: real, orient: int)
    requires N <= orient <= NNW
    ensures GetCompassPoint(BoxQuad(sw, width, depth), orient) ==
      Some(Point3(sw.x + EastFraction(orient) * width, sw.y + NorthFraction(orient) * depth, sw.z))
  {
  }

  /** aecGeometry.getCompassLine: from the box's centre to the compass point. */
  function GetCompassLine(box: Quad, orient: int): (r: Option<seq<Point3>>)
    ensures r.Some? <==> GetCompassPoint(box, orient).Some?
    ensures r.Some? ==> r.value == [GetMidpoint(box.SW, box.NE), GetCompassPoint(box, orient).value]
  {
    var center := GetMidpoint(box.SW, box.NE);
    match GetCompassPoint(box, orient)
    case Some(compass) => Some([center, compass])
    case None => None
  }

  /**
   * aecGeometry.getConvexHull: None for 3 or fewer points; otherwise the
   * hull of the distinct plan points, as new points at level 0.  It uses
   * distinct input positions, starts at the lexicographically smallest,
   * and turns strictly left within each chain.
   */
  method GetConvexHull(points: seq<Point3>) returns (r: Option<seq<Point3>>, ghost split: nat)
    ensures r.None? <==> |points| <= 3
    ensures r.Some? ==> forall q :: q in r.value ==> q.z == 0.0 && XY(q) in Flat(points)
    ensures r.Some? ==> Distinct(Flat(r.value))
    ensures r.Some? && |r.value| > 0 ==> forall q :: q in Flat(points) ==> q == XY(r.value[0]) || Less(XY(r.value[0]), q)
    ensures r.Some? ==> split <= |r.value|
    ensures r.Some? ==> Increasing(Flat(r.value)[..split]) && LeftTurns(Flat(r.value)[..split])
    ensures r.Some? ==> Decreasing(Flat(r.value)[split..]) && LeftTurns(Flat(r.value)[split..])
  {
    if |points| <= 3 {
      return None, 0;
    }
    var plan := Flat(points);
    var sorted := SortedSet(plan);
    var hull;
    hull, split := MonotoneHull(sorted);
    var lifted := Lift(hull, 0.0);
    FlatLift(hull, 0.0);
    if |hull| > 0 {
      forall q | q in plan ensures q == hull[0] || Less(hull[0], q) {
        assert Less(sorted[0], q) || q == sorted[0];
      }
    }
    forall q | q in lifted ensures q.z == 0.0 && XY(q) in plan {
      var i :| 0 <= i < |lifted| && lifted[i] == q;
      assert XY(q) == hull[i];
    }
    return Some(lifted), split;
  }

  /** Lifting a plan to a level and flattening it again gives the plan back. */
  lemma FlatLift(s: seq<Point2>, z: real)
    ensures Flat(Lift(s, z)) == s
  {
    assert forall i :: 0 <= i < |s| ==> Flat(Lift(s, z))[i] == s[i];
  }

  /**
   * aecGeometry.rmvColinear: the older tree's removal on the plan points,
   * every result at the first point's level; an empty list fails.
   */
  method RmvColinear(points: seq<Point3>) returns (r: Option<seq<Point3>>)
    ensures r.None? <==> points == []
    ensures r.Some? ==> r.value == Lift(Reduce(Flat(points)), points[0].z)
  {
    if points == [] {
      return None;
    }
    var level := points[0].z;
    var plan := Flat(points);
    var d := Dedupe(plan);
    var work := Sweeps(d);
    var kept := Dedupe(work);
    return Some(Lift(kept, level));
  }

  /**
   * What rmvColinear returns: distinct points, at least one, each at the
   * first point's level and each the plan of an input point.
   */
  lemma RmvColinearKeeps(points: seq<Point3>)
    requires points != []
    ensures var r := Lift(Reduce(Flat(points)), points[0].z);
      && (forall q :: q in r ==> q.z == points[0].z && XY(q) in Flat(points))
      && Distinct(r) && |r| >= 1
  {
    var plan := Flat(points);
    var kept := Reduce(plan);
    ReduceKeeps(plan);
    var lifted := Lift(kept, points[0].z);
    forall q | q in lifted ensures q.z == points[0].z && XY(q) in plan {
      var i :| 0 <= i < |lifted| && lifted[i] == q;
      assert XY(q) == kept[i];
    }
    assert Distinct(lifted) by {
      forall i, j | 0 <= i < j < |lifted| ensures lifted[i] != lifted[j] {
        assert XY(lifted[i]) == kept[i] && XY(lifted[j]) == kept[j];
      }
    }
  }

  /** How often p occurs among the first objects of a list. */
  function Count(points: seq<AecPoint.AecPoint>, p: AecPoint.AecPoint): nat {
    multiset(points)[p]
  }

  /**
   * aecGeometry.mirrorPoints2D for a vertical or horizontal mirror line:
   * each listed object is reflected in place and the same objects are
   * returned.  An object listed several times is reflected once per
   * listing, so it ends up reflected exactly when it is listed an odd
   * number of times.
   */
  method MirrorPoints2D(points: seq<AecPoint.AecPoint>, m1: AecPoint.AecPoint, m2: AecPoint.AecPoint)
    returns (newPoints: seq<AecPoint.AecPoint>)
    requires m1.x == m2.x || m1.y == m2.y
    modifies points
    ensures newPoints == points
    ensures old(m1.x) == old(m2.x) ==> forall p :: p in points ==>
      p.x == (if Count(points, p) % 2 == 1 then 2.0 * old(m1.x) - old(p.x) else old(p.x)) &&
      p.y == old(p.y) && p.z == old(p.z)
    ensures old(m1.x) != old(m2.x) ==> forall p :: p in points ==>
      p.y == (if Count(points, p) % 2 == 1 then 2.0 * old(m1.y) - old(p.y) else old(p.y)) &&
      p.x == old(p.x) && p.z == old(p.z)
  {
    if m1.x == m2.x {
      newPoints := MirrorAcrossX(points, m1);
    } else {
      newPoints := MirrorAcrossY(points, m1);
    }
  }

  /** The loop for a vertical mirror line through m1. */
  method MirrorAcrossX(points: seq<AecPoint.AecPoint>, m1: AecPoint.AecPoint)
    returns (newPoints: seq<AecPoint.AecPoint>)
    modifies points
    ensures newPoints == points
    ensures forall p :: p in points ==>
      p.x == (if Count(points, p) % 2 == 1 then 2.0 * old(m1.x) - old(p.x) else old(p.x)) &&
      p.y == old(p.y) && p.z == old(p.z)
  {
    newPoints := [];
    ghost var mx := m1.x;
    for i := 0 to |points|
      invariant newPoints == points[..i]
      invariant m1.x == mx
      invariant forall p :: p in points ==>
        p.x == (if Count(points[..i], p) % 2 == 1 then 2.0 * mx - old(p.x) else old(p.x)) &&
        p.y == old(p.y) && p.z == old(p.z)
    {
      var point := points[i];
      assert points[..i + 1] == points[..i] + [point];
      var distance := Abs(point.x - m1.x) * 2.0;
      if point.x < m1.x {
        point.SetX(point.x + distance);
      } else {
        point.SetX(point.x - distance);
      }
      newPoints := newPoints + [point];
    }
    assert points[..|points|] == points;
  }

  /** The loop for a horizontal mirror line through m1. */
  method MirrorAcrossY(points: seq<AecPoint.AecPoint>, m1: AecPoint.AecPoint)
    returns (newPoints: seq<AecPoint.AecPoint>)
    modifies points
    ensures newPoints == points
    ensures forall p :: p in points ==>
      p.y == (if Count(points, p) % 2 == 1 then 2.0 * old(m1.y) - old(p.y) else old(p.y)) &&
      p.x == old(p.x) && p.z == old(p.z)
  {
    newPoints := [];
    ghost var my := m1.y;
    for i := 0 to |points|
      invariant newPoints == points[..i]
      invariant m1.y == my
      invariant forall p :: p in points ==>
        p.y == (if Count(points[..i], p) % 2 == 1 then 2.0 * my - old(p.y) else old(p.y)) &&
        p.x == old(p.x) && p.z == old(p.z)
    {
      var point := points[i];
      assert points[..i + 1] == points[..i] + [point];
      var distance := Abs(point.y - m1.y) * 2.0;
      if point.y < m1.y {
        point.SetY(point.y + distance);
      } else {
        point.SetY(point.y - distance);
      }
      newPoints := newPoints + [point];
    }
    assert points[..|points|] == points;
  }

}
