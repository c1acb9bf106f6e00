/**
 * The package's space prism.  The boundary ring, level, height, name,
 * address and colour are private fields of one object.  A boundary is set
 * through one routine that either stores the new normalised ring or leaves
 * the old one in place; the box, axes, centres, floor, ceiling, sides and
 * volume are computed from the fields whenever they are asked for.
 *
 * The source keeps the floor points and the shapely polygon side by side;
 * they are always written together from the same exterior ring, so the
 * model keeps that ring once, as `ring`.  A getter that would raise on a
 * missing boundary (and so return None) returns None here.
 */
module Space {
  import opened Wrappers
  import opened Points
  import opened Colinear
  import Geometry
  import SpaceSrc
  import SpaceSrcFacts
  import AecColor

  /** The unit square a space falls back on when it is given no points. */
  function UnitSquare(): seq<Point3> {
    [Point3(0.0, 0.0, 0.0), Point3(1.0, 0.0, 0.0), Point3(1.0, 1.0, 0.0), Point3(0.0, 1.0, 0.0)]
  }

  /** The ring __setBoundary stores: the plan of the points less colinear ones, oriented. */
  function Boundary(before: Option<seq<Point2>>, points: seq<Point3>): Option<seq<Point2>> {
    SpaceSrc.SetRing(before, Flat(points))
  }

  /** The boundary moveBy leaves: the normalised ring moved, if setBoundary accepts it. */
  function MovedRing(r: Option<seq<Point2>>, x: real, y: real): Option<seq<Point2>> {
    if r.Some? && SpaceSrc.Accepted(r.value) then Some(Translate(Orient(Reduce(r.value)), x, y)) else r
  }

  class Space {
    /** __points_floor (and the polygon built from it): the plan ring, counter-clockwise. */
    var ring: Option<seq<Point2>>
    var height: real
    var level: real
    var name: string
    var address: (int, int, int)
    var convex: bool
    const id: nat
    const color: AecColor.AecColor

    /** A stored ring has a polygon's three corners. */
    predicate Valid()
      reads this
    {
      ring.Some? ==> |ring.value| >= 3
    }

    // ------------------------------------------------------------ derived values

    /** points_box: the bounding box corners SW, SE, NE, NW at the space's level. */
    function PointsBox(): (r: Option<Geometry.Quad>)
      reads this
      ensures r.Some? <==> ring.Some? && ring.value != []
      ensures r.Some? ==>
        && [XY(r.value.SW), XY(r.value.SE), XY(r.value.NE), XY(r.value.NW)] == SpaceSrc.BoxOf(ring.value)
        && r.value.SW.z == r.value.SE.z == r.value.NE.z == r.value.NW.z == level
    {
      if ring.None? || ring.value == [] then None
      else
        var s := ring.value;
        Some(Geometry.Quad(Point3(MinX(s), MinY(s), level), Point3(MaxX(s), MinY(s), level),
                           Point3(MaxX(s), MaxY(s), level), Point3(MinX(s), MaxY(s), level)))
    }

    /** size_x: |SE.x - SW.x|, the box's width. */
    function SizeX(): (r: Option<real>)
      reads this
      ensures r.Some? <==> PointsBox().Some?
      ensures r.Some? ==> r.value == SpaceSrc.XSizeOf(ring.value) && r.value >= 0.0
    {
      match PointsBox()
      case None => None
      case Some(box) =>
        SpaceSrcFacts.BoxEncloses(ring.value);
        Some(Abs(box.SE.x - box.SW.x))
    }

    /** size_y: |NW.y - SW.y|, the box's depth. */
    function SizeY(): (r: Option<real>)
      reads this
      ensures r.Some? <==> PointsBox().Some?
      ensures r.Some? ==> r.value == SpaceSrc.YSizeOf(ring.value) && r.value >= 0.0
    {
      match PointsBox()
      case None => None
      case Some(box) =>
        SpaceSrcFacts.BoxEncloses(ring.value);
        Some(Abs(box.NW.y - box.SW.y))
    }

    /** axis_x: from the middle of the west side to the middle of the east side. */
    function AxisX(): (r: Option<seq<Point3>>)
      reads this
      ensures r.Some? <==> PointsBox().Some?
      ensures r.Some? ==> r.value == SpaceSrc.AxisXOf(ring.value, level)
    {
      match PointsBox()
      case None => None
      case Some(box) => Some([Geometry.GetMidpoint(box.SW, box.NW), Geometry.GetMidpoint(box.SE, box.NE)])
    }

    /** axis_y: from the middle of the south side to the middle of the north side. */
    function AxisY(): (r: Option<seq<Point3>>)
      reads this
      ensures r.Some? <==> PointsBox().Some?
      ensures r.Some? ==> r.value == SpaceSrc.AxisYOf(ring.value, level)
    {
      match PointsBox()
      case None => None
      case Some(box) => Some([Geometry.GetMidpoint(box.SW, box.SE), Geometry.GetMidpoint(box.NW, box.NE)])
    }

    /**
     * axis_major: the x-axis when the box is at least as wide as it is deep,
     * else the y-axis; it is never the shorter of the two.
     */
    function AxisMajor(): (r: Option<seq<Point3>>)
      reads this
      ensures r.Some? <==> PointsBox().Some?
      ensures r.Some? ==> r == (if SizeX().value >= SizeY().value then AxisX() else AxisY())
      ensures r.Some? ==> |r.value| == 2 && SpaceSrcFacts.Span(r.value) == Max(SizeX().value, SizeY().value)
    {
      match PointsBox()
      case None => None
      case Some(box) =>
        AxesSpan();
        var xDelta := Abs(box.SE.x - box.SW.x);
        var yDelta := Abs(box.NE.y - box.SE.y);
        if xDelta >= yDelta then AxisX() else AxisY()
    }

    /**
     * axis_minor: the x-axis only when the box is deeper than it is wide,
     * else the y-axis; it is never the longer of the two.
     */
    function AxisMinor(): (r: Option<seq<Point3>>)
      reads this
      ensures r.Some? <==> PointsBox().Some?
      ensures r.Some? ==> r == (if SizeX().value < SizeY().value then AxisX() else AxisY())
      ensures r.Some? ==> |r.value| == 2 && SpaceSrcFacts.Span(r.value) == Min(SizeX().value, SizeY().value)
    {
      match PointsBox()
      case None => None
      case Some(box) =>
        AxesSpan();
        var xDelta := Abs(box.SE.x - box.SW.x);
        var yDelta := Abs(box.NE.y - box.SE.y);
        if xDelta < yDelta then AxisX() else AxisY()
    }

    /** The x-axis is as long as the box is wide and the y-axis as long as it is deep. */
    lemma AxesSpan()
      requires PointsBox().Some?
      ensures SpaceSrcFacts.Span(AxisX().value) == SizeX().value
      ensures SpaceSrcFacts.Span(AxisY().value) == SizeY().value
      ensures Abs(PointsBox().value.NE.y - PointsBox().value.SE.y) == SizeY().value
    {
      SpaceSrcFacts.AxesCross(ring.value, level);
      SpaceSrcFacts.BoxEncloses(ring.value);
    }

    /** elevation: the ceiling's height above the zero plane. */
    function Elevation(): (r: real)
      reads this
      ensures r - level == height
      ensures height >= 0.0 ==> r >= level
    {
      level + height
    }

    /** center_floor: the box centre at the level; both axes pass through it. */
    function CenterFloor(): (r: Option<Point3>)
      reads this
      ensures r.Some? <==> PointsBox().Some?
      ensures r.Some? ==> r.value == AtLevel(SpaceSrcFacts.Centre(ring.value), level)
      ensures r.Some? ==> r.value == Geometry.GetMidpoint(AxisX().value[0], AxisX().value[1])
                               == Geometry.GetMidpoint(AxisY().value[0], AxisY().value[1])
    {
      match PointsBox()
      case None => None
      case Some(box) =>
        var m := Geometry.GetMidpoint(box.SW, box.NE);
        Some(Point3(m.x, m.y, level))
    }

    /** center_ceiling: the box centre at the elevation. */
    function CenterCeiling(): (r: Option<Point3>)
      reads this
      ensures r.Some? <==> CenterFloor().Some?
      ensures r.Some? ==> XY(r.value) == XY(CenterFloor().value) && r.value.z == level + height
    {
      match CenterFloor()
      case None => None
      case Some(p) => Some(Point3(p.x, p.y, Elevation()))
    }

    /** center_space: the box centre half way up the space, between floor and ceiling centres. */
    function CenterSpace(): (r: Option<Point3>)
      reads this
      ensures r.Some? <==> CenterFloor().Some?
      ensures r.Some? ==> r.value == Geometry.GetMidpoint(CenterFloor().value, CenterCeiling().value)
    {
      match CenterFloor()
      case None => None
      case Some(p) => Some(Point3(p.x, p.y, level + height * 0.5))
    }

    /** area: the shapely area of the boundary polygon. */
    function Area(): (r: Option<real>)
      reads this
      ensures r.Some? <==> ring.Some?
      ensures r.Some? ==> r.value >= 0.0
    {
      if ring.None? then None else Some(Points.Area(ring.value))
    }

    /**
     * volume: height times area, the same number the older tree's getVolume
     * caches; with no height there is no volume.
     */
    function Volume(): (r: Option<real>)
      reads this
      ensures r.Some? <==> ring.Some?
      ensures r.Some? ==> r.value == SpaceSrc.VolumeOf(ring.value, height)
      ensures r.Some? && height == 0.0 ==> r.value == 0.0
    {
      if ring.None? then None else Some(height * Area().value)
    }

    /** points_floor: the ring at the level. */
    function PointsFloor(): (r: Option<seq<Point3>>)
      reads this
      ensures r.Some? <==> ring.Some?
      ensures r.Some? ==> Flat(r.value) == ring.value && forall q :: q in r.value ==> q.z == level
      ensures r.Some? ==> r.value == Lift(ring.value, level)
    {
      if ring.None? then None
      else
        var f := Lift(ring.value, level);
        Geometry.FlatLift(ring.value, level);
        Some(f)
    }

    /** points_ceiling: the floor points' plan at the elevation. */
    function PointsCeiling(): (r: Option<seq<Point3>>)
      reads this
      ensures r.Some? <==> ring.Some?
      ensures r.Some? ==> Flat(r.value) == ring.value && forall q :: q in r.value ==> q.z == level + height
      ensures r.Some? ==> r.value == Lift(ring.value, level + height)
    {
      match PointsFloor()
      case None => None
      case Some(f) =>
        var e := Elevation();
        var c := seq(|f|, i requires 0 <= i < |f| => Point3(f[i].x, f[i].y, e));
        assert c == Lift(ring.value, e);
        Geometry.FlatLift(ring.value, e);
        Some(c)
    }

    /** points_sides: one quad per floor edge, floor corners first, then the ceiling corners above them. */
    method PointsSides() returns (r: Option<seq<seq<Point3>>>)
      requires Valid()
      ensures r.Some? <==> ring.Some?
      ensures r.Some? ==> r.value == SpaceSrc.Sides(Lift(ring.value, level), Lift(ring.value, level + height))
    {
      var flr := PointsFloor();
      var clg := PointsCeiling();
      if flr.Some? && clg.Some? {
        assert |flr.value| == |ring.value| == |clg.value|;
        var sides := SpaceSrc.BuildSides(flr.value, clg.value);
        r := Some(sides);
      } else {
        r := None;
      }
    }

    // ------------------------------------------------------------ changes

    /**
     * A new space: address (0, 0, 0), a white colour, height 1, level 0 and
     * an empty name; its boundary is set from the points, or from the unit
     * square when there are none.  Points that do not make a polygon leave
     * the space without a boundary.
     */
    constructor (points: seq<Point3>, newId: nat)
      ensures Valid() && fresh(color) && color.Valid()
      ensures address == (0, 0, 0) && height == 1.0 && level == 0.0 && name == "" && id == newId
      ensures color.Color() == (255, 255, 255) && color.alpha == 0
      ensures points != [] ==> ring == Boundary(None, points)
      ensures points == [] ==> ring.Some? && UnitRingAt(ring.value, 0.0, 0.0)
    {
      address := (0, 0, 0);
      color := new AecColor.AecColor();
      height := 1.0;
      id := newId;
      level := 0.0;
      name := "";
      ring := None;
      new;
      var pts := points;
      if points == [] {
        pts := UnitSquare();
        UnitSquareProper();
        QuadBoundary(pts[0], pts[1], pts[2], pts[3]);
        assert pts == [pts[0], pts[1], pts[2], pts[3]];
      }
      var _ := SetBoundary(pts);
      if points == [] {
        assert Flat(pts)[0] == Point2(0.0, 0.0) && Flat(pts)[1] == Point2(1.0, 0.0);
        assert Flat(pts)[2] == Point2(1.0, 1.0) && Flat(pts)[3] == Point2(0.0, 1.0);
      }
    }

    /**
     * __setBoundary: colinear points are removed (no points at all fail);
     * fewer than three left fails and keeps the old ring; otherwise the
     * oriented plan is stored and the convex flag recomputed.
     */
    method SetBoundary(points: seq<Point3>) returns (ok: bool)
      requires Valid()
      modifies this
      ensures Valid()
      ensures ok == SpaceSrc.Accepted(Flat(points))
      ensures ok ==> ring == Some(Orient(Reduce(Flat(points))))
      ensures !ok ==> ring == old(ring)
      ensures ok ==> convex == Geometry.AllConvex(Lift(Reduce(Flat(points)), points[0].z))
      ensures !ok ==> convex == old(convex)
      ensures height == old(height) && level == old(level) && name == old(name) && address == old(address)
    {
      var accepted, newRing, isConvex := NewBoundary(points);
      if !accepted {
        return false;
      }
      ring := Some(newRing);
      convex := isConvex;
      ok := true;
    }

    /** The height setter. */
    method SetHeight(value: real)
      requires Valid()
      modifies this
      ensures Valid()
      ensures height == value && ring == old(ring) && level == old(level)
      ensures name == old(name) && address == old(address)
    {
      height := value;
    }

    /** The level setter. */
    method SetLevel(value: real)
      requires Valid()
      modifies this
      ensures Valid()
      ensures level == value && ring == old(ring) && height == old(height)
      ensures name == old(name) && address == old(address)
    {
      level := value;
    }

    /** The name setter. */
    method SetName(value: string)
      requires Valid()
      modifies this
      ensures Valid()
      ensures name == value && ring == old(ring) && level == old(level) && height == old(height)
    {
      name := value;
    }

    /**
     * moveBy: without a boundary, False and nothing changes.  Otherwise the
     * level rises by z first, and then the ring moved by (x, y) is set as the
     * boundary, which stores exactly the old normalised ring moved.
     */
    method MoveBy(x: real, y: real, z: real) returns (ok: bool)
      requires Valid()
      modifies this
      ensures Valid()
      ensures old(ring).None? ==> !ok && ring == old(ring) && level == old(level)
      ensures old(ring).Some? ==> level == old(level) + z
      ensures old(ring).Some? ==> ok == SpaceSrc.Accepted(old(ring).value)
      ensures ok ==> ring == Some(Translate(Orient(Reduce(old(ring).value)), x, y))
      ensures !ok ==> ring == old(ring)
      ensures height == old(height) && name == old(name) && address == old(address)
    {
      if ring.None? {
        return false;
      }
      var points := Lift(Translate(ring.value, x, y), 0.0);
      MovedBoundary(ring.value, x, y);
      SetLevel(level + z);
      ok := SetBoundary(points);
    }

    /** moveTo: moveBy the vector from one point to the other. */
    method MoveTo(fromPnt: Point3, toPnt: Point3) returns (ok: bool)
      requires Valid()
      modifies this
      ensures Valid()
      ensures old(ring).None? ==> !ok && ring == old(ring) && level == old(level)
      ensures old(ring).Some? ==> level == old(level) + (toPnt.z - fromPnt.z)
      ensures old(ring).Some? ==> ok == SpaceSrc.Accepted(old(ring).value)
      ensures ok ==> ring == Some(Translate(Orient(Reduce(old(ring).value)), toPnt.x - fromPnt.x, toPnt.y - fromPnt.y))
      ensures !ok ==> ring == old(ring)
      ensures height == old(height)
    {
      var x, y, z := toPnt.x - fromPnt.x, toPnt.y - fromPnt.y, toPnt.z - fromPnt.z;
      ok := MoveBy(x, y, z);
    }

    /**
     * scale: without a boundary, False and nothing changes.  Otherwise the
     * height is multiplied by z before the scaled ring is offered to
     * __setBoundary, so the height changes even when the ring is refused.
     */
    method Scale(x: real, y: real, z: real, pivot: Point2) returns (ok: bool)
      requires Valid()
      modifies this
      ensures Valid()
      ensures old(ring).None? ==> !ok && ring == old(ring) && height == old(height)
      ensures old(ring).Some? ==> height == Times(old(height), z)
      ensures old(ring).Some? ==> ok == SpaceSrc.Accepted(SpaceSrc.ScaleAbout(old(ring).value, x, y, pivot))
      ensures ok ==> ring == Some(Orient(Reduce(SpaceSrc.ScaleAbout(old(ring).value, x, y, pivot))))
      ensures !ok ==> ring == old(ring)
      ensures level == old(level)
    {
      if ring.None? {
        return false;
      }
      var scaled := SpaceSrc.ScaleAbout(ring.value, x, y, pivot);
      var points := Lift(scaled, 0.0);
      Geometry.FlatLift(scaled, 0.0);
      SetHeight(Times(height, z));
      ok := SetBoundary(points);
    }
  }

  /**
   * The work of __setBoundary: colinear points are removed (no points at
   * all fail); with three or more left, the oriented plan and whether the
   * kept points turn convexly.
   */
  method NewBoundary(points: seq<Point3>) returns (accepted: bool, ring: seq<Point2>, convex: bool)
    ensures accepted == SpaceSrc.Accepted(Flat(points))
    ensures accepted ==> ring == Orient(Reduce(Flat(points))) && |ring| >= 3
    ensures accepted ==> convex == Geometry.AllConvex(Lift(Reduce(Flat(points)), points[0].z))
  {
    var kept := Geometry.RmvColinear(points);
    if kept.None? || |kept.value| < 3 {
      return false, [], false;
    }
    var plan := Flat(kept.value);
    Geometry.FlatLift(Reduce(Flat(points)), points[0].z);
    ring := Orient(plan);
    convex := Geometry.IsConvex(kept.value);
    accepted := true;
  }

  /**
   * The points moveBy hands to __setBoundary are accepted exactly when the
   * ring itself is, and normalise to the normalised ring moved.
   */
  lemma MovedBoundary(r: seq<Point2>, x: real, y: real)
    ensures var points := Lift(Translate(r, x, y), 0.0);
      && (SpaceSrc.Accepted(Flat(points)) <==> SpaceSrc.Accepted(r))
      && (SpaceSrc.Accepted(r) ==> Orient(Reduce(Flat(points))) == Translate(Orient(Reduce(r)), x, y))
  {
    Geometry.FlatLift(Translate(r, x, y), 0.0);
    SpaceSrcFacts.SetRingTranslate(None, r, x, y);
  }

  /** The scaled height; a named product keeps the surrounding arithmetic linear. */
  function Times(a: real, b: real): real { a * b }

  /** d added k times over: the displacement after k equal steps, without a product. */
  function Steps(k: nat, d: real): real {
    if k == 0 then 0.0 else Steps(k - 1, d) + d
  }

  /** k equal steps of d come to k·d. */
  lemma {:induction false} StepsIsProduct(k: nat, d: real)
    ensures Steps(k, d) == k as real * d
  {
    if k > 0 {
      StepsIsProduct(k - 1, d);
    }
  }

  function Max(a: real, b: real): real { if a >= b then a else b }

  function Min(a: real, b: real): real { if a < b then a else b }

  /** The corners of the unit square moved by (dx, dy), in the order the constructor gives them. */
  predicate UnitRingAt(s: seq<Point2>, dx: real, dy: real) {
    && |s| == 4
    && s[0].x == dx && s[0].y == dy && s[1].x == 1.0 + dx && s[1].y == dy
    && s[2].x == 1.0 + dx && s[2].y == 1.0 + dy && s[3].x == dx && s[3].y == 1.0 + dy
  }

  /** The unit square moved anywhere is stored as it is, and moveBy moves it on. */
  lemma UnitRingMoves(s: seq<Point2>, dx: real, dy: real, x: real, y: real)
    requires UnitRingAt(s, dx, dy)
    ensures SpaceSrc.Accepted(s) && Orient(Reduce(s)) == s
    ensures MovedRing(Some(s), x, y).Some? && UnitRingAt(MovedRing(Some(s), x, y).value, dx + x, dy + y)
  {
    assert ProperQuad(s[0], s[1], s[2], s[3]) by {
      assert Cross(s[0], s[1], s[2]) == 1.0 && Cross(s[1], s[2], s[3]) == 1.0;
      assert Cross(s[2], s[3], s[0]) == 1.0 && Cross(s[3], s[0], s[1]) == 1.0;
      assert Term(s[0], s[1]) + Term(s[1], s[2]) + Term(s[2], s[3]) + Term(s[3], s[0]) == 2.0;
    }
    ProperQuadKept(s[0], s[1], s[2], s[3]);
    assert s == [s[0], s[1], s[2], s[3]];
  }

  /** Wherever moveBy takes it, u lands as the unit square at offset (o, o) plus the displacement. */
  ghost predicate MovesAsUnit(u: seq<Point2>, o: real) {
    forall x: real, y: real ::
      MovedRing(Some(u), x, y).Some? && UnitRingAt(MovedRing(Some(u), x, y).value, o + x, o + y)
  }

  /** The unit square at offset (o, o) moves as the unit square. */
  lemma UnitMoves(u: seq<Point2>, o: real)
    requires UnitRingAt(u, o, o)
    ensures MovesAsUnit(u, o)
  {
    forall x: real, y: real
      ensures MovedRing(Some(u), x, y).Some? && UnitRingAt(MovedRing(Some(u), x, y).value, o + x, o + y)
    {
      UnitRingMoves(u, o, o, x, y);
    }
  }

  /** The unit square's corners are distinct, turn left at every corner and run counter-clockwise. */
  lemma UnitSquareProper()
    ensures ProperQuad(Point2(0.0, 0.0), Point2(1.0, 0.0), Point2(1.0, 1.0), Point2(0.0, 1.0))
  {}

  /** Four distinct corners, none colinear with its neighbours, counter-clockwise. */
  predicate ProperQuad(a: Point2, b: Point2, c: Point2, d: Point2) {
    && Distinct([a, b, c, d])
    && Cross(a, b, c) != 0.0 && Cross(b, c, d) != 0.0 && Cross(c, d, a) != 0.0 && Cross(d, a, b) != 0.0
    && Term(a, b) + Term(b, c) + Term(c, d) + Term(d, a) > 0.0
  }

  /** A proper four-corner ring is stored by __setBoundary as it is given. */
  lemma QuadBoundary(p0: Point3, p1: Point3, p2: Point3, p3: Point3)
    requires ProperQuad(XY(p0), XY(p1), XY(p2), XY(p3))
    ensures Boundary(None, [p0, p1, p2, p3]) == Some(Flat([p0, p1, p2, p3]))
  {
    var a, b, c, d := XY(p0), XY(p1), XY(p2), XY(p3);
    ProperQuadKept(a, b, c, d);
    assert Flat([p0, p1, p2, p3]) == [a, b, c, d];
  }

  /** A proper ring of four points survives the colinear removal and orientation unchanged. */
  lemma ProperQuadKept(a: Point2, b: Point2, c: Point2, d: Point2)
    requires ProperQuad(a, b, c, d)
    ensures SpaceSrc.SetRing(None, [a, b, c, d]) == Some([a, b, c, d])
  {
    var s := [a, b, c, d];
    QuadCorners(a, b, c, d);
    ReduceKeepsProperPolygon(s);
    QuadShoelace(a, b, c, d);
  }

  /** The corners of a four-point ring are its four cyclic triangles. */
  lemma QuadCorners(a: Point2, b: Point2, c: Point2, d: Point2)
    ensures var s := [a, b, c, d];
      && CyclicTriple(s, 0) == [a, b, c] && CyclicTriple(s, 1) == [b, c, d]
      && CyclicTriple(s, 2) == [c, d, a] && CyclicTriple(s, 3) == [d, a, b]
      && (NoColinearTriple(s) <== Cross(a, b, c) != 0.0 && Cross(b, c, d) != 0.0 && Cross(c, d, a) != 0.0 && Cross(d, a, b) != 0.0)
  {
    var s := [a, b, c, d];
    TriangleArea(a, b, c);
    TriangleArea(b, c, d);
    TriangleArea(c, d, a);
    TriangleArea(d, a, b);
    assert CyclicTriple(s, 2) == [c, d, a];
    assert CyclicTriple(s, 3) == [d, a, b];
  }
}
