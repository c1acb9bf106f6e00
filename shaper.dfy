/**
 * The newer tree's plan-shape builders (aecShaper): boxes, L, T, H, U and
 * cross shapes assembled from rectangular arms, and regular polygons.  The
 * builders return a point list, None when a guard refuses the sizes, or
 * False when the arms do not merge into one polygon.  The merge itself
 * (shapely's unary_union) is a parameter: it receives the oriented arm rings
 * and answers None when the result is not a single polygon.  A width passed
 * as None or 0 is falsy in the source and both are modelled as 0.0.
 */
module Shaper {
  import opened Wrappers
  import opened Points
  import opened Geometry
  import SpaceSrc

  /** What a builder returns: the points, None (Refused) or False (Failed). */
  datatype Outcome = Shape(points: seq<Point3>) | Refused | Failed

  /** unary_union over the arm rings: the exterior of the single polygon, or None. */
  type Union = seq<seq<Point2>> -> Option<seq<Point2>>

  /** Each point set as the oriented exterior ring of its polygon. */
  function Rings(pointSet: seq<seq<Point3>>): (r: seq<seq<Point2>>)
    ensures |r| == |pointSet|
    ensures forall i :: 0 <= i < |r| ==> r[i] == Orient(Flat(pointSet[i]))
  {
    seq(|pointSet|, i requires 0 <= i < |pointSet| => Orient(Flat(pointSet[i])))
  }

  /** A polygon cannot be built from one or two points. */
  predicate Buildable(pointSet: seq<seq<Point3>>) {
    forall i :: 0 <= i < |pointSet| ==> |pointSet[i]| == 0 || |pointSet[i]| >= 3
  }

  /**
   * __add: the merged exterior ring at level 0, or False when some point set
   * makes no polygon or the merge is not a single polygon.
   */
  function Add(pointSet: seq<seq<Point3>>, union: Union): (r: Outcome)
    ensures !r.Refused?
    ensures r.Shape? <==> Buildable(pointSet) && union(Rings(pointSet)).Some?
    ensures r.Shape? ==> Flat(r.points) == union(Rings(pointSet)).value
    ensures r.Shape? ==> forall q :: q in r.points ==> q.z == 0.0
  {
    if !Buildable(pointSet) then Failed
    else match union(Rings(pointSet))
      case None => Failed
      case Some(ring) =>
        FlatLift(ring, 0.0);
        Shape(Lift(ring, 0.0))
  }

  /** A falsy width takes the given share of the extent. */
  function Default(w: real, share: real, size: real): real {
    if w == 0.0 then share * size else w
  }

  /** makeBox: a box drawn from an origin by two sizes; it ignores the origin's level. */
  function Box(x: real, y: real, xSize: real, ySize: real): (r: seq<Point3>)
    ensures forall z :: r == GetBoxPoints(Point3(x, y, z), xSize, ySize)
    ensures |r| == 4 && XY(r[0]) == Point2(x, y) && XY(r[2]) == Point2(x + xSize, y + ySize)
  {
    GetBoxPoints(Point3(x, y, 0.0), xSize, ySize)
  }

  /** The rectangle [x0, x1] x [y0, y1] drawn as a box from its south-west corner. */
  predicate IsRect(b: seq<Point3>, x0: real, y0: real, x1: real, y1: real) {
    b == Box(x0, y0, x1 - x0, y1 - y0)
  }

  /** Every corner of the box lies in the rectangle spanned from the origin by the sizes. */
  predicate Within(b: seq<Point3>, origin: Point3, xSize: real, ySize: real) {
    forall i :: 0 <= i < |b| ==> origin.x <= b[i].x <= origin.x + xSize && origin.y <= b[i].y <= origin.y + ySize
  }

  /** With positive sizes the box runs counter-clockwise, so orienting its ring changes nothing. */
  lemma BoxCounterClockwise(origin: Point3, xSize: real, ySize: real)
    requires xSize > 0.0 && ySize > 0.0
    ensures Shoelace(Flat(GetBoxPoints(origin, xSize, ySize))) > 0.0
    ensures Orient(Flat(GetBoxPoints(origin, xSize, ySize))) == Flat(GetBoxPoints(origin, xSize, ySize))
  {
    var a, b := origin.x, origin.y;
    var s := Flat(GetBoxPoints(origin, xSize, ySize));
    assert s == [Point2(a, b), Point2(a + xSize, b), Point2(a + xSize, b + ySize), Point2(a, b + ySize)];
    QuadShoelace(s[0], s[1], s[2], s[3]);
    assert Term(s[0], s[1]) == -(xSize * b);
    assert Term(s[1], s[2]) == (a + xSize) * ySize;
    assert Term(s[2], s[3]) == xSize * (b + ySize);
    assert Term(s[3], s[0]) == -(a * ySize);
    assert Shoelace(s) == 2.0 * (xSize * ySize);
  }

  /** A rectangle whose edges lie inside the outer one lies inside it. */
  lemma RectWithin(b: seq<Point3>, x0: real, y0: real, x1: real, y1: real, origin: Point3, xSize: real, ySize: real)
    requires IsRect(b, x0, y0, x1, y1)
    requires origin.x <= x0 <= x1 <= origin.x + xSize && origin.y <= y0 <= y1 <= origin.y + ySize
    ensures Within(b, origin, xSize, ySize)
  {
    assert b == [Point3(x0, y0, 0.0), Point3(x1, y0, 0.0), Point3(x1, y1, 0.0), Point3(x0, y1, 0.0)];
  }

  // ---------------------------------------------------------------- L

  predicate LFits(xSize: real, ySize: real, xWidth: real, yDepth: real) {
    Default(xWidth, 0.5, xSize) < xSize && Default(yDepth, 0.5, ySize) < ySize
  }

  /** makeL's arms: the bar up the west side and the bar along the south side. */
  function LArms(origin: Point3, xSize: real, ySize: real, xWidth: real, yDepth: real): seq<seq<Point3>> {
    var w, d := Default(xWidth, 0.5, xSize), Default(yDepth, 0.5, ySize);
    [Box(origin.x, origin.y, w, ySize), Box(origin.x, origin.y, xSize, d)]
  }

  /** makeL: None unless both arms are narrower than the box, else the merge of the arms. */
  function MakeL(origin: Point3, xSize: real, ySize: real, xWidth: real, yDepth: real, union: Union): (r: Outcome)
    ensures r.Refused? <==> !LFits(xSize, ySize, xWidth, yDepth)
    ensures LFits(xSize, ySize, xWidth, yDepth) ==> r == Add(LArms(origin, xSize, ySize, xWidth, yDepth), union)
  {
    if !LFits(xSize, ySize, xWidth, yDepth) then Refused
    else Add(LArms(origin, xSize, ySize, xWidth, yDepth), union)
  }

  /**
   * The L's two arms share the origin corner and lie inside the box; the west
   * bar reaches the north edge and the south bar the east edge.
   */
  lemma LArmsShape(origin: Point3, xSize: real, ySize: real, xWidth: real, yDepth: real)
    requires LFits(xSize, ySize, xWidth, yDepth) && xWidth >= 0.0 && yDepth >= 0.0
    ensures var w, d := Default(xWidth, 0.5, xSize), Default(yDepth, 0.5, ySize);
      var arms := LArms(origin, xSize, ySize, xWidth, yDepth);
      && IsRect(arms[0], origin.x, origin.y, origin.x + w, origin.y + ySize)
      && IsRect(arms[1], origin.x, origin.y, origin.x + xSize, origin.y + d)
      && Within(arms[0], origin, xSize, ySize) && Within(arms[1], origin, xSize, ySize)
  {
    var w, d := Default(xWidth, 0.5, xSize), Default(yDepth, 0.5, ySize);
    var arms := LArms(origin, xSize, ySize, xWidth, yDepth);
    RectWithin(arms[0], origin.x, origin.y, origin.x + w, origin.y + ySize, origin, xSize, ySize);
    RectWithin(arms[1], origin.x, origin.y, origin.x + xSize, origin.y + d, origin, xSize, ySize);
  }

  /** Left to its defaults, makeL accepts every box of positive size. */
  lemma LDefaultsFit(xSize: real, ySize: real)
    ensures LFits(xSize, ySize, 0.0, 0.0) <==> xSize > 0.0 && ySize > 0.0
  {}

  // ---------------------------------------------------------------- T

  /** makeT refuses the same sizes as makeL. */
  predicate TFits(xSize: real, ySize: real, xWidth: real, yDepth: real) {
    LFits(xSize, ySize, xWidth, yDepth)
  }

  /** makeT's arms: the bar along the north side and the stem centred under it. */
  function TArms(origin: Point3, xSize: real, ySize: real, xWidth: real, yDepth: real): seq<seq<Point3>> {
    var w, d := Default(xWidth, 0.5, xSize), Default(yDepth, 0.5, ySize);
    [Box(origin.x, origin.y + (ySize - d), xSize, d),
     Box(origin.x + (xSize * 0.5 - w * 0.5), origin.y, w, ySize)]
  }

  function MakeT(origin: Point3, xSize: real, ySize: real, xWidth: real, yDepth: real, union: Union): (r: Outcome)
    ensures r.Refused? <==> !TFits(xSize, ySize, xWidth, yDepth)
    ensures TFits(xSize, ySize, xWidth, yDepth) ==> r == Add(TArms(origin, xSize, ySize, xWidth, yDepth), union)
  {
    if !TFits(xSize, ySize, xWidth, yDepth) then Refused
    else Add(TArms(origin, xSize, ySize, xWidth, yDepth), union)
  }

  /**
   * The T's bar spans the box's north edge, its stem runs the full depth and
   * is centred on the box's vertical centreline, and both lie inside the box.
   */
  lemma TArmsShape(origin: Point3, xSize: real, ySize: real, xWidth: real, yDepth: real)
    requires TFits(xSize, ySize, xWidth, yDepth) && xWidth >= 0.0 && yDepth >= 0.0
    ensures var w, d := Default(xWidth, 0.5, xSize), Default(yDepth, 0.5, ySize);
      var arms := TArms(origin, xSize, ySize, xWidth, yDepth);
      var cx := origin.x + xSize * 0.5;
      && IsRect(arms[0], origin.x, origin.y + ySize - d, origin.x + xSize, origin.y + ySize)
      && IsRect(arms[1], cx - w * 0.5, origin.y, cx + w * 0.5, origin.y + ySize)
      && Within(arms[0], origin, xSize, ySize) && Within(arms[1], origin, xSize, ySize)
  {
    var w, d := Default(xWidth, 0.5, xSize), Default(yDepth, 0.5, ySize);
    var arms := TArms(origin, xSize, ySize, xWidth, yDepth);
    var cx := origin.x + xSize * 0.5;
    assert arms[1] == Box(cx - w * 0.5, origin.y, (cx + w * 0.5) - (cx - w * 0.5), ySize);
    RectWithin(arms[0], origin.x, origin.y + ySize - d, origin.x + xSize, origin.y + ySize, origin, xSize, ySize);
    RectWithin(arms[1], cx - w * 0.5, origin.y, cx + w * 0.5, origin.y + ySize, origin, xSize, ySize);
  }

  // ---------------------------------------------------------------- H and U

  /** makeH and makeU: each side bar under half the width, the cross bar under the depth. */
  predicate HFits(xSize: real, ySize: real, xWidth1: real, xWidth2: real, yDepth: real) {
    && Default(xWidth1, 0.3, xSize) < xSize * 0.5
    && Default(xWidth2, 0.3, xSize) < xSize * 0.5
    && Default(yDepth, 0.3, ySize) < ySize
  }

  /** makeH's arms: the west bar, the east bar and the cross bar centred between them. */
  function HArms(origin: Point3, xSize: real, ySize: real, xWidth1: real, xWidth2: real, yDepth: real): seq<seq<Point3>> {
    var w1, w2, d := Default(xWidth1, 0.3, xSize), Default(xWidth2, 0.3, xSize), Default(yDepth, 0.3, ySize);
    [Box(origin.x, origin.y, w1, ySize),
     Box(origin.x + (xSize - w2), origin.y, w2, ySize),
     Box(origin.x, origin.y + (ySize * 0.5 - d * 0.5), xSize, d)]
  }

  function MakeH(origin: Point3, xSize: real, ySize: real, xWidth1: real, xWidth2: real, yDepth: real, union: Union): (r: Outcome)
    ensures r.Refused? <==> !HFits(xSize, ySize, xWidth1, xWidth2, yDepth)
    ensures HFits(xSize, ySize, xWidth1, xWidth2, yDepth) ==>
      r == Add(HArms(origin, xSize, ySize, xWidth1, xWidth2, yDepth), union)
  {
    if !HFits(xSize, ySize, xWidth1, xWidth2, yDepth) then Refused
    else Add(HArms(origin, xSize, ySize, xWidth1, xWidth2, yDepth), union)
  }

  /**
   * The H's side bars stand on the west and east edges, run the full depth and
   * do not meet; the cross bar spans the width centred on the horizontal
   * centreline.
   */
  lemma HArmsShape(origin: Point3, xSize: real, ySize: real, xWidth1: real, xWidth2: real, yDepth: real)
    requires HFits(xSize, ySize, xWidth1, xWidth2, yDepth)
    ensures var w1, w2, d := Default(xWidth1, 0.3, xSize), Default(xWidth2, 0.3, xSize), Default(yDepth, 0.3, ySize);
      var arms := HArms(origin, xSize, ySize, xWidth1, xWidth2, yDepth);
      var cy := origin.y + ySize * 0.5;
      && IsRect(arms[0], origin.x, origin.y, origin.x + w1, origin.y + ySize)
      && IsRect(arms[1], origin.x + xSize - w2, origin.y, origin.x + xSize, origin.y + ySize)
      && IsRect(arms[2], origin.x, cy - d * 0.5, origin.x + xSize, cy + d * 0.5)
      && origin.x + w1 < origin.x + xSize - w2
  {
    var w1, w2, d := Default(xWidth1, 0.3, xSize), Default(xWidth2, 0.3, xSize), Default(yDepth, 0.3, ySize);
    var arms := HArms(origin, xSize, ySize, xWidth1, xWidth2, yDepth);
    var cy := origin.y + ySize * 0.5;
    assert arms[1] == Box(origin.x + xSize - w2, origin.y, (origin.x + xSize) - (origin.x + xSize - w2), ySize);
    assert arms[2] == Box(origin.x, cy - d * 0.5, xSize, (cy + d * 0.5) - (cy - d * 0.5));
  }

  /** With widths that are not negative, all three of the H's arms lie inside the box. */
  lemma HArmsWithin(origin: Point3, xSize: real, ySize: real, xWidth1: real, xWidth2: real, yDepth: real)
    requires HFits(xSize, ySize, xWidth1, xWidth2, yDepth) && xWidth1 >= 0.0 && xWidth2 >= 0.0 && yDepth >= 0.0
    ensures var arms := HArms(origin, xSize, ySize, xWidth1, xWidth2, yDepth);
      Within(arms[0], origin, xSize, ySize) && Within(arms[1], origin, xSize, ySize) && Within(arms[2], origin, xSize, ySize)
  {
    var w1, w2, d := Default(xWidth1, 0.3, xSize), Default(xWidth2, 0.3, xSize), Default(yDepth, 0.3, ySize);
    var arms := HArms(origin, xSize, ySize, xWidth1, xWidth2, yDepth);
    var cy := origin.y + ySize * 0.5;
    assert 0.0 <= w1 && 0.0 <= w2 && 0.0 <= d < ySize && w1 + w2 < xSize;
    assert arms[1] == Box(origin.x + xSize - w2, origin.y, (origin.x + xSize) - (origin.x + xSize - w2), ySize);
    assert arms[2] == Box(origin.x, cy - d * 0.5, xSize, (cy + d * 0.5) - (cy - d * 0.5));
    RectWithin(arms[0], origin.x, origin.y, origin.x + w1, origin.y + ySize, origin, xSize, ySize);
    RectWithin(arms[1], origin.x + xSize - w2, origin.y, origin.x + xSize, origin.y + ySize, origin, xSize, ySize);
    RectWithin(arms[2], origin.x, cy - d * 0.5, origin.x + xSize, cy + d * 0.5, origin, xSize, ySize);
  }

  /** Left to their defaults, makeH and makeU accept every box of positive size. */
  lemma HDefaultsFit(xSize: real, ySize: real)
    ensures HFits(xSize, ySize, 0.0, 0.0, 0.0) <==> xSize > 0.0 && ySize > 0.0
  {}

  /** makeU's east bar. */
  function UBar(origin: Point3, xSize: real, ySize: real, xWidth2: real): seq<Point3> {
    var w2 := Default(xWidth2, 0.3, xSize);
    Box(origin.x + (xSize - w2), origin.y, w2, ySize)
  }

  /**
   * makeU: under makeH's guard, the L of the west bar and the south bar merged
   * with the east bar.  An L that is refused or fails is no point list, and
   * merging it fails.
   */
  function MakeU(origin: Point3, xSize: real, ySize: real, xWidth1: real, xWidth2: real, yDepth: real, union: Union): (r: Outcome)
    ensures r.Refused? <==> !HFits(xSize, ySize, xWidth1, xWidth2, yDepth)
    ensures HFits(xSize, ySize, xWidth1, xWidth2, yDepth) ==>
      var l := MakeL(origin, xSize, ySize, Default(xWidth1, 0.3, xSize), Default(yDepth, 0.3, ySize), union);
      r == if l.Shape? then Add([l.points, UBar(origin, xSize, ySize, xWidth2)], union) else Failed
  {
    if !HFits(xSize, ySize, xWidth1, xWidth2, yDepth) then Refused
    else
      var l := MakeL(origin, xSize, ySize, Default(xWidth1, 0.3, xSize), Default(yDepth, 0.3, ySize), union);
      if l.Shape? then Add([l.points, UBar(origin, xSize, ySize, xWidth2)], union) else Failed
  }

  /**
   * For a box of positive width, makeU's guard implies makeL's, so the L is
   * never refused; its west bar and the east bar do not meet.
   */
  lemma UInnerL(origin: Point3, xSize: real, ySize: real, xWidth1: real, xWidth2: real, yDepth: real)
    requires HFits(xSize, ySize, xWidth1, xWidth2, yDepth) && xSize > 0.0
    ensures var w1, d := Default(xWidth1, 0.3, xSize), Default(yDepth, 0.3, ySize);
      && LFits(xSize, ySize, w1, d)
      && LArms(origin, xSize, ySize, w1, d)[0] == Box(origin.x, origin.y, w1, ySize)
      && LArms(origin, xSize, ySize, w1, d)[1] == Box(origin.x, origin.y, xSize, d)
      && origin.x + w1 < UBar(origin, xSize, ySize, xWidth2)[0].x
  {
    var w1, d := Default(xWidth1, 0.3, xSize), Default(yDepth, 0.3, ySize);
    assert w1 != 0.0 && d != 0.0 by {
      assert xSize * 0.3 != 0.0;
      if ySize <= 0.0 {
        assert d < ySize <= 0.0;
      } else {
        assert ySize * 0.3 != 0.0;
      }
    }
    assert Default(w1, 0.5, xSize) == w1 && Default(d, 0.5, ySize) == d;
  }

  // ---------------------------------------------------------------- cross

  /** makeCross's arms: the north-south bar about x = yAxis of the width, the east-west bar about y = xAxis of the depth. */
  function CrossArms(origin: Point3, xSize: real, ySize: real, xWidth: real, yDepth: real, xAxis: real, yAxis: real): seq<seq<Point3>> {
    var w, d := Default(xWidth, 0.5, xSize), Default(yDepth, 0.5, ySize);
    [Box(origin.x + (yAxis * xSize - w * 0.5), origin.y, w, ySize),
     Box(origin.x, origin.y + (xAxis * ySize - d * 0.5), xSize, d)]
  }

  /** makeCross: no guard; the merge of the two arms. */
  function MakeCross(origin: Point3, xSize: real, ySize: real, xWidth: real, yDepth: real, xAxis: real, yAxis: real, union: Union): (r: Outcome)
    ensures !r.Refused?
    ensures r == Add(CrossArms(origin, xSize, ySize, xWidth, yDepth, xAxis, yAxis), union)
  {
    Add(CrossArms(origin, xSize, ySize, xWidth, yDepth, xAxis, yAxis), union)
  }

  /**
   * The cross's north-south arm runs the full depth centred on
   * x = origin.x + yAxis * xSize; the east-west arm runs the full width centred
   * on y = origin.y + xAxis * ySize.
   */
  lemma CrossArmsShape(origin: Point3, xSize: real, ySize: real, xWidth: real, yDepth: real, xAxis: real, yAxis: real)
    ensures var w, d := Default(xWidth, 0.5, xSize), Default(yDepth, 0.5, ySize);
      var arms := CrossArms(origin, xSize, ySize, xWidth, yDepth, xAxis, yAxis);
      var cx, cy := origin.x + yAxis * xSize, origin.y + xAxis * ySize;
      && IsRect(arms[0], cx - w * 0.5, origin.y, cx + w * 0.5, origin.y + ySize)
      && IsRect(arms[1], origin.x, cy - d * 0.5, origin.x + xSize, cy + d * 0.5)
  {
    var w, d := Default(xWidth, 0.5, xSize), Default(yDepth, 0.5, ySize);
    var arms := CrossArms(origin, xSize, ySize, xWidth, yDepth, xAxis, yAxis);
    var cx, cy := origin.x + yAxis * xSize, origin.y + xAxis * ySize;
    assert arms[0] == Box(cx - w * 0.5, origin.y, (cx + w * 0.5) - (cx - w * 0.5), ySize);
    assert arms[1] == Box(origin.x, cy - d * 0.5, xSize, (cy + d * 0.5) - (cy - d * 0.5));
  }

  // ---------------------------------------------------------------- polygons

  /**
   * makePolygon: False for radius 0; otherwise int(abs(sides)) points, at
   * least 3, round the origin at level 0 on the circle of radius abs(radius),
   * the first at a quarter turn.  Trigonometry is the unitCircle parameter.
   */
  method MakePolygon(origin: Point3, radius: real, sides: real, unitCircle: real -> Point2) returns (r: Outcome)
    ensures !r.Refused?
    ensures r.Failed? <==> radius == 0.0
    ensures r.Shape? ==> r.points == SpaceSrc.PolygonVertices(Point3(origin.x, origin.y, 0.0), Abs(radius), SpaceSrc.SideCount(sides), unitCircle)
    ensures r.Shape? ==> |r.points| == SpaceSrc.SideCount(sides) >= 3
  {
    var rad := Abs(radius);
    if rad == 0.0 {
      return Failed;
    }
    var n := SpaceSrc.SideCount(sides);
    var points := SpaceSrc.PolygonPoints(Point3(origin.x, origin.y, 0.0), rad, n, unitCircle);
    return Shape(points);
  }

  /** makeCylinder: a polygon of 3 sides below radius 3, else int(radius) sides. */
  method MakeCylinder(origin: Point3, radius: real, unitCircle: real -> Point2) returns (r: Outcome)
    ensures !r.Refused?
    ensures r.Failed? <==> radius == 0.0
    ensures r.Shape? ==> |r.points| == SpaceSrc.CylinderSides(radius)
    ensures r.Shape? ==> r.points == SpaceSrc.PolygonVertices(Point3(origin.x, origin.y, 0.0), Abs(radius), SpaceSrc.CylinderSides(radius), unitCircle)
  {
    r := MakePolygon(origin, radius, if radius < 3.0 then 3.0 else radius, unitCircle);
  }

  /**
   * With a true unit circle, every vertex lies at the radius from the centre
   * and the first is the northernmost.
   */
  lemma PolygonOnCircle(center: Point3, radius: real, n: nat, unitCircle: real -> Point2)
    requires n > 0 && radius >= 0.0
    requires forall a :: unitCircle(a).x * unitCircle(a).x + unitCircle(a).y * unitCircle(a).y == 1.0
    requires unitCircle(SpaceSrc.AngleAt(n, 0)) == Point2(0.0, 1.0)
    ensures var p := SpaceSrc.PolygonVertices(center, radius, n, unitCircle);
      forall k :: 0 <= k < n ==>
        && (p[k].x - center.x) * (p[k].x - center.x) + (p[k].y - center.y) * (p[k].y - center.y) == radius * radius
        && p[k].y <= p[0].y
  {
    var p := SpaceSrc.PolygonVertices(center, radius, n, unitCircle);
    assert p[0] == Point3(center.x + radius * 0.0, center.y + radius * 1.0, center.z);
    forall k | 0 <= k < n
      ensures (p[k].x - center.x) * (p[k].x - center.x) + (p[k].y - center.y) * (p[k].y - center.y) == radius * radius
      ensures p[k].y <= p[0].y
    {
      var u := unitCircle(SpaceSrc.AngleAt(n, k));
      assert p[k] == Point3(center.x + radius * u.x, center.y + radius * u.y, center.z);
      Scaled(radius, u.x, u.y);
    }
  }

  /** A point of the unit circle scaled by a radius that is not negative is at that radius, and no higher than it. */
  lemma Scaled(r: real, a: real, b: real)
    requires a * a + b * b == 1.0
    requires r >= 0.0
    ensures (r * a) * (r * a) + (r * b) * (r * b) == r * r
    ensures r * b <= r
  {
    assert (r * a) * (r * a) + (r * b) * (r * b) == (r * r) * (a * a + b * b);
    assert b <= 1.0;
  }
}
