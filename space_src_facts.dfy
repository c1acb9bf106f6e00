/**
 * Properties of the older tree's derived values: the box encloses the ring,
 * the two axes cross at the box centre, the major axis is the longer one,
 * neighbouring side quads share their edges, and moving commutes with the
 * boundary normalisation.  Also the stale-cache behaviour of setHeight.
 */
module SpaceSrcFacts {
  import opened Wrappers
  import opened Points
  import opened Colinear
  import opened SpaceSrc

  /** The box corners run counter-clockwise round every ring point; the sizes are its extents. */
  lemma BoxEncloses(s: seq<Point2>)
    requires |s| > 0
    ensures var b := BoxOf(s);
      forall q :: q in s ==> b[0].x <= q.x <= b[2].x && b[0].y <= q.y <= b[2].y
    ensures var b := BoxOf(s);
      b[1].x == b[2].x && b[0].x == b[3].x && b[0].y == b[1].y && b[2].y == b[3].y
    ensures XSizeOf(s) == BoxOf(s)[1].x - BoxOf(s)[0].x >= 0.0
    ensures YSizeOf(s) == BoxOf(s)[3].y - BoxOf(s)[0].y >= 0.0
  {
    BoundsEnclose(s);
    var q :| q in s && q.x == MinX(s);
  }

  /** The centre of the bounding box. */
  function Centre(s: seq<Point2>): Point2
    requires |s| > 0
  {
    Point2((MinX(s) + MaxX(s)) * 0.5, (MinY(s) + MaxY(s)) * 0.5)
  }

  /**
   * The x-axis spans the box's width through its centre and the y-axis its
   * height; both lie at the given level, so they cross at the centre.
   */
  lemma AxesCross(s: seq<Point2>, z: real)
    requires |s| > 0
    ensures var ax, ay, c := AxisXOf(s, z), AxisYOf(s, z), Centre(s);
      && ax[0].y == ax[1].y == c.y && (ax[0].x + ax[1].x) * 0.5 == c.x
      && ay[0].x == ay[1].x == c.x && (ay[0].y + ay[1].y) * 0.5 == c.y
      && ax[1].x - ax[0].x == XSizeOf(s) && ay[1].y - ay[0].y == YSizeOf(s)
      && ax[0].z == ax[1].z == ay[0].z == ay[1].z == z
  {}

  /** The length of an axis-parallel segment. */
  function Span(a: seq<Point3>): real
    requires |a| == 2
  {
    Abs(a[1].x - a[0].x) + Abs(a[1].y - a[0].y)
  }

  /**
   * getAxisMajor and getAxisMinor name different axes, the major one being
   * at least as long, unless the box has shrunk to a point.
   */
  lemma MajorMinor(s: seq<Point2>, z: real)
    requires |s| > 0
    ensures var major, minor := AxisValue(Some(s), z, false, XSizeOf(s) >= YSizeOf(s)),
                                AxisValue(Some(s), z, false, XSizeOf(s) < YSizeOf(s));
      && major.Spatial? && minor.Spatial? && |major.pts3| == 2 && |minor.pts3| == 2
      && Span(major.pts3) >= Span(minor.pts3)
      && (XSizeOf(s) > 0.0 || YSizeOf(s) > 0.0 ==> major != minor)
  {
    BoxEncloses(s);
    var ax, ay := AxisXOf(s, z), AxisYOf(s, z);
    assert Span(ax) == XSizeOf(s) && Span(ay) == YSizeOf(s);
    if XSizeOf(s) > 0.0 || YSizeOf(s) > 0.0 {
      assert ax != ay by {
        if XSizeOf(s) > 0.0 {
          assert ay[0].x == ay[1].x;
        } else {
          assert ax[0].y == ax[1].y;
        }
      }
    }
  }

  /**
   * Side i ends where side i + 1 starts, along the floor and along the
   * ceiling, so the quads close up round the prism.
   */
  lemma SidesShareEdges(f: seq<Point3>, c: seq<Point3>)
    requires |f| == |c| && |f| > 0
    ensures forall i :: 0 <= i < |f| ==>
      Side(f, c, i)[1] == Side(f, c, (i + 1) % |f|)[0] && Side(f, c, i)[2] == Side(f, c, (i + 1) % |f|)[3]
  {}

  /** The floor and ceiling rings have the boundary's plan and sit at level and level + height. */
  lemma SidesOfPrism(r: seq<Point2>, z: real, h: real)
    requires |r| > 0
    ensures var s := Sides(Lift(r, z), Lift(r, z + h));
      forall i :: 0 <= i < |r| ==>
        && XY(s[i][0]) == r[i] && XY(s[i][3]) == r[i]
        && XY(s[i][1]) == r[(i + 1) % |r|] && XY(s[i][2]) == r[(i + 1) % |r|]
        && s[i][0].z == s[i][1].z == z && s[i][2].z == s[i][3].z == z + h
  {
    var f, c := Lift(r, z), Lift(r, z + h);
    var s := Sides(f, c);
    forall i | 0 <= i < |r|
      ensures XY(s[i][0]) == r[i] && XY(s[i][3]) == r[i]
      ensures XY(s[i][1]) == r[(i + 1) % |r|] && XY(s[i][2]) == r[(i + 1) % |r|]
      ensures s[i][0].z == s[i][1].z == z && s[i][2].z == s[i][3].z == z + h
    {
      var j := (i + 1) % |r|;
      assert s[i] == [f[i], f[j], c[j], c[i]];
      assert f[i] == AtLevel(r[i], z) && f[j] == AtLevel(r[j], z);
      assert c[i] == AtLevel(r[i], z + h) && c[j] == AtLevel(r[j], z + h);
    }
  }

  /**
   * Moving the points does not change what setBoundary accepts, and the ring
   * it stores for moved points is the stored ring moved.
   */
  lemma SetRingTranslate(before: Option<seq<Point2>>, points: seq<Point2>, dx: real, dy: real)
    ensures Accepted(Translate(points, dx, dy)) <==> Accepted(points)
    ensures Accepted(points) ==>
      SetRing(before, Translate(points, dx, dy)) == Some(Translate(Orient(Reduce(points)), dx, dy))
  {
    ReduceTranslate(points, dx, dy);
    OrientTranslate(Reduce(points), dx, dy);
  }

  /** Scaling by one in both directions, about any pivot, leaves the ring as it is. */
  lemma ScaleByOne(s: seq<Point2>, pivot: Point2)
    ensures ScaleAbout(s, 1.0, 1.0, pivot) == s
  {
    var t := ScaleAbout(s, 1.0, 1.0, pivot);
    forall i | 0 <= i < |s| ensures t[i] == s[i] {
      assert t[i] == ScalePoint(s[i], 1.0, 1.0, pivot);
    }
  }

  /** Every vertex makePolygon lays out is at the centre's level. */
  lemma PolygonLevel(center: Point3, radius: real, n: nat, unitCircle: real -> Point2)
    requires n > 0
    ensures forall q :: q in PolygonVertices(center, radius, n, unitCircle) ==> q.z == center.z
  {}

  // ---------------------------------------------------------------- setHeight keeps stale caches

  /** With a non-zero factor, different heights give different products. */
  lemma ProductDiffers(a: real, h: real, h': real)
    requires a != 0.0 && h != h'
    ensures a * h != a * h'
  {
    assert a * h - a * h' == a * (h - h');
  }

  /**
   * setHeight as written: once getVolume has cached the volume of a ring of
   * positive area, a new height leaves that cached volume in place although
   * the volume is now a different number, so the dictionary is no longer
   * coherent and getVolume goes on returning the old volume.
   */
  lemma SetHeightLeavesStaleVolume(p: Dict, h: real)
    requires Coherent(p) && p[boundaryShape].Polygon? && p[volume] != Nothing
    requires Area(p[boundaryShape].ring) > 0.0 && h != p[height].r
    ensures var q := p[height := Num(h)];
      q[volume] == p[volume] && q[volume] != DerivedAt(q, volume) && !Coherent(q)
  {
    var r := p[boundaryShape].ring;
    assert IsCache(volume) && Fresh(p, volume);
    assert p[volume] == Num(VolumeOf(r, p[height].r));
    ProductDiffers(Area(r), h, p[height].r);
    var q := p[height := Num(h)];
    assert DerivedAt(q, volume) == Num(VolumeOf(r, h));
    var a, h0 := Area(r), p[height].r;
    assert VolumeOf(r, h) == a * h && VolumeOf(r, h0) == a * h0;
    assert q[volume] == p[volume] && VolumeOf(r, h) != VolumeOf(r, h0);
    assert !Fresh(q, volume);
  }

  /** The corrected setHeight drops the caches, so the dictionary stays coherent whatever the new height. */
  lemma SetHeightKeepsCoherent(p: Dict, h: real)
    requires Coherent(p)
    ensures Coherent(Invalidated(p)[height := Num(h)])
    ensures Invalidated(p)[height := Num(h)][volume] == Nothing
  {
    InvalidatedCoherent(p, height, h);
  }

  /** A right triangle with legs u and v along the axes has area |u v| / 2, wherever its corner is. */
  lemma RightTriangleArea(o: Point2, u: real, v: real)
    ensures Area([o, Point2(o.x + u, o.y), Point2(o.x, o.y + v)]) == Abs(u * v) / 2.0
  {
    var b, c := Point2(o.x + u, o.y), Point2(o.x, o.y + v);
    TriangleArea(o, b, c);
    assert Cross(o, b, c) == u * v;
  }
}
