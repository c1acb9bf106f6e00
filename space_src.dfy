/**
 * The older tree's space prism.  Every attribute lives in one property
 * dictionary: a few retained values (colour, height, level, name, ...), the
 * boundary polygon, and derived values cached there on first use.  Setting a
 * boundary first resets every key outside the retain-list.
 *
 * The model keeps an invariant over the dictionary, Coherent: each cache is
 * either empty or holds exactly what a fresh computation from the boundary,
 * level and height gives.  The getters then provably return the fresh values.
 */
module SpaceSrc {
  import opened Wrappers
  import opened Points
  import opened Colinear
  import GeomCalc
  import AecValid

  /**
   * The dictionary's keys, spelled as the source spells them and numbered in
   * the order its dictionary literal lists them.
   */
  type Key = k: int | 0 <= k < 41

  const colorR: Key := 0
  const colorG: Key := 1
  const colorB: Key := 2
  const height: Key := 3
  const ID: Key := 4
  const level: Key := 5
  const name: Key := 6
  const transparency: Key := 7
  const area: Key := 8
  const boundaryShape: Key := 9
  const boundingBox: Key := 10
  const centroid: Key := 11
  const centroid2D: Key := 12
  const circumference: Key := 13
  const meshCeiling: Key := 14
  const meshFloor: Key := 15
  const meshSides: Key := 16
  const meshGeometric: Key := 17
  const meshGraphic: Key := 18
  const normalCeiling: Key := 19
  const normalFloor: Key := 20
  const normalSides: Key := 21
  const normalsCeiling: Key := 22
  const normalsFloor: Key := 23
  const normalsSides: Key := 24
  const origin: Key := 25
  const pointsCeiling: Key := 26
  const pointsCeiling2D: Key := 27
  const pointsFloor: Key := 28
  const pointsFloor2D: Key := 29
  const pointsSides: Key := 30
  const verticesCeiling: Key := 31
  const verticesFloor: Key := 32
  const verticesSides: Key := 33
  const volume: Key := 34
  const xAxis: Key := 35
  const yAxis: Key := 36
  const xAxis2D: Key := 37
  const yAxis2D: Key := 38
  const xSize: Key := 39
  const ySize: Key := 40

  /** The keys that survive a reset: the first eight, colorR through transparency. */
  predicate Retained(k: int) { 0 <= k <= transparency }

  /** A key the reset clears and setBoundary does not refill: a cache. */
  predicate IsCache(k: Key) { !Retained(k) && k != boundaryShape }

  /** The property dictionary: the value under key k is entry k. */
  type Dict = seq<Value>

  /** A dictionary value; Nothing is Python's None. */
  datatype Value =
    | Nothing
    | Int(i: int)
    | Num(r: real)
    | Uuid(id: nat)
    | Text(s: string)
    | Polygon(ring: seq<Point2>)
    | Plan(pts: seq<Point2>)
    | Spatial(pts3: seq<Point3>)
    | Quads(quads: seq<seq<Point3>>)

  /** Python truthiness, as the `if not ...` cache tests use it. */
  predicate Truthy(v: Value) {
    match v
    case Nothing => false
    case Int(i) => i != 0
    case Num(r) => r != 0.0
    case Uuid(_) => true
    case Text(s) => s != ""
    case Polygon(_) => true
    case Plan(p) => p != []
    case Spatial(p) => p != []
    case Quads(q) => q != []
  }

  /** The dictionary as the constructor first writes it. */
  function InitialValue(k: Key): Value {
    if k == colorR || k == colorG || k == colorB then Int(0)
    else if k == height || k == level || k == transparency then Num(0.0)
    else if k == name then Text("")
    else Nothing
  }

  /** Every key is present, as in the dictionary the constructor writes. */
  predicate Total(p: Dict) {
    |p| == 41
  }

  function Blank(): (p: Dict)
    ensures Total(p)
    ensures forall k: Key :: p[k] == InitialValue(k)
  {
    seq(41, k requires 0 <= k < 41 => InitialValue(k))
  }

  /** What the reset leaves: retained keys as they were, every other key None. */
  function Cleared(p: Dict): (q: Dict)
    ensures |q| == |p|
    ensures forall k :: 0 <= k < |q| ==> q[k] == (if Retained(k) then p[k] else Nothing)
  {
    seq(|p|, k requires 0 <= k < |p| => if Retained(k) then p[k] else Nothing)
  }

  /** Every cache dropped, the boundary and the retained keys kept. */
  function Invalidated(p: Dict): (q: Dict)
    ensures |q| == |p|
    ensures forall k :: 0 <= k < |q| ==> q[k] == (if !Retained(k) && k != boundaryShape then Nothing else p[k])
  {
    seq(|p|, k requires 0 <= k < |p| => if !Retained(k) && k != boundaryShape then Nothing else p[k])
  }

  function Get(p: Dict, k: Key): Value {
    if k < |p| then p[k] else Nothing
  }

  function NumAt(p: Dict, k: Key): real {
    if k < |p| && p[k].Num? then p[k].r else 0.0
  }

  /** The values outside the caches: what the getters leave alone. */
  datatype Basis = Basis(r: Value, g: Value, b: Value, height: Value, id: Value, level: Value,
                         name: Value, transparency: Value, shape: Value)

  function BasisOf(p: Dict): Basis {
    Basis(Get(p, colorR), Get(p, colorG), Get(p, colorB), Get(p, height), Get(p, ID), Get(p, level),
          Get(p, name), Get(p, transparency), Get(p, boundaryShape))
  }

  // ---------------------------------------------------------------- derived values

  /** The bounding box: (minx, miny), (maxx, miny), (maxx, maxy), (minx, maxy). */
  function BoxOf(s: seq<Point2>): (b: seq<Point2>)
    requires |s| > 0
    ensures |b| == 4
  {
    [Point2(MinX(s), MinY(s)), Point2(MaxX(s), MinY(s)), Point2(MaxX(s), MaxY(s)), Point2(MinX(s), MaxY(s))]
  }

  /** The distance from box corner 0 to corner 1. */
  function XSizeOf(s: seq<Point2>): real requires |s| > 0 { MaxX(s) - MinX(s) }

  /** The distance from box corner 0 to corner 3. */
  function YSizeOf(s: seq<Point2>): real requires |s| > 0 { MaxY(s) - MinY(s) }

  /** The x-axis: across the box at half its height, at level z. */
  function AxisXOf(s: seq<Point2>, z: real): seq<Point3>
    requires |s| > 0
  {
    [Point3(MinX(s), MinY(s) + YSizeOf(s) * 0.5, z), Point3(MaxX(s), MinY(s) + YSizeOf(s) * 0.5, z)]
  }

  /** The y-axis: up the box at half its width, at level z. */
  function AxisYOf(s: seq<Point2>, z: real): seq<Point3>
    requires |s| > 0
  {
    [Point3(MinX(s) + XSizeOf(s) * 0.5, MinY(s), z), Point3(MinX(s) + XSizeOf(s) * 0.5, MaxY(s), z)]
  }

  /** Side i joins floor edge i to the ceiling edge above it. */
  function Side(f: seq<Point3>, c: seq<Point3>, i: nat): seq<Point3>
    requires |f| == |c| && i < |f|
  {
    [f[i], f[(i + 1) % |f|], c[(i + 1) % |f|], c[i]]
  }

  function Sides(f: seq<Point3>, c: seq<Point3>): (r: seq<seq<Point3>>)
    requires |f| == |c|
    ensures |r| == |f|
    ensures forall i {:trigger r[i]} :: 0 <= i < |f| ==> r[i] == Side(f, c, i)
  {
    seq(|f|, i requires 0 <= i < |f| => Side(f, c, i))
  }

  /** The axis a getter returns, None without a boundary. */
  function AxisValue(ring: Option<seq<Point2>>, z: real, points2D: bool, xAxisChosen: bool): Value {
    if ring.None? || |ring.value| == 0 then Nothing
    else
      var axis := if xAxisChosen then AxisXOf(ring.value, z) else AxisYOf(ring.value, z);
      if points2D then Plan(Flat(axis)) else Spatial(axis)
  }

  // ---------------------------------------------------------------- the invariant

  predicate WellTyped(p: Dict) {
    && Total(p)
    && p[height].Num? && p[level].Num?
    && p[colorR].Int? && 0 <= p[colorR].i < 256
    && p[colorG].Int? && 0 <= p[colorG].i < 256
    && p[colorB].Int? && 0 <= p[colorB].i < 256
    && (p[boundaryShape] == Nothing || (p[boundaryShape].Polygon? && |p[boundaryShape].ring| >= 3))
  }

  /** The stored ring, empty without a boundary. */
  function RingOf(p: Dict): seq<Point2> {
    if boundaryShape < |p| && p[boundaryShape].Polygon? then p[boundaryShape].ring else []
  }

  /**
   * What the getter of cache k computes from ring r, level z and height h;
   * None for the caches this model does not fill and without a ring.
   */
  function Derived(k: Key, r: seq<Point2>, z: real, h: real): Value {
    if |r| == 0 then Nothing
    else if k == area then Num(Area(r))
    else if k == boundingBox then Plan(BoxOf(r))
    else if k == xSize then Num(XSizeOf(r))
    else if k == ySize then Num(YSizeOf(r))
    else if k == xAxis then Spatial(AxisXOf(r, z))
    else if k == yAxis then Spatial(AxisYOf(r, z))
    else if k == xAxis2D then Plan(Flat(AxisXOf(r, z)))
    else if k == yAxis2D then Plan(Flat(AxisYOf(r, z)))
    else if k == pointsFloor then Spatial(Lift(r, z))
    else if k == pointsFloor2D then Plan(r)
    else if k == pointsCeiling then Spatial(Lift(r, z + h))
    else if k == pointsCeiling2D then Plan(r)
    else if k == volume then Num(VolumeOf(r, h))
    else if k == pointsSides then Quads(Sides(Lift(r, z), Lift(r, z + h)))
    else Nothing
  }

  /** The volume getter's product of area and height. */
  function VolumeOf(r: seq<Point2>, h: real): real {
    Area(r) * h
  }

  function DerivedAt(p: Dict, k: Key): Value {
    Derived(k, RingOf(p), NumAt(p, level), NumAt(p, height))
  }

  /**
   * The getters test one key and return its companion: a filled axis or
   * floor or ceiling comes with its 2D form.
   */
  predicate Linked(p: Dict)
    requires Total(p)
  {
    && (p[xAxis] == Nothing || p[xAxis2D] != Nothing)
    && (p[yAxis] == Nothing || p[yAxis2D] != Nothing)
    && (p[pointsFloor] == Nothing || p[pointsFloor2D] != Nothing)
    && (p[pointsCeiling] == Nothing || p[pointsCeiling2D] != Nothing)
  }

  /** Cache k is None or holds what its getter would compute now. */
  predicate Fresh(p: Dict, k: Key)
    requires k < |p|
  {
    p[k] == Nothing || p[k] == DerivedAt(p, k)
  }

  /** Every cache is fresh, and companions are filled together. */
  predicate CachesFresh(p: Dict)
    requires Total(p)
  {
    && Linked(p)
    && forall k: Key {:trigger Fresh(p, k)} :: IsCache(k) ==> Fresh(p, k)
  }

  predicate Coherent(p: Dict) {
    WellTyped(p) && CachesFresh(p)
  }

  /** Nothing is cached at all. */
  predicate AllFresh(p: Dict) {
    forall k: Key :: k < |p| && IsCache(k) ==> p[k] == Nothing
  }

  /** With every cache empty, the dictionary is coherent whatever its boundary, level and height. */
  lemma FreshCoherent(p: Dict)
    requires WellTyped(p) && AllFresh(p)
    ensures Coherent(p)
  {
    assert IsCache(xAxis) && IsCache(yAxis) && IsCache(pointsFloor) && IsCache(pointsCeiling);
  }

  /** A reset followed by storing a ring of three or more points leaves a coherent dictionary. */
  lemma ClearedCoherent(p: Dict, r: seq<Point2>)
    requires WellTyped(p) && |r| >= 3
    ensures Coherent(Cleared(p)[boundaryShape := Polygon(r)])
  {
    FreshCoherent(Cleared(p)[boundaryShape := Polygon(r)]);
  }

  /** A reset, a new boundary and then a new height leave a coherent dictionary. */
  lemma ResetHeightCoherent(p: Dict, r: seq<Point2>, x: real)
    requires WellTyped(p) && |r| >= 3
    ensures Coherent(Cleared(p)[boundaryShape := Polygon(r)][height := Num(x)])
  {
    FreshCoherent(Cleared(p)[boundaryShape := Polygon(r)][height := Num(x)]);
  }

  /** Dropping every cache and then changing the height or the level keeps the dictionary coherent. */
  lemma InvalidatedCoherent(p: Dict, k: Key, x: real)
    requires WellTyped(p) && (k == height || k == level)
    ensures Coherent(Invalidated(p)[k := Num(x)])
  {
    FreshCoherent(Invalidated(p)[k := Num(x)]);
  }

  /**
   * Filling one cache with its fresh value keeps the dictionary coherent and
   * every key outside the caches as it was; an axis, floor or ceiling may be
   * filled once its 2D form is.
   */
  lemma FillCoherent(p: Dict, k: Key)
    requires Coherent(p) && p[boundaryShape].Polygon? && IsCache(k)
    requires k == xAxis ==> p[xAxis2D] != Nothing
    requires k == yAxis ==> p[yAxis2D] != Nothing
    requires k == pointsFloor ==> p[pointsFloor2D] != Nothing
    requires k == pointsCeiling ==> p[pointsCeiling2D] != Nothing
    ensures Coherent(p[k := DerivedAt(p, k)])
    ensures BasisOf(p[k := DerivedAt(p, k)]) == BasisOf(p)
    ensures RingOf(p[k := DerivedAt(p, k)]) == RingOf(p)
  {
    var q := p[k := DerivedAt(p, k)];
    assert q[boundaryShape] == p[boundaryShape] && q[level] == p[level] && q[height] == p[height];
    forall j: Key | IsCache(j)
      ensures Fresh(q, j)
    {
      assert DerivedAt(q, j) == DerivedAt(p, j);
      if j != k {
        assert Fresh(p, j);
      }
    }
  }

  /** getPointsFloor's two writes: the plan ring, then the ring at level. */
  lemma FillFloor(p: Dict)
    requires Coherent(p) && p[boundaryShape].Polygon?
    ensures var r := p[boundaryShape].ring;
      var q := p[pointsFloor2D := Plan(r)][pointsFloor := Spatial(Lift(r, p[level].r))];
      Coherent(q) && BasisOf(q) == BasisOf(p)
  {
    FillCoherent(p, pointsFloor2D);
    FillCoherent(p[pointsFloor2D := DerivedAt(p, pointsFloor2D)], pointsFloor);
  }

  /** getPointsCeiling's two writes: the plan ring, then the ring at level + height. */
  lemma FillCeiling(p: Dict)
    requires Coherent(p) && p[boundaryShape].Polygon?
    ensures var r := p[boundaryShape].ring;
      var q := p[pointsCeiling2D := Plan(r)][pointsCeiling := Spatial(Lift(r, p[level].r + p[height].r))];
      Coherent(q) && BasisOf(q) == BasisOf(p)
  {
    FillCoherent(p, pointsCeiling2D);
    FillCoherent(p[pointsCeiling2D := DerivedAt(p, pointsCeiling2D)], pointsCeiling);
  }

  /** A filled ceiling cache holds the ring lifted to level + height, and its companion the plain ring. */
  lemma CeilingCached(p: Dict)
    requires Coherent(p) && p[boundaryShape].Polygon? && p[pointsCeiling] != Nothing
    ensures p[pointsCeiling] == Spatial(Lift(p[boundaryShape].ring, NumAt(p, level) + NumAt(p, height)))
    ensures p[pointsCeiling2D] == Plan(p[boundaryShape].ring)
  {
    assert IsCache(pointsCeiling) && IsCache(pointsCeiling2D);
    assert Fresh(p, pointsCeiling) && Fresh(p, pointsCeiling2D);
  }

  /** getPointsSides' write: the quads between the floor and the ceiling ring. */
  lemma FillSides(p: Dict)
    requires Coherent(p) && p[boundaryShape].Polygon?
    ensures var r := p[boundaryShape].ring;
      var q := p[pointsSides := Quads(Sides(Lift(r, p[level].r), Lift(r, p[level].r + p[height].r)))];
      Coherent(q) && BasisOf(q) == BasisOf(p)
  {
    FillCoherent(p, pointsSides);
  }

  /** What __setBoundingBox writes. */
  function WithBox(p: Dict, r: seq<Point2>, z: real): Dict
    requires Total(p) && |r| > 0
  {
    p[boundingBox := Plan(BoxOf(r))]
     [xSize := Num(XSizeOf(r))][ySize := Num(YSizeOf(r))]
     [xAxis := Spatial(AxisXOf(r, z))][yAxis := Spatial(AxisYOf(r, z))]
     [xAxis2D := Plan(Flat(AxisXOf(r, z)))][yAxis2D := Plan(Flat(AxisYOf(r, z)))]
  }

  lemma WithBoxCoherent(p: Dict)
    requires Coherent(p) && p[boundaryShape].Polygon?
    ensures Coherent(WithBox(p, RingOf(p), NumAt(p, level)))
    ensures BasisOf(WithBox(p, RingOf(p), NumAt(p, level))) == BasisOf(p)
  {
    var q := WithBox(p, RingOf(p), NumAt(p, level));
    assert q[boundaryShape] == p[boundaryShape] && q[level] == p[level] && q[height] == p[height];
    forall j: Key | IsCache(j)
      ensures Fresh(q, j)
    {
      assert DerivedAt(q, j) == DerivedAt(p, j);
      if j != boundingBox && j != xSize && j != ySize && j != xAxis && j != yAxis && j != xAxis2D && j != yAxis2D {
        assert Fresh(p, j);
      }
    }
  }

  /** The loop of getPointsSides: one quad per floor edge, floor then ceiling corners. */
  method BuildSides(flr: seq<Point3>, clg: seq<Point3>) returns (sides: seq<seq<Point3>>)
    requires |flr| == |clg|
    ensures sides == Sides(flr, clg)
  {
    var length := |clg|;
    var index := 0;
    sides := [];
    while index < length
      invariant 0 <= index <= length
      invariant |sides| == index
      invariant forall j :: 0 <= j < index ==> sides[j] == Side(flr, clg, j)
    {
      var side := [flr[index], flr[(index + 1) % length], clg[(index + 1) % length], clg[index]];
      sides := sides + [side];
      index := index + 1;
    }
  }

  // ---------------------------------------------------------------- colour

  /** A channel as setColor stores it: int(c) % 256, Python's non-negative remainder. */
  function Channel(c: real): (b: int)
    ensures 0 <= b < 256
    ensures (b - AecValid.Trunc(c)) % 256 == 0
    ensures 0.0 <= c < 256.0 ==> b == c.Floor
  {
    var t := AecValid.Trunc(c);
    assert t == t % 256 + 256 * (t / 256);
    t % 256
  }

  /** A negative channel wraps from the top, as Python's % does: int(-1.0) % 256 is 255. */
  lemma ChannelWrapsNegative()
    ensures Channel(-1.0) == 255 && Channel(-256.5) == 0 && Channel(300.7) == 44
  {
    assert AecValid.Trunc(-1.0) == -1;
    assert AecValid.Trunc(-256.5) == -256;
    assert AecValid.Trunc(300.7) == 300;
  }

  /**
   * What setColor leaves in the dictionary.  A non-empty colour is converted
   * channel by channel; a colour shorter than three raises after assigning
   * the channels it has.  An empty colour takes the random draw.
   */
  function ColorSet(p: Dict, c: seq<real>, draw: (int, int, int)): Dict
    requires Total(p)
  {
    if c == [] then p[colorR := Int(draw.0)][colorG := Int(draw.1)][colorB := Int(draw.2)]
    else
      var q := p[colorR := Int(Channel(c[0]))];
      var q' := if |c| >= 2 then q[colorG := Int(Channel(c[1]))] else q;
      if |c| >= 3 then q'[colorB := Int(Channel(c[2]))] else q'
  }

  /**
   * Each channel setColor writes is the byte int(c) % 256, those it does not
   * reach keep their old value, and no other key changes.
   */
  lemma ColorSetChannels(p: Dict, c: seq<real>, draw: (int, int, int))
    requires Total(p)
    ensures Total(ColorSet(p, c, draw))
    ensures forall k: Key :: k != colorR && k != colorG && k != colorB ==> ColorSet(p, c, draw)[k] == p[k]
    ensures c == [] ==> ColorSet(p, c, draw)[colorR] == Int(draw.0)
    ensures c == [] ==> ColorSet(p, c, draw)[colorG] == Int(draw.1) && ColorSet(p, c, draw)[colorB] == Int(draw.2)
    ensures |c| >= 1 ==> ColorSet(p, c, draw)[colorR] == Int(Channel(c[0]))
    ensures |c| >= 2 ==> ColorSet(p, c, draw)[colorG] == Int(Channel(c[1]))
    ensures |c| >= 3 ==> ColorSet(p, c, draw)[colorB] == Int(Channel(c[2]))
    ensures |c| == 1 ==> ColorSet(p, c, draw)[colorG] == p[colorG] && ColorSet(p, c, draw)[colorB] == p[colorB]
    ensures |c| == 2 ==> ColorSet(p, c, draw)[colorB] == p[colorB]
  {}

  lemma ColorSetCoherent(p: Dict, c: seq<real>, draw: (int, int, int))
    requires Coherent(p)
    requires 0 <= draw.0 < 256 && 0 <= draw.1 < 256 && 0 <= draw.2 < 256
    ensures Coherent(ColorSet(p, c, draw))
  {
    ColorSetChannels(p, c, draw);
    var q := ColorSet(p, c, draw);
    assert q[boundaryShape] == p[boundaryShape] && q[level] == p[level] && q[height] == p[height];
    forall j: Key | IsCache(j)
      ensures Fresh(q, j)
    {
      assert DerivedAt(q, j) == DerivedAt(p, j);
      assert Fresh(p, j);
    }
  }

  // ---------------------------------------------------------------- geometry of the mutators

  /** int(abs(sides)), raised to at least 3. */
  function SideCount(sides: real): (n: nat)
    ensures n >= 3
    ensures AecValid.Whole(sides) >= 3 ==> n == AecValid.Whole(sides)
    ensures AecValid.Whole(sides) < 3 ==> n == 3
  {
    var n := AecValid.Whole(sides);
    if n < 3 then 3 else n
  }

  /** makeCylinder's side count: 3 below radius 3, otherwise int(radius). */
  function CylinderSides(radius: real): (n: nat)
    ensures radius < 3.0 ==> n == 3
    ensures radius >= 3.0 ==> n == AecValid.Whole(radius)
  {
    SideCount(if radius < 3.0 then 3.0 else radius)
  }

  const Pi: real := 3.141592653589793

  /** The angle of vertex k of n: a quarter turn, then k steps of 2 pi / n. */
  function AngleAt(n: nat, k: nat): real
    requires n > 0
  {
    Pi * 0.5 + (k as real) * ((Pi * 2.0) / (n as real))
  }

  /** makePolygon's running sum: one more step adds 2 pi / n. */
  lemma AngleStep(n: nat, k: nat)
    requires n > 0
    ensures AngleAt(n, k + 1) == AngleAt(n, k) + (Pi * 2.0) / (n as real)
  {
    var inc := (Pi * 2.0) / (n as real);
    assert ((k + 1) as real) * inc == (k as real) * inc + inc;
  }

  /** Vertex k sits at AngleAt(n, k) on the circle of the given radius. */
  function Vertex(center: Point3, radius: real, n: nat, k: nat, unitCircle: real -> Point2): Point3
    requires n > 0
  {
    var u := unitCircle(AngleAt(n, k));
    Point3(center.x + radius * u.x, center.y + radius * u.y, center.z)
  }

  function PolygonVertices(center: Point3, radius: real, n: nat, unitCircle: real -> Point2): (r: seq<Point3>)
    requires n > 0
    ensures |r| == n
    ensures forall k :: 0 <= k < n ==> r[k] == Vertex(center, radius, n, k, unitCircle)
  {
    seq(n, k requires 0 <= k < n => Vertex(center, radius, n, k, unitCircle))
  }

  /** makePolygon's loop: n points, the angle stepping by 2 pi / n from a quarter turn. */
  method PolygonPoints(center: Point3, r: real, n: nat, unitCircle: real -> Point2) returns (points: seq<Point3>)
    requires n > 0
    ensures points == PolygonVertices(center, r, n, unitCircle)
  {
    var angle := Pi * 0.5;
    var incAngle := (Pi * 2.0) / (n as real);
    points := [];
    var count := 0;
    while count < n
      invariant 0 <= count <= n
      invariant angle == AngleAt(n, count)
      invariant |points| == count
      invariant forall k :: 0 <= k < count ==> points[k] == Vertex(center, r, n, k, unitCircle)
    {
      var u := unitCircle(angle);
      assert Vertex(center, r, n, count, unitCircle) == Point3(center.x + r * u.x, center.y + r * u.y, center.z);
      points := points + [Point3(center.x + r * u.x, center.y + r * u.y, center.z)];
      AngleStep(n, count);
      angle := angle + incAngle;
      count := count + 1;
    }
  }

  function ScalePoint(q: Point2, sx: real, sy: real, pivot: Point2): Point2 {
    Point2(pivot.x + sx * (q.x - pivot.x), pivot.y + sy * (q.y - pivot.y))
  }

  /** affine.scale about a pivot, on the exterior ring. */
  function ScaleAbout(s: seq<Point2>, sx: real, sy: real, pivot: Point2): (r: seq<Point2>)
    ensures |r| == |s|
    ensures forall i :: 0 <= i < |s| ==> r[i] == ScalePoint(s[i], sx, sy, pivot)
  {
    seq(|s|, i requires 0 <= i < |s| => ScalePoint(s[i], sx, sy, pivot))
  }

  /** The ring setBoundary leaves: the new one if three or more points survive, else the old. */
  function SetRing(before: Option<seq<Point2>>, points: seq<Point2>): Option<seq<Point2>> {
    if Accepted(points) then Some(Orient(Reduce(points))) else before
  }

  /** setBoundary accepts points that keep three or more after the colinear removal. */
  predicate Accepted(points: seq<Point2>) {
    points != [] && |Reduce(points)| >= 3
  }

  /** The retained keys the constructor sets, with the given level and height. */
  predicate Made(p: Dict, id: nat, draw: (int, int, int), z: Value, h: Value) {
    && Total(p) && p[ID] == Uuid(id) && p[name] == Text("")
    && p[colorR] == Int(draw.0) && p[colorG] == Int(draw.1) && p[colorB] == Int(draw.2)
    && p[level] == z && p[height] == h
  }

  // ---------------------------------------------------------------- the class

  class Space {
    var props: Dict

    predicate Valid()
      reads this
    {
      Coherent(props)
    }

    /** The boundary's exterior ring, without the closing point. */
    function Ring(): (r: Option<seq<Point2>>)
      reads this
      ensures Valid() && r.Some? ==> |r.value| >= 3
    {
      if boundaryShape < |props| && props[boundaryShape].Polygon? then Some(props[boundaryShape].ring) else None
    }

    function Level(): real reads this { NumAt(props, level) }

    function Height(): real reads this { NumAt(props, height) }

    /** Everything outside the caches. */
    function Settled(): Basis reads this { BasisOf(props) }

    /**
     * A new space: a fresh dictionary, the given id, a random colour, then
     * makeBox's level 0, height 1 and the box boundary.
     */
    constructor (id: nat, draw: (int, int, int), box: seq<Point2>)
      requires 0 <= draw.0 < 256 && 0 <= draw.1 < 256 && 0 <= draw.2 < 256
      ensures Valid()
      ensures Level() == 0.0 && Height() == 1.0
      ensures props[ID] == Uuid(id) && props[name] == Text("")
      ensures props[colorR] == Int(draw.0) && props[colorG] == Int(draw.1) && props[colorB] == Int(draw.2)
      ensures Ring() == SetRing(None, box)
    {
      props := Blank()[ID := Uuid(id)];
      new;
      FreshCoherent(props);
      var _ := SetColor([], draw);
      assert Made(props, id, draw, props[level], props[height]);
      var _ := MakeBox(box, 0.0, 1.0);
    }

    /**
     * makeBox with the corner helper's result given as points: the level,
     * then the height, then the boundary; the retained keys it does not set
     * keep their values.  The level and height go through the corrected
     * setters, so no cache survives, even when setBoundary refuses the box.
     */
    method MakeBox(points: seq<Point2>, z: real, h: real) returns (ok: bool)
      requires Valid()
      modifies this
      ensures Valid() && ok
      ensures Level() == z && Height() == h
      ensures Ring() == SetRing(old(Ring()), points)
      ensures AllFresh(props)
      ensures forall k :: Retained(k) && k != level && k != height ==> props[k] == old(props[k])
    {
      ghost var p0 := props;
      SetLevel(z);
      ghost var p1 := props;
      assert forall k :: Retained(k) && k != level ==> p1[k] == p0[k];
      SetHeight(h);
      ghost var p2 := props;
      assert forall k :: Retained(k) && k != level && k != height ==> p2[k] == p0[k];
      assert p2[level] == Num(z) && p2[boundaryShape] == p0[boundaryShape];
      var _ := SetBoundary(points);
      ok := true;
    }

    /** __initialize: every key outside the retain-list becomes None, in the dictionary's key order. */
    method Initialize()
      modifies this
      ensures props == Cleared(old(props))
    {
      ghost var p0 := props;
      for k := 0 to |props|
        invariant |props| == |p0|
        invariant forall j :: 0 <= j < |props| ==> props[j] == (if j >= k || Retained(j) then p0[j] else Nothing)
      {
        if !Retained(k) {
          props := props[k := Nothing];
        }
      }
      assert props == Cleared(p0);
    }

    /**
     * setBoundary: the points less their colinear ones (None for no points);
     * fewer than three left fails and changes nothing; otherwise reset, then
     * store the oriented polygon.
     */
    method SetBoundary(points: seq<Point2>) returns (ok: bool)
      requires Valid()
      modifies this
      ensures Valid()
      ensures ok == Accepted(points)
      ensures ok ==> props == Cleared(old(props))[boundaryShape := Polygon(Orient(Reduce(points)))]
      ensures !ok ==> props == old(props)
      ensures Ring() == SetRing(old(Ring()), points)
    {
      var kept := GeomCalc.RmvColinear(points);
      if kept.None? || |kept.value| < 3 {
        return false;
      }
      var ring := Orient(kept.value);
      ClearedCoherent(props, ring);
      Initialize();
      props := props[boundaryShape := Polygon(ring)];
      ok := true;
    }

    /** __setBoundingBox: without a boundary, False; otherwise box, sizes and axes at level. */
    method SetBoundingBox() returns (ok: bool)
      requires Valid()
      modifies this
      ensures Valid() && Settled() == old(Settled())
      ensures ok == Ring().Some?
      ensures ok ==> props == WithBox(old(props), Ring().value, Level())
      ensures !ok ==> props == old(props)
    {
      if !Truthy(props[boundaryShape]) {
        return false;
      }
      WithBoxCoherent(props);
      props := WithBox(props, props[boundaryShape].ring, props[level].r);
      ok := true;
    }

    method GetArea() returns (r: Value)
      requires Valid()
      modifies this
      ensures Valid() && Settled() == old(Settled())
      ensures r == if Ring().None? then Nothing else Num(Area(Ring().value))
    {
      if !Truthy(props[boundaryShape]) {
        return Nothing;
      }
      if !Truthy(props[area]) {
        var a := Num(Area(props[boundaryShape].ring));
        FillCoherent(props, area);
        props := props[area := a];
      }
      assert Fresh(props, area);
      r := props[area];
    }

    method GetXsize() returns (r: Value)
      requires Valid()
      modifies this
      ensures Valid() && Settled() == old(Settled())
      ensures r == if Ring().None? then Nothing else Num(XSizeOf(Ring().value))
    {
      if !Truthy(props[boundaryShape]) {
        return Nothing;
      }
      if !Truthy(props[xSize]) {
        var _ := SetBoundingBox();
      }
      assert Fresh(props, xSize);
      r := props[xSize];
    }

    method GetYsize() returns (r: Value)
      requires Valid()
      modifies this
      ensures Valid() && Settled() == old(Settled())
      ensures r == if Ring().None? then Nothing else Num(YSizeOf(Ring().value))
    {
      if !Truthy(props[boundaryShape]) {
        return Nothing;
      }
      if !Truthy(props[ySize]) {
        var _ := SetBoundingBox();
      }
      assert Fresh(props, ySize);
      r := props[ySize];
    }

    method GetBoundingBox() returns (r: Value)
      requires Valid()
      modifies this
      ensures Valid() && Settled() == old(Settled())
      ensures r == if Ring().None? then Nothing else Plan(BoxOf(Ring().value))
    {
      if !Truthy(props[boundaryShape]) {
        return Nothing;
      }
      if !Truthy(props[boundingBox]) {
        var _ := SetBoundingBox();
      }
      assert Fresh(props, boundingBox);
      r := props[boundingBox];
    }

    method GetAxisX(points2D: bool) returns (r: Value)
      requires Valid()
      modifies this
      ensures Valid() && Settled() == old(Settled())
      ensures r == AxisValue(Ring(), Level(), points2D, true)
    {
      if !Truthy(props[boundaryShape]) {
        return Nothing;
      }
      if !Truthy(props[xAxis]) {
        var _ := SetBoundingBox();
      }
      assert Fresh(props, xAxis) && Fresh(props, xAxis2D);
      r := if points2D then props[xAxis2D] else props[xAxis];
    }

    method GetAxisY(points2D: bool) returns (r: Value)
      requires Valid()
      modifies this
      ensures Valid() && Settled() == old(Settled())
      ensures r == AxisValue(Ring(), Level(), points2D, false)
    {
      if !Truthy(props[boundaryShape]) {
        return Nothing;
      }
      if !Truthy(props[yAxis]) {
        var _ := SetBoundingBox();
      }
      assert Fresh(props, yAxis) && Fresh(props, yAxis2D);
      r := if points2D then props[yAxis2D] else props[yAxis];
    }

    /** The longer axis, the x-axis when the extents are equal. */
    method GetAxisMajor(points2D: bool) returns (r: Value)
      requires Valid()
      modifies this
      ensures Valid() && Settled() == old(Settled())
      ensures r == if Ring().None? then Nothing
                   else AxisValue(Ring(), Level(), points2D, XSizeOf(Ring().value) >= YSizeOf(Ring().value))
    {
      if !Truthy(props[boundaryShape]) {
        return Nothing;
      }
      if !Truthy(props[xAxis]) {
        var _ := SetBoundingBox();
      }
      var xs := GetXsize();
      var ys := GetYsize();
      if xs.r >= ys.r {
        r := GetAxisX(points2D);
      } else {
        r := GetAxisY(points2D);
      }
    }

    /** The shorter axis, the y-axis when the extents are equal. */
    method GetAxisMinor(points2D: bool) returns (r: Value)
      requires Valid()
      modifies this
      ensures Valid() && Settled() == old(Settled())
      ensures r == if Ring().None? then Nothing
                   else AxisValue(Ring(), Level(), points2D, XSizeOf(Ring().value) < YSizeOf(Ring().value))
    {
      if !Truthy(props[boundaryShape]) {
        return Nothing;
      }
      if !Truthy(props[yAxis]) {
        var _ := SetBoundingBox();
      }
      var xs := GetXsize();
      var ys := GetYsize();
      if xs.r < ys.r {
        r := GetAxisX(points2D);
      } else {
        r := GetAxisY(points2D);
      }
    }

    /** The floor ring at level, or the plain ring. */
    method GetPointsFloor(points2D: bool) returns (r: Value)
      requires Valid()
      modifies this
      ensures Valid() && Settled() == old(Settled())
      ensures r == if Ring().None? then Nothing
                   else if points2D then Plan(Ring().value) else Spatial(Lift(Ring().value, Level()))
    {
      if !Truthy(props[boundaryShape]) {
        return Nothing;
      }
      if !Truthy(props[pointsFloor]) {
        var ring := props[boundaryShape].ring;
        FillFloor(props);
        props := props[pointsFloor2D := Plan(ring)];
        props := props[pointsFloor := Spatial(Lift(ring, props[level].r))];
      }
      assert Fresh(props, pointsFloor) && Fresh(props, pointsFloor2D);
      r := if points2D then props[pointsFloor2D] else props[pointsFloor];
    }

    /** The ceiling ring at level + height, or the plain ring. */
    method GetPointsCeiling(points2D: bool) returns (r: Value)
      requires Valid()
      modifies this
      ensures Valid() && Settled() == old(Settled())
      ensures r == if Ring().None? then Nothing
                   else if points2D then Plan(Ring().value) else Spatial(Lift(Ring().value, Level() + Height()))
    {
      if !Truthy(props[boundaryShape]) {
        return Nothing;
      }
      if !Truthy(props[pointsCeiling]) {
        var ring := props[boundaryShape].ring;
        FillCeiling(props);
        props := props[pointsCeiling2D := Plan(ring)];
        props := props[pointsCeiling := Spatial(Lift(ring, props[level].r + props[height].r))];
      }
      CeilingCached(props);
      r := if points2D then props[pointsCeiling2D] else props[pointsCeiling];
    }

    /** The filling branch of getPointsSides: the ceiling, the floor, then the quads between them. */
    method FillPointsSides()
      requires Valid() && Ring().Some?
      modifies this
      ensures Valid() && Settled() == old(Settled())
      ensures props[pointsSides] == Quads(Sides(Lift(Ring().value, Level()), Lift(Ring().value, Level() + Height())))
    {
      ghost var p0 := props;
      var c := GetPointsCeiling(false);
      var f := GetPointsFloor(false);
      assert props[boundaryShape] == p0[boundaryShape] && props[level] == p0[level] && props[height] == p0[height];
      var sides := BuildSides(f.pts3, c.pts3);
      FillSides(props);
      props := props[pointsSides := Quads(sides)];
    }

    /**
     * One quad per floor edge, built in a loop from the floor and ceiling
     * rings.  Asking for 2D sides reads a key the dictionary does not have,
     * so the caught KeyError gives None.
     */
    method GetPointsSides(points2D: bool) returns (r: Value)
      requires Valid()
      modifies this
      ensures Valid() && Settled() == old(Settled())
      ensures r == if Ring().None? || points2D then Nothing
                   else Quads(Sides(Lift(Ring().value, Level()), Lift(Ring().value, Level() + Height())))
    {
      if !Truthy(props[boundaryShape]) {
        return Nothing;
      }
      if !Truthy(props[pointsSides]) {
        FillPointsSides();
      }
      if points2D {
        return Nothing;
      }
      assert Fresh(props, pointsSides);
      r := props[pointsSides];
    }

    /** area x height, cached. */
    method GetVolume() returns (r: Value)
      requires Valid()
      modifies this
      ensures Valid() && Settled() == old(Settled())
      ensures r == if Ring().None? then Nothing else Num(VolumeOf(Ring().value, Height()))
      ensures props[volume] == r
    {
      if !Truthy(props[boundaryShape]) {
        assert Fresh(props, volume);
        return Nothing;
      }
      if !Truthy(props[volume]) {
        var a := GetArea();
        var v := Num(a.r * props[height].r);
        assert v == Num(VolumeOf(props[boundaryShape].ring, props[height].r));
        FillCoherent(props, volume);
        props := props[volume := v];
      }
      assert Fresh(props, volume);
      r := props[volume];
    }

    /**
     * setColor: int(c) % 256 per channel, or the random draw for an empty
     * colour.  A colour of one or two entries raises part-way; the channels
     * assigned before the error stay assigned and the result is False.
     */
    method SetColor(newColor: seq<real>, draw: (int, int, int)) returns (ok: bool)
      requires Valid()
      requires 0 <= draw.0 < 256 && 0 <= draw.1 < 256 && 0 <= draw.2 < 256
      modifies this
      ensures Valid()
      ensures ok == (newColor == [] || |newColor| >= 3)
      ensures props == ColorSet(old(props), newColor, draw)
    {
      ColorSetCoherent(props, newColor, draw);
      if newColor != [] {
        var channels := seq(|newColor|, i requires 0 <= i < |newColor| => Channel(newColor[i]));
        props := props[colorR := Int(channels[0])];
        if |newColor| < 2 {
          return false;
        }
        props := props[colorG := Int(channels[1])];
        if |newColor| < 3 {
          return false;
        }
        props := props[colorB := Int(channels[2])];
      } else {
        props := props[colorR := Int(draw.0)][colorG := Int(draw.1)][colorB := Int(draw.2)];
      }
      ok := true;
    }

    /** setHeight as written: the height changes but the caches built on it stay. */
    method SetHeightAsWritten(newHeight: real)
      requires Valid()
      modifies this
      ensures props == old(props)[height := Num(newHeight)]
    {
      props := props[height := Num(newHeight)];
    }

    /** setLevel as written: the level changes but the caches built on it stay. */
    method SetLevelAsWritten(newLevel: real)
      requires Valid()
      modifies this
      ensures props == old(props)[level := Num(newLevel)]
    {
      props := props[level := Num(newLevel)];
    }

    /** setHeight with the caches that depend on the height dropped. */
    method SetHeight(newHeight: real)
      requires Valid()
      modifies this
      ensures Valid()
      ensures props == Invalidated(old(props))[height := Num(newHeight)]
    {
      InvalidatedCoherent(props, height, newHeight);
      props := Invalidated(props)[height := Num(newHeight)];
    }

    /** setLevel with the caches that depend on the level dropped. */
    method SetLevel(newLevel: real)
      requires Valid()
      modifies this
      ensures Valid()
      ensures props == Invalidated(old(props))[level := Num(newLevel)]
    {
      InvalidatedCoherent(props, level, newLevel);
      props := Invalidated(props)[level := Num(newLevel)];
    }

    /**
     * move: without a boundary, False.  Otherwise the level rises by dz and
     * the translated ring is offered to setBoundary, whose verdict is ignored.
     * The level goes through the corrected setter, so no cache survives.
     */
    method Move(dx: real, dy: real, dz: real) returns (ok: bool)
      requires Valid()
      modifies this
      ensures Valid()
      ensures ok == old(Ring()).Some?
      ensures !ok ==> props == old(props)
      ensures ok ==> Level() == old(Level()) + dz && Height() == old(Height())
      ensures ok ==> Ring() == SetRing(old(Ring()), Translate(old(Ring()).value, dx, dy))
      ensures ok ==> forall k :: Retained(k) && k != level ==> props[k] == old(props[k])
      ensures ok ==> AllFresh(props)
    {
      if !Truthy(props[boundaryShape]) {
        return false;
      }
      var ring := props[boundaryShape].ring;
      var moved := Translate(ring, dx, dy);
      var newLevel := props[level].r + dz;
      SetLevel(newLevel);
      var _ := SetBoundary(moved);
      ok := true;
    }

    /** setProperty: one key set directly, bypassing every check. */
    method SetProperty(k: Key, v: Value)
      requires Total(props)
      modifies this
      ensures Total(props) && props == old(props)[k := v]
    {
      props := props[k := v];
    }

    /**
     * scale: a scaled ring about the pivot; only if setBoundary accepts it
     * is the height multiplied by sz.
     */
    method Scale(sx: real, sy: real, sz: real, pivot: Point2) returns (ok: bool)
      requires Valid()
      modifies this
      ensures Valid()
      ensures ok == (old(Ring()).Some? && Accepted(ScaleAbout(old(Ring()).value, sx, sy, pivot)))
      ensures !ok ==> props == old(props)
      ensures ok ==> Ring() == SetRing(old(Ring()), ScaleAbout(old(Ring()).value, sx, sy, pivot))
      ensures ok ==> Height() == old(Height()) * sz && Level() == old(Level())
    {
      if !Truthy(props[boundaryShape]) {
        return false;
      }
      var scaled := ScaleAbout(props[boundaryShape].ring, sx, sy, pivot);
      ghost var p0 := props;
      ok := SetBoundary(scaled);
      if !ok {
        return false;
      }
      var newHeight := props[height].r * sz;
      ResetHeightCoherent(p0, props[boundaryShape].ring, newHeight);
      props := props[height := Num(newHeight)];
    }

    /**
     * makePolygon: radius 0 (after abs) fails; otherwise SideCount(sides)
     * vertices are laid out by stepping the angle, handed to setBoundary as
     * plan points, and the height is set through the corrected setter, so
     * no cache survives.
     */
    method MakePolygon(center: Point3, radius: real, sides: real, newHeight: real, unitCircle: real -> Point2)
      returns (ok: bool)
      requires Valid()
      modifies this
      ensures Valid()
      ensures ok == (radius != 0.0)
      ensures !ok ==> props == old(props)
      ensures ok ==> Height() == newHeight
      ensures ok ==> Ring() == SetRing(old(Ring()), Flat(PolygonVertices(center, Abs(radius), SideCount(sides), unitCircle)))
      ensures ok ==> AllFresh(props)
    {
      var r := Abs(radius);
      if r == 0.0 {
        return false;
      }
      var n := SideCount(sides);
      var points := PolygonPoints(center, r, n, unitCircle);
      var _ := SetBoundary(Flat(points));
      SetHeight(newHeight);
      ok := true;
    }

    /** makeCylinder: 3 sides below radius 3, otherwise `radius` sides. */
    method MakeCylinder(center: Point3, radius: real, newHeight: real, unitCircle: real -> Point2)
      returns (ok: bool)
      requires Valid()
      modifies this
      ensures Valid()
      ensures ok == (radius != 0.0)
      ensures !ok ==> props == old(props)
      ensures ok ==> Height() == newHeight
      ensures ok ==> Ring() == SetRing(old(Ring()), Flat(PolygonVertices(center, Abs(radius), CylinderSides(radius), unitCircle)))
      ensures ok ==> AllFresh(props)
    {
      var sides := if radius < 3.0 then 3.0 else radius;
      ok := MakePolygon(center, radius, sides, newHeight, unitCircle);
    }

    /** wrap: a non-empty convex hull is offered to setBoundary and gives True whatever it says. */
    method Wrap(points: seq<Point2>) returns (ok: bool, ghost hull: seq<Point2>)
      requires Valid()
      modifies this
      ensures Valid()
      ensures ok == (hull != []) && ok == !GeomCalc.HullEmpty(points)
      ensures |points| <= 2 ==> hull == points
      ensures |points| > 2 ==> forall q :: q in hull ==> q in points
      ensures !ok ==> props == old(props)
      ensures ok ==> Ring() == SetRing(old(Ring()), hull)
    {
      var h, _ := GeomCalc.ConvexHull(points);
      hull := h;
      if h != [] {
        var _ := SetBoundary(h);
        return true, hull;
      }
      ok := false;
    }
  }
}
