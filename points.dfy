/**
 * Plane and space points with the arithmetic the geometry helpers share:
 * Python tuple order, the 2D cross product, the shoelace area that shapely
 * reports for a polygon, coordinate bounds, translation and ring orientation.
 */
module Points {
  datatype Point2 = Point2(x: real, y: real)
  datatype Point3 = Point3(x: real, y: real, z: real)

  function XY(p: Point3): Point2 { Point2(p.x, p.y) }

  function AtLevel(p: Point2, z: real): Point3 { Point3(p.x, p.y, z) }

  function Abs(r: real): real { if r < 0.0 then -r else r }

  /** Python's comparison of two coordinate tuples: by x, then by y. */
  predicate Less(p: Point2, q: Point2) { p.x < q.x || (p.x == q.x && p.y < q.y) }

  lemma LessTotal(p: Point2, q: Point2)
    ensures p == q || Less(p, q) || Less(q, p)
  {}

  predicate Increasing(s: seq<Point2>) {
    forall i, j :: 0 <= i < j < |s| ==> Less(s[i], s[j])
  }

  predicate Decreasing(s: seq<Point2>) {
    forall i, j :: 0 <= i < j < |s| ==> Less(s[j], s[i])
  }

  /** `Monotone(s, true)` is lexicographically increasing, `Monotone(s, false)` decreasing. */
  predicate Before(p: Point2, q: Point2, up: bool) { if up then Less(p, q) else Less(q, p) }

  predicate Monotone(s: seq<Point2>, up: bool) {
    forall i, j :: 0 <= i < j < |s| ==> Before(s[i], s[j], up)
  }

  predicate Distinct<T(==)>(s: seq<T>) {
    forall i, j :: 0 <= i < j < |s| ==> s[i] != s[j]
  }

  /** The z-component of (a - o) x (b - o): positive for a counter-clockwise turn o, a, b. */
  function Cross(o: Point2, a: Point2, b: Point2): real {
    (a.x - o.x) * (b.y - o.y) - (a.y - o.y) * (b.x - o.x)
  }

  function Reverse<T>(s: seq<T>): (r: seq<T>)
    ensures |r| == |s|
    ensures forall i :: 0 <= i < |s| ==> r[i] == s[|s| - 1 - i]
  {
    if s == [] then [] else Reverse(s[1..]) + [s[0]]
  }

  /** Twice the signed area of the closed ring s (positive when counter-clockwise). */
  function Shoelace(s: seq<Point2>): real {
    if |s| < 3 then 0.0 else ShoelaceFrom(s, 0)
  }

  function ShoelaceFrom(s: seq<Point2>, i: nat): real
    requires |s| > 0
    requires i <= |s|
    decreases |s| - i
  {
    if i == |s| then 0.0 else Term(s[i], s[if i + 1 == |s| then 0 else i + 1]) + ShoelaceFrom(s, i + 1)
  }

  function Term(p: Point2, q: Point2): real { p.x * q.y - q.x * p.y }

  /** What moving by (dx, dy) adds to a point's terms: dy * x - dx * y. */
  function Gauge(p: Point2, dx: real, dy: real): real { dy * p.x - dx * p.y }

  lemma TermTranslate(p: Point2, q: Point2, dx: real, dy: real)
    ensures Term(Add(p, dx, dy), Add(q, dx, dy)) == Term(p, q) + Gauge(p, dx, dy) - Gauge(q, dx, dy)
  {}

  /** The area shapely reports for the polygon whose exterior ring is s. */
  function Area(s: seq<Point2>): real { Abs(Shoelace(s)) / 2.0 }

  /** For three points the ring area is half the cross product, so the two zero tests agree. */
  lemma TriangleArea(a: Point2, b: Point2, c: Point2)
    ensures Shoelace([a, b, c]) == Cross(a, b, c)
    ensures Area([a, b, c]) == 0.0 <==> Cross(a, b, c) == 0.0
  {
    var s := [a, b, c];
    assert ShoelaceFrom(s, 3) == 0.0;
    assert ShoelaceFrom(s, 2) == c.x * a.y - a.x * c.y;
    assert ShoelaceFrom(s, 1) == (b.x * c.y - c.x * b.y) + ShoelaceFrom(s, 2);
  }

  /**
   * shapely's `orient(polygon)`: a clockwise exterior ring is reversed. Reversing
   * the closed ring p0, p1, ..., pn-1, p0 keeps p0 in front.
   */
  function Orient(s: seq<Point2>): (r: seq<Point2>)
    ensures |r| == |s|
    ensures |s| > 0 ==> r[0] == s[0]
  {
    if |s| > 0 && Shoelace(s) < 0.0 then [s[0]] + Reverse(s[1..]) else s
  }

  /** Orienting only reorders the ring's points. */
  lemma OrientPermutes(s: seq<Point2>)
    ensures multiset(Orient(s)) == multiset(s)
  {
    if |s| > 0 && Shoelace(s) < 0.0 {
      assert s == [s[0]] + s[1..];
      ReverseMultiset(s[1..]);
    }
  }

  /** The ring edge leaving vertex j, closing back to vertex 0 after the last. */
  function Edge(s: seq<Point2>, j: nat): real
    requires j < |s|
  {
    Term(s[j], s[if j + 1 == |s| then 0 else j + 1])
  }

  /** The first k edge terms of the ring. */
  function ShoelaceTo(s: seq<Point2>, k: nat): real
    requires k <= |s|
  {
    if k == 0 then 0.0 else ShoelaceTo(s, k - 1) + Edge(s, k - 1)
  }

  lemma {:induction false} FromTo(s: seq<Point2>, i: nat)
    requires 0 < |s| && i <= |s|
    ensures ShoelaceFrom(s, i) + ShoelaceTo(s, i) == ShoelaceTo(s, |s|)
    decreases |s| - i
  {
    if i < |s| {
      FromTo(s, i + 1);
      assert ShoelaceFrom(s, i) == Edge(s, i) + ShoelaceFrom(s, i + 1);
    }
  }

  /** Walking the reversed ring from edge i on sums the first n - i edges of s, negated. */
  lemma {:induction false} ReversedFrom(s: seq<Point2>, r: seq<Point2>, i: nat)
    requires |s| > 1 && r == [s[0]] + Reverse(s[1..]) && i <= |s|
    ensures ShoelaceFrom(r, i) == -ShoelaceTo(s, |s| - i)
    decreases |s| - i
  {
    var n := |s|;
    if i < n {
      ReversedFrom(s, r, i + 1);
      var j := n - 1 - i;
      assert r[i] == s[if j + 1 == n then 0 else j + 1];
      assert r[if i + 1 == n then 0 else i + 1] == s[j];
      assert Edge(r, i) == -Edge(s, j);
      assert ShoelaceFrom(r, i) == Edge(r, i) + ShoelaceFrom(r, i + 1);
    }
  }

  /** Orienting makes the ring wind counter-clockwise: its signed area becomes the absolute one. */
  lemma OrientWinds(s: seq<Point2>)
    ensures Shoelace(Orient(s)) == Abs(Shoelace(s))
    ensures Shoelace(Orient(s)) >= 0.0
  {
    if |s| >= 3 && Shoelace(s) < 0.0 {
      var r := [s[0]] + Reverse(s[1..]);
      ReversedFrom(s, r, 0);
      FromTo(s, 0);
    }
  }

  lemma {:induction false} ReverseMultiset<T>(s: seq<T>)
    ensures multiset(Reverse(s)) == multiset(s)
  {
    if s != [] {
      ReverseMultiset(s[1..]);
      assert s == [s[0]] + s[1..];
    }
  }

  function MinX(s: seq<Point2>): real requires |s| > 0 {
    if |s| == 1 then s[0].x else var m := MinX(s[1..]); if s[0].x < m then s[0].x else m
  }
  function MaxX(s: seq<Point2>): real requires |s| > 0 {
    if |s| == 1 then s[0].x else var m := MaxX(s[1..]); if s[0].x > m then s[0].x else m
  }
  function MinY(s: seq<Point2>): real requires |s| > 0 {
    if |s| == 1 then s[0].y else var m := MinY(s[1..]); if s[0].y < m then s[0].y else m
  }
  function MaxY(s: seq<Point2>): real requires |s| > 0 {
    if |s| == 1 then s[0].y else var m := MaxY(s[1..]); if s[0].y > m then s[0].y else m
  }

  /** The bounds are attained by some point and enclose every point. */
  lemma {:induction false} BoundsEnclose(s: seq<Point2>)
    requires |s| > 0
    ensures forall p :: p in s ==> MinX(s) <= p.x <= MaxX(s) && MinY(s) <= p.y <= MaxY(s)
    ensures exists p :: p in s && p.x == MinX(s)
    ensures exists p :: p in s && p.x == MaxX(s)
    ensures exists p :: p in s && p.y == MinY(s)
    ensures exists p :: p in s && p.y == MaxY(s)
  {
    if |s| > 1 {
      BoundsEnclose(s[1..]);
      assert s == [s[0]] + s[1..];
    }
  }

  function Add(p: Point2, dx: real, dy: real): Point2 { Point2(p.x + dx, p.y + dy) }

  function Translate(s: seq<Point2>, dx: real, dy: real): (r: seq<Point2>)
    ensures |r| == |s|
    ensures forall i :: 0 <= i < |s| ==> r[i] == Add(s[i], dx, dy)
  {
    if s == [] then [] else [Add(s[0], dx, dy)] + Translate(s[1..], dx, dy)
  }

  function Flat(s: seq<Point3>): (r: seq<Point2>)
    ensures |r| == |s|
    ensures forall i {:trigger r[i]} :: 0 <= i < |s| ==> r[i] == XY(s[i])
  {
    if s == [] then [] else [XY(s[0])] + Flat(s[1..])
  }

  function Lift(s: seq<Point2>, z: real): (r: seq<Point3>)
    ensures |r| == |s|
    ensures forall i {:trigger r[i]} :: 0 <= i < |s| ==> r[i] == AtLevel(s[i], z)
  {
    if s == [] then [] else [AtLevel(s[0], z)] + Lift(s[1..], z)
  }

  lemma TranslateConcat(a: seq<Point2>, b: seq<Point2>, dx: real, dy: real)
    ensures Translate(a + b, dx, dy) == Translate(a, dx, dy) + Translate(b, dx, dy)
  {}

  lemma TranslateMember(s: seq<Point2>, p: Point2, dx: real, dy: real)
    ensures Add(p, dx, dy) in Translate(s, dx, dy) <==> p in s
  {
    var t := Translate(s, dx, dy);
    if p in s {
      var i :| 0 <= i < |s| && s[i] == p;
      assert t[i] == Add(p, dx, dy);
    }
    if Add(p, dx, dy) in t {
      var i :| 0 <= i < |t| && t[i] == Add(p, dx, dy);
      assert s[i] == p;
    }
  }

  lemma {:induction false} ShoelaceFromTranslate(s: seq<Point2>, t: seq<Point2>, i: nat, dx: real, dy: real)
    requires 0 < |s| && i <= |s| && |t| == |s|
    requires forall k :: 0 <= k < |s| ==> t[k] == Add(s[k], dx, dy)
    ensures ShoelaceFrom(t, i) == ShoelaceFrom(s, i) + (if i == |s| then 0.0 else Gauge(s[i], dx, dy) - Gauge(s[0], dx, dy))
    decreases |s| - i
  {
    if i < |s| {
      ShoelaceFromTranslate(s, t, i + 1, dx, dy);
      var j := if i + 1 == |s| then 0 else i + 1;
      TermTranslate(s[i], s[j], dx, dy);
      assert t[i] == Add(s[i], dx, dy) && t[j] == Add(s[j], dx, dy);
    }
  }

  /** Moving a ring changes neither its signed area nor, so, its orientation. */
  lemma ShoelaceTranslate(s: seq<Point2>, dx: real, dy: real)
    ensures Shoelace(Translate(s, dx, dy)) == Shoelace(s)
  {
    if |s| >= 3 {
      ShoelaceFromTranslate(s, Translate(s, dx, dy), 0, dx, dy);
    }
  }

  lemma {:induction false} ReverseTranslate(s: seq<Point2>, dx: real, dy: real)
    ensures Reverse(Translate(s, dx, dy)) == Translate(Reverse(s), dx, dy)
  {}

  lemma OrientTranslate(s: seq<Point2>, dx: real, dy: real)
    ensures Orient(Translate(s, dx, dy)) == Translate(Orient(s), dx, dy)
  {
    ShoelaceTranslate(s, dx, dy);
    if |s| > 0 && Shoelace(s) < 0.0 {
      var t := Translate(s, dx, dy);
      assert t[1..] == Translate(s[1..], dx, dy);
      ReverseTranslate(s[1..], dx, dy);
      TranslateConcat([s[0]], Reverse(s[1..]), dx, dy);
    }
  }

  /** The doubled signed area of a four-point ring, term by term. */
  lemma QuadShoelace(a: Point2, b: Point2, c: Point2, d: Point2)
    ensures Shoelace([a, b, c, d]) == Term(a, b) + Term(b, c) + Term(c, d) + Term(d, a)
  {
    var s := [a, b, c, d];
    assert ShoelaceFrom(s, 4) == 0.0;
    assert ShoelaceFrom(s, 3) == Term(d, a);
    assert ShoelaceFrom(s, 2) == Term(c, d) + Term(d, a);
    assert ShoelaceFrom(s, 1) == Term(b, c) + Term(c, d) + Term(d, a);
    assert ShoelaceFrom(s, 0) == Term(a, b) + Term(b, c) + Term(c, d) + Term(d, a);
  }
}
