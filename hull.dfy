/**
 * Andrew's monotone-chain convex hull, shared by both revisions of the
 * geometry helpers: the points are sorted and deduplicated, a lower chain is
 * built over them and an upper chain over them reversed, popping the last
 * kept point while it does not make a strict counter-clockwise turn.
 */
module Hull {
  import opened Points

  /** Inserts p into a strictly increasing sequence, dropping it if present. */
  function Insert(p: Point2, s: seq<Point2>): (r: seq<Point2>)
    requires Increasing(s)
    ensures Increasing(r)
    ensures forall q :: q in r <==> q == p || q in s
    decreases |s|
  {
    if s == [] then [p]
    else if p == s[0] then s
    else if Less(p, s[0]) then [p] + s
    else
      LessTotal(p, s[0]);
      var t := Insert(p, s[1..]);
      assert forall q :: q in t ==> Less(s[0], q);
      [s[0]] + t
  }

  /** Python's `sorted(set(points))`: the distinct points in increasing tuple order. */
  function SortedSet(s: seq<Point2>): (r: seq<Point2>)
    ensures Increasing(r)
    ensures forall q :: q in r <==> q in s
  {
    if s == [] then [] else Insert(s[0], SortedSet(s[1..]))
  }

  /** Every three consecutive points turn strictly counter-clockwise. */
  predicate LeftTurns(c: seq<Point2>) {
    forall k :: 0 <= k < |c| - 2 ==> TurnAt(c, k) > 0.0
  }

  function TurnAt(c: seq<Point2>, k: nat): real
    requires k + 2 < |c|
  {
    Cross(c[k], c[k + 1], c[k + 2])
  }

  /** Seen from the first point, the later points are in strictly counter-clockwise order. */
  predicate Fan(c: seq<Point2>) {
    forall k, t :: 0 < k < t < |c| ==> FanAt(c, k, t) > 0.0
  }

  function FanAt(c: seq<Point2>, k: nat, t: nat): real
    requires k < |c| && t < |c|
  {
    Cross(c[0], c[k], c[t])
  }

  lemma CrossSwap(o: Point2, a: Point2, b: Point2)
    ensures Cross(b, a, o) == -Cross(o, a, b)
  {}

  function Neg(p: Point2): Point2 { Point2(-p.x, -p.y) }

  lemma NegFacts(o: Point2, a: Point2, b: Point2)
    ensures Cross(Neg(o), Neg(a), Neg(b)) == Cross(o, a, b)
    ensures Less(Neg(a), Neg(b)) <==> Less(b, a)
  {}

  lemma MulPos(a: real, b: real)
    requires a > 0.0 && b > 0.0
    ensures a * b > 0.0
  {}

  lemma MulNonneg(a: real, b: real)
    requires a >= 0.0 && b >= 0.0
    ensures a * b >= 0.0
  {}

  lemma PosFactor(a: real, b: real)
    requires a * b > 0.0 && b >= 0.0
    ensures a > 0.0
  {}

  /**
   * The step that keeps a lower chain fan-shaped: if o, b, a turn left and
   * b, a, p turn left, with o < b < a < p, then o, a, p turn left.
   */
  lemma FanStepIncreasing(o: Point2, b: Point2, a: Point2, p: Point2)
    requires Less(o, b) && Less(b, a) && Less(a, p)
    requires Cross(o, b, a) > 0.0 && Cross(b, a, p) > 0.0
    ensures Cross(o, a, p) > 0.0
  {
    var b1, b2 := b.x - o.x, b.y - o.y;
    var a1, a2 := a.x - o.x, a.y - o.y;
    var p1, p2 := p.x - o.x, p.y - o.y;
    var alpha, beta, delta := Cross(o, b, a), Cross(o, a, p), Cross(b, a, p);
    assert alpha == b1 * a2 - b2 * a1;
    assert beta == a1 * p2 - a2 * p1;
    assert delta == (a1 - b1) * (p2 - b2) - (a2 - b2) * (p1 - b1);
    assert beta * (a1 - b1) == alpha * (p1 - a1) + delta * a1;
    assert a1 > 0.0;
    MulNonneg(alpha, p1 - a1);
    MulPos(delta, a1);
    PosFactor(beta, a1 - b1);
  }

  /** Counter-clockwise order seen from o is transitive among points after o. */
  lemma FanTransIncreasing(o: Point2, u: Point2, v: Point2, w: Point2)
    requires Less(o, u) && Less(o, v) && Less(o, w)
    requires Cross(o, u, v) > 0.0 && Cross(o, v, w) > 0.0
    ensures Cross(o, u, w) > 0.0
  {
    var u1, u2 := u.x - o.x, u.y - o.y;
    var v1, v2 := v.x - o.x, v.y - o.y;
    var w1, w2 := w.x - o.x, w.y - o.y;
    var a, b, c := Cross(o, u, v), Cross(o, v, w), Cross(o, u, w);
    assert a == u1 * v2 - u2 * v1;
    assert b == v1 * w2 - v2 * w1;
    assert c == u1 * w2 - u2 * w1;
    assert c * v1 == a * w1 + b * u1;
    assert v1 > 0.0;
    assert u1 > 0.0 || w1 > 0.0;
    MulNonneg(a, w1);
    MulNonneg(b, u1);
    assert a * w1 + b * u1 > 0.0;
    PosFactor(c, v1);
  }

  lemma FanStep(o: Point2, b: Point2, a: Point2, p: Point2, up: bool)
    requires Before(o, b, up) && Before(b, a, up) && Before(a, p, up)
    requires Cross(o, b, a) > 0.0 && Cross(b, a, p) > 0.0
    ensures Cross(o, a, p) > 0.0
  {
    if up {
      FanStepIncreasing(o, b, a, p);
    } else {
      NegFacts(o, b, a); NegFacts(b, a, p); NegFacts(o, a, p); NegFacts(o, o, b); NegFacts(o, a, p);
      FanStepIncreasing(Neg(o), Neg(b), Neg(a), Neg(p));
    }
  }

  lemma FanTrans(o: Point2, u: Point2, v: Point2, w: Point2, up: bool)
    requires Before(o, u, up) && Before(o, v, up) && Before(o, w, up)
    requires Cross(o, u, v) > 0.0 && Cross(o, v, w) > 0.0
    ensures Cross(o, u, w) > 0.0
  {
    if up {
      FanTransIncreasing(o, u, v, w);
    } else {
      NegFacts(o, u, v); NegFacts(o, v, w); NegFacts(o, u, w); NegFacts(u, o, o); NegFacts(w, o, o);
      FanTransIncreasing(Neg(o), Neg(u), Neg(v), Neg(w));
    }
  }

  /** Appending a point that turns left at the end keeps the chain fan-shaped. */
  lemma ExtendFan(c: seq<Point2>, p: Point2, up: bool)
    requires |c| > 0
    requires Monotone(c + [p], up)
    requires Fan(c)
    requires |c| >= 2 ==> Cross(c[|c| - 2], c[|c| - 1], p) > 0.0
    ensures Fan(c + [p])
  {
    var n, d := |c|, c + [p];
    assert forall k :: 0 <= k < n ==> d[k] == c[k];
    assert d[n] == p;
    if n >= 3 {
      assert Before(c[0], c[n - 2], up) && Before(c[n - 2], c[n - 1], up) && Before(c[n - 1], p, up) by {
        assert d[0] == c[0] && d[n - 2] == c[n - 2] && d[n - 1] == c[n - 1];
      }
      assert FanAt(c, n - 2, n - 1) > 0.0;
      FanStep(c[0], c[n - 2], c[n - 1], p, up);
      forall k | 0 < k < n - 1 ensures Cross(c[0], c[k], p) > 0.0 {
        assert d[k] == c[k];
        assert FanAt(c, k, n - 1) > 0.0;
        FanTrans(c[0], c[k], c[n - 1], p, up);
      }
    }
    forall k, t | 0 < k < t < |d| ensures FanAt(d, k, t) > 0.0 {
      if t < n {
        assert FanAt(d, k, t) == FanAt(c, k, t);
      }
    }
  }

  /** The invariant both chains keep. */
  predicate IsChain(c: seq<Point2>, up: bool) {
    Monotone(c, up) && LeftTurns(c) && Fan(c)
  }

  lemma PrefixChain(c: seq<Point2>, n: nat, up: bool)
    requires IsChain(c, up) && n <= |c|
    ensures IsChain(c[..n], up)
  {
    var d := c[..n];
    assert forall k :: 0 <= k < n ==> d[k] == c[k];
    forall k | 0 <= k < |d| - 2 ensures TurnAt(d, k) > 0.0 {
      assert TurnAt(d, k) == TurnAt(c, k);
    }
    forall k, t | 0 < k < t < |d| ensures FanAt(d, k, t) > 0.0 {
      assert FanAt(d, k, t) == FanAt(c, k, t);
    }
  }

  lemma PushChain(c: seq<Point2>, p: Point2, up: bool)
    requires IsChain(c, up)
    requires forall k :: 0 <= k < |c| ==> Before(c[k], p, up)
    requires |c| >= 2 ==> Cross(c[|c| - 2], c[|c| - 1], p) > 0.0
    ensures IsChain(c + [p], up)
  {
    var d := c + [p];
    assert forall k :: 0 <= k < |c| ==> d[k] == c[k];
    assert Monotone(d, up);
    forall k | 0 <= k < |d| - 2 ensures TurnAt(d, k) > 0.0 {
      if k < |c| - 2 {
        assert TurnAt(d, k) == TurnAt(c, k);
      }
    }
    if c != [] {
      ExtendFan(c, p, up);
    }
  }

  /**
   * One chain of the hull, built as the source builds `lower` (over the
   * increasing points) and `upper` (over them reversed).
   */
  method Chain(pts: seq<Point2>, ghost up: bool) returns (chain: seq<Point2>)
    requires Monotone(pts, up)
    ensures IsChain(chain, up)
    ensures forall q :: q in chain ==> q in pts
    ensures |pts| > 0 ==> |chain| > 0 && chain[0] == pts[0] && chain[|chain| - 1] == pts[|pts| - 1]
    ensures |chain| <= |pts|
  {
    chain := [];
    ghost var idx: seq<nat> := [];
    for i := 0 to |pts|
      invariant |idx| == |chain| <= i
      invariant forall k :: 0 <= k < |chain| ==> idx[k] < i && chain[k] == pts[idx[k]]
      invariant IsChain(chain, up)
      invariant i == 0 <==> chain == []
      invariant i > 0 ==> chain[0] == pts[0] && chain[|chain| - 1] == pts[i - 1]
    {
      var p := pts[i];
      ghost var before := chain;
      chain := PopTurns(chain, p, up);
      idx := idx[..|chain|];
      assert forall k :: 0 <= k < |chain| ==> chain[k] == before[k];
      PushChain(chain, p, up);
      chain := chain + [p];
      idx := idx + [i];
    }
  }

  /** The inner `while` loop: pop the last point while it does not turn left towards p. */
  method PopTurns(c0: seq<Point2>, p: Point2, ghost up: bool) returns (chain: seq<Point2>)
    requires IsChain(c0, up)
    ensures IsChain(chain, up)
    ensures |chain| <= |c0| && chain == c0[..|chain|]
    ensures |c0| > 0 ==> |chain| > 0
    ensures |chain| >= 2 ==> Cross(chain[|chain| - 2], chain[|chain| - 1], p) > 0.0
  {
    chain := c0;
    while |chain| >= 2 && Cross(chain[|chain| - 2], chain[|chain| - 1], p) <= 0.0
      invariant |chain| <= |c0| && chain == c0[..|chain|]
      invariant IsChain(chain, up)
      invariant |c0| > 0 ==> |chain| > 0
    {
      PrefixChain(c0, |chain| - 1, up);
      chain := chain[..|chain| - 1];
    }
  }

  /** Python's `s[:-1]`, which is empty for an empty list. */
  function DropLast<T>(s: seq<T>): (r: seq<T>)
    ensures |s| > 0 ==> r == s[..|s| - 1]
    ensures |s| == 0 ==> r == []
  {
    if s == [] then [] else s[..|s| - 1]
  }

  /**
   * Apart from the ends they share, the lower chain runs strictly on one side
   * of the line from the first to the last point and the upper chain strictly
   * on the other, so the two trimmed chains have no point in common.
   */
  lemma ChainsDisjoint(pts: seq<Point2>, lower: seq<Point2>, upper: seq<Point2>)
    requires Increasing(pts) && |pts| >= 2
    requires IsChain(lower, true) && IsChain(upper, false)
    requires |lower| > 0 && lower[0] == pts[0] && lower[|lower| - 1] == pts[|pts| - 1]
    requires |upper| > 0 && upper[0] == pts[|pts| - 1] && upper[|upper| - 1] == pts[0]
    ensures forall i, j :: 0 <= i < |lower| - 1 && 0 <= j < |upper| - 1 ==> lower[i] != upper[j]
  {
    var n, m, m' := |pts|, |lower| - 1, |upper| - 1;
    assert Less(pts[0], pts[n - 1]);
    forall i, j | 0 <= i < m && 0 <= j < m' ensures lower[i] != upper[j] {
      if i == 0 {
        assert Less(upper[m'], upper[j]);
      } else if j == 0 {
        assert Less(lower[i], lower[m]);
      } else {
        assert FanAt(lower, i, m) > 0.0;
        assert FanAt(upper, j, m') > 0.0;
        CrossSwap(lower[0], lower[i], lower[m]);
      }
    }
  }

  lemma TrimmedChain(c: seq<Point2>, up: bool)
    requires IsChain(c, up)
    ensures IsChain(DropLast(c), up)
    ensures up ==> Increasing(DropLast(c))
    ensures !up ==> Decreasing(DropLast(c))
  {
    if c != [] {
      PrefixChain(c, |c| - 1, up);
    }
  }

  /** What `lower[:-1] + upper[:-1]` inherits from the two chains. */
  lemma JoinedChains(pts: seq<Point2>, lower: seq<Point2>, upper: seq<Point2>)
    requires Increasing(pts)
    requires IsChain(lower, true) && IsChain(upper, false)
    requires forall q :: q in lower ==> q in pts
    requires forall q :: q in upper ==> q in pts
    requires |lower| <= |pts| && |upper| <= |pts|
    requires |pts| > 0 ==> |lower| > 0 && lower[0] == pts[0] && lower[|lower| - 1] == pts[|pts| - 1]
    requires |pts| > 0 ==> |upper| > 0 && upper[0] == pts[|pts| - 1] && upper[|upper| - 1] == pts[0]
    ensures var lo, hi := DropLast(lower), DropLast(upper);
      && (forall q :: q in lo + hi ==> q in pts)
      && Distinct(lo + hi)
      && (|pts| >= 2 ==> |lo + hi| >= 2 && (lo + hi)[0] == pts[0])
      && (|pts| < 2 ==> lo + hi == [])
      && Increasing(lo) && LeftTurns(lo) && Decreasing(hi) && LeftTurns(hi)
  {
    var lo, hi := DropLast(lower), DropLast(upper);
    assert forall q :: q in lo ==> q in lower;
    assert forall q :: q in hi ==> q in upper;
    TrimmedChain(lower, true);
    TrimmedChain(upper, false);
    if |pts| >= 2 {
      assert Less(pts[0], pts[|pts| - 1]);
      ChainsDisjoint(pts, lower, upper);
      assert forall i, j :: 0 <= i < |lo| && 0 <= j < |hi| ==> lo[i] != hi[j];
    }
  }

  /**
   * `lower[:-1] + upper[:-1]` over increasing points. The hull uses only
   * input points, never repeats one, starts at the smallest, and splits into
   * an increasing and a decreasing run, each turning strictly left.
   */
  method MonotoneHull(pts: seq<Point2>) returns (hull: seq<Point2>, ghost split: nat)
    requires Increasing(pts)
    ensures forall q :: q in hull ==> q in pts
    ensures Distinct(hull)
    ensures |pts| >= 2 ==> |hull| >= 2 && hull[0] == pts[0]
    ensures |pts| < 2 ==> hull == []
    ensures split <= |hull|
    ensures Increasing(hull[..split]) && LeftTurns(hull[..split])
    ensures Decreasing(hull[split..]) && LeftTurns(hull[split..])
  {
    var lower := Chain(pts, true);
    var rev := Reverse(pts);
    assert forall q :: q in rev ==> q in pts;
    var upper := Chain(rev, false);
    JoinedChains(pts, lower, upper);
    var lo, hi := DropLast(lower), DropLast(upper);
    hull := lo + hi;
    split := |lo|;
    assert hull[..split] == lo && hull[split..] == hi;
  }
}
