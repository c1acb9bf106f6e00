/**
 * Colinear-vertex removal as both revisions run it: the distinct points, in
 * order of first appearance, are doubled; three sweeps then slide a
 * three-point window along the list and remove (the first occurrence of) the
 * middle point of every window whose triangle has zero area; finally the
 * list is deduplicated again in order of first appearance.
 */
module Colinear {
  import opened Points

  /** The position of the first occurrence of x, like Python's `list.index`. */
  function FirstIndex<T(==)>(s: seq<T>, x: T): (i: nat)
    requires x in s
    ensures i < |s| && s[i] == x && x !in s[..i]
  {
    if s[0] == x then 0
    else
      var j := FirstIndex(s[1..], x);
      assert s[..j + 1] == [s[0]] + s[1..][..j];
      1 + j
  }

  lemma FirstIndexUnique<T>(s: seq<T>, x: T, i: nat)
    requires i < |s| && s[i] == x && x !in s[..i]
    ensures FirstIndex(s, x) == i
  {
    var j := FirstIndex(s, x);
    forall k | 0 <= k < i ensures s[k] != x {
      assert s[..i][k] == s[k];
    }
    forall k | 0 <= k < j ensures s[k] != x {
      assert s[..j][k] == s[k];
    }
  }

  lemma FirstIndexPrefix<T>(s: seq<T>, n: nat, x: T)
    requires n <= |s| && x in s[..n]
    ensures FirstIndex(s, x) == FirstIndex(s[..n], x)
  {
    var i := FirstIndex(s[..n], x);
    assert s[..n][..i] == s[..i];
    FirstIndexUnique(s, x, i);
  }

  /**
   * `sorted(set(s), key=s.index)`: each distinct element once, in the order
   * of first appearance (see DedupeOrder).
   */
  function Dedupe<T(==,!new)>(s: seq<T>): (r: seq<T>)
    ensures |r| <= |s|
  {
    if s == [] then []
    else
      var init, last := s[..|s| - 1], s[|s| - 1];
      var d := Dedupe(init);
      if last in init then d else d + [last]
  }

  /** The deduplicated list holds exactly the elements of the list. */
  lemma {:induction false} DedupeMembers<T(!new)>(s: seq<T>)
    ensures forall x :: x in Dedupe(s) <==> x in s
  {
    if s != [] {
      var init := s[..|s| - 1];
      DedupeMembers(init);
      assert s == init + [s[|s| - 1]];
    }
  }

  /** No element occurs twice in the deduplicated list. */
  lemma {:induction false} DedupeIsDistinct<T(!new)>(s: seq<T>)
    ensures Distinct(Dedupe(s))
  {
    if s != [] {
      var init, last := s[..|s| - 1], s[|s| - 1];
      DedupeIsDistinct(init);
      DedupeMembers(init);
      var d := Dedupe(init);
      if last !in init {
        var r := d + [last];
        assert last !in d;
        forall i, j | 0 <= i < j < |r| ensures r[i] != r[j] {
          if j == |d| {
            assert r[i] == d[i];
          } else {
            assert r[i] == d[i] && r[j] == d[j];
          }
        }
      }
    }
  }

  /** The deduplicated list is ordered by where each element first appears. */
  lemma {:induction false} DedupeOrder<T(!new)>(s: seq<T>)
    ensures forall i, j :: 0 <= i < j < |Dedupe(s)| ==>
      Dedupe(s)[i] in s && Dedupe(s)[j] in s && FirstIndex(s, Dedupe(s)[i]) < FirstIndex(s, Dedupe(s)[j])
  {
    if s != [] {
      var init, last := s[..|s| - 1], s[|s| - 1];
      DedupeOrder(init);
      DedupeMembers(init);
      DedupeMembers(s);
      var d, r := Dedupe(init), Dedupe(s);
      forall x | x in init ensures FirstIndex(s, x) == FirstIndex(init, x) {
        FirstIndexPrefix(s, |s| - 1, x);
      }
      if last !in init {
        FirstIndexUnique(s, last, |s| - 1);
        assert r == d + [last];
        forall i, j | 0 <= i < j < |r| ensures r[i] in s && r[j] in s && FirstIndex(s, r[i]) < FirstIndex(s, r[j]) {
          assert r[i] == d[i] && r[i] in init;
          if j < |d| {
            assert r[j] == d[j] && r[j] in init;
          }
        }
      } else {
        assert r == d;
        forall i, j | 0 <= i < j < |r| ensures r[i] in s && r[j] in s && FirstIndex(s, r[i]) < FirstIndex(s, r[j]) {
          assert r[i] in init && r[j] in init;
        }
      }
    } else {
      assert Dedupe(s) == [];
    }
  }

  /** Appending elements that are already present does not change the deduplicated list. */
  lemma {:induction false} DedupeAbsorbs<T(!new)>(s: seq<T>, t: seq<T>)
    requires forall x :: x in t ==> x in s
    ensures Dedupe(s + t) == Dedupe(s)
  {
    if t == [] {
      assert s + t == s;
    } else {
      var u, t' := s + t, t[..|t| - 1];
      var init := u[..|u| - 1];
      assert init == s + t';
      DedupeAbsorbs(s, t');
      assert u[|u| - 1] == t[|t| - 1];
      assert t[|t| - 1] in s;
      assert u[|u| - 1] in init;
      assert Dedupe(u) == Dedupe(init);
    }
  }

  lemma {:induction false} DedupeDistinct<T(!new)>(s: seq<T>)
    requires Distinct(s)
    ensures Dedupe(s) == s
  {
    if s != [] {
      var init := s[..|s| - 1];
      DedupeDistinct(init);
      assert s[|s| - 1] !in init;
      assert s == init + [s[|s| - 1]];
    }
  }

  /** Python's `list.remove(v)`: drops the first occurrence of v. */
  function RemoveFirst<T(==)>(s: seq<T>, v: T): (r: seq<T>)
    requires v in s
    ensures |r| == |s| - 1
  {
    assert s == [s[0]] + s[1..];
    if s[0] == v then s[1..] else [s[0]] + RemoveFirst(s[1..], v)
  }

  /** Exactly one copy of v goes, and nothing else. */
  lemma {:induction false} RemoveFirstCount<T>(s: seq<T>, v: T)
    requires v in s
    ensures multiset(RemoveFirst(s, v)) == multiset(s) - multiset{v}
  {
    assert s == [s[0]] + s[1..];
    if s[0] != v {
      RemoveFirstCount(s[1..], v);
      assert RemoveFirst(s, v) == [s[0]] + RemoveFirst(s[1..], v);
    }
  }

  /** Python's slice `s[x:x+3]`, which is shorter near the end of the list. */
  function Window<T>(s: seq<T>, x: nat): (w: seq<T>)
    ensures |w| == 3 <==> x + 3 <= |s|
    ensures |w| == 3 ==> w == s[x..x + 3]
  {
    if x + 3 <= |s| then s[x..x + 3] else if x < |s| then s[x..] else []
  }

  /** The test both revisions apply to a window: its polygon has no area. */
  predicate ZeroArea(w: seq<Point2>) { Area(w) == 0.0 }

  /** One examined window: its middle point goes when the window has no area. */
  function CheckWindow(work: seq<Point2>, co: seq<Point2>): (r: seq<Point2>)
    requires |co| == 3 && co[1] in work
    ensures ZeroArea(co) ==> |r| == |work| - 1
    ensures !ZeroArea(co) ==> r == work
  {
    if ZeroArea(co) then RemoveFirst(work, co[1]) else work
  }

  /**
   * The inner `while` loop from the state in which `coPoints` was read at
   * position pos and the loop variable is x; the window is re-read at the
   * old x after each test, and x then moves on.
   */
  function Sweep(work: seq<Point2>, pos: nat, x: nat): seq<Point2>
    requires pos <= x <= pos + 1
    decreases |work| + 3 - x
  {
    var co := Window(work, pos);
    if |co| != 3 then work
    else Sweep(CheckWindow(work, co), x, x + 1)
  }

  /** The outer `for x in range(0, 3)` loop, from pass x0 on. */
  function Passes(work: seq<Point2>, x0: nat): seq<Point2>
    requires x0 <= 3
    decreases 3 - x0
  {
    if x0 == 3 then work else Passes(Sweep(work, x0, x0), x0 + 1)
  }

  /** The whole removal: first-appearance dedupe, doubling, three sweeps, dedupe. */
  function Reduce(points: seq<Point2>): seq<Point2> {
    var d := Dedupe(points);
    Dedupe(Passes(d + d, 0))
  }

  /** The three sweeps over the doubled list, as the source runs them. */
  method Sweeps(d: seq<Point2>) returns (work: seq<Point2>)
    ensures work == Passes(d + d, 0)
  {
    work := d + d;
    for x0 := 0 to 3
      invariant Passes(work, x0) == Passes(d + d, 0)
    {
      var x := x0;
      var co := Window(work, x);
      ghost var pos := x;
      assert Passes(work, x0) == Passes(Sweep(work, pos, x), x0 + 1);
      while |co| == 3
        invariant pos <= x <= pos + 1 && co == Window(work, pos)
        invariant Passes(Sweep(work, pos, x), x0 + 1) == Passes(d + d, 0)
        decreases |work| + 3 - x
      {
        assert Sweep(work, pos, x) == Sweep(CheckWindow(work, co), x, x + 1);
        if ZeroArea(co) {
          work := RemoveFirst(work, co[1]);
        }
        co := Window(work, x);
        pos := x;
        x := x + 1;
      }
      assert Sweep(work, pos, x) == work;
    }
  }

  /** A removal only ever happens in a full window, so at least two points stay. */
  lemma {:induction false} SweepShrinks(work: seq<Point2>, pos: nat, x: nat)
    requires pos <= x <= pos + 1
    ensures multiset(Sweep(work, pos, x)) <= multiset(work)
    ensures |work| >= 2 ==> |Sweep(work, pos, x)| >= 2
    decreases |work| + 3 - x
  {
    var co := Window(work, pos);
    if |co| == 3 {
      var next := SweepStep(work, pos, x);
      SweepShrinks(next, x, x + 1);
      SubMultisetTrans(multiset(Sweep(next, x, x + 1)), multiset(next), multiset(work));
    } else {
      assert Sweep(work, pos, x) == work;
    }
  }

  /** One examined window: the sweep goes on from the checked list, which is no larger and lost at most one point. */
  lemma SweepStep(work: seq<Point2>, pos: nat, x: nat) returns (next: seq<Point2>)
    requires pos <= x <= pos + 1 && |Window(work, pos)| == 3
    ensures Sweep(work, pos, x) == Sweep(next, x, x + 1)
    ensures multiset(next) <= multiset(work) && |work| >= 3 && |work| - 1 <= |next| <= |work|
  {
    var co := Window(work, pos);
    assert co[1] == work[pos + 1];
    next := CheckWindow(work, co);
    CheckWindowShrinks(work, co);
  }

  lemma SubMultisetTrans<T>(a: multiset<T>, b: multiset<T>, c: multiset<T>)
    requires a <= b && b <= c
    ensures a <= c
  {
  }

  /** One examined window drops one copy of its middle point when it has no area, and nothing otherwise. */
  lemma CheckWindowShrinks(work: seq<Point2>, co: seq<Point2>)
    requires |co| == 3 && co[1] in work
    ensures ZeroArea(co) ==> multiset(CheckWindow(work, co)) == multiset(work) - multiset{co[1]}
    ensures multiset(CheckWindow(work, co)) <= multiset(work)
    ensures |CheckWindow(work, co)| >= |work| - 1
  {
    if ZeroArea(co) {
      RemoveFirstCount(work, co[1]);
    }
  }

  lemma {:induction false} PassesShrink(work: seq<Point2>, x0: nat)
    requires x0 <= 3
    ensures multiset(Passes(work, x0)) <= multiset(work)
    ensures |work| >= 2 ==> |Passes(work, x0)| >= 2
    decreases 3 - x0
  {
    if x0 < 3 {
      SweepShrinks(work, x0, x0);
      PassesShrink(Sweep(work, x0, x0), x0 + 1);
    }
  }

  /**
   * The removal keeps only input points, none twice, and keeps at least one
   * point of a non-empty input.
   */
  lemma ReduceKeeps(points: seq<Point2>)
    ensures Distinct(Reduce(points))
    ensures forall q :: q in Reduce(points) ==> q in points
    ensures points != [] ==> |Reduce(points)| >= 1
  {
    var d := Dedupe(points);
    PassesShrink(d + d, 0);
    var w := Passes(d + d, 0);
    DedupeIsDistinct(w);
    DedupeMembers(points);
    DedupeMembers(w);
    forall q | q in w ensures q in points {
      assert q in multiset(w);
      assert q in multiset(d + d);
      assert q in d + d;
    }
    if points != [] {
      assert points[0] in d;
      assert |w| >= 2;
      assert w[0] in Dedupe(w);
    }
  }

  /** Every three cyclically consecutive points span a triangle of positive area. */
  predicate NoColinearTriple(d: seq<Point2>) {
    forall i :: 0 <= i < |d| ==> !ZeroArea(CyclicTriple(d, i))
  }

  function CyclicTriple(d: seq<Point2>, i: nat): seq<Point2>
    requires i < |d|
  {
    [d[i], d[(i + 1) % |d|], d[(i + 2) % |d|]]
  }

  lemma {:induction false} SweepKeepsAll(work: seq<Point2>, pos: nat, x: nat)
    requires pos <= x <= pos + 1
    requires forall p: nat :: p + 3 <= |work| ==> !ZeroArea(Window(work, p))
    ensures Sweep(work, pos, x) == work
    decreases |work| + 3 - x
  {
    var co := Window(work, pos);
    if |co| == 3 {
      SweepKeepsAll(work, x, x + 1);
    }
  }

  lemma {:induction false} PassesKeepAll(work: seq<Point2>, x0: nat)
    requires x0 <= 3
    requires forall p: nat :: p + 3 <= |work| ==> !ZeroArea(Window(work, p))
    ensures Passes(work, x0) == work
    decreases 3 - x0
  {
    if x0 < 3 {
      SweepKeepsAll(work, x0, x0);
      PassesKeepAll(work, x0 + 1);
    }
  }

  lemma ModBelowTwice(a: int, n: int)
    requires 0 <= a < 2 * n
    ensures a % n == if a < n then a else a - n
  {
    if a < n {
      assert a == n * 0 + a;
    } else {
      assert a == n * 1 + (a - n);
    }
  }

  /** A full window of the doubled ring is one of its cyclic corners. */
  lemma DoubledWindow(d: seq<Point2>, p: nat)
    requires p + 3 <= 2 * |d|
    ensures Window(d + d, p) == CyclicTriple(d, p % |d|)
  {
    var n, w := |d|, d + d;
    ModBelowTwice(p, n);
    ModBelowTwice(p + 1, n);
    ModBelowTwice(p + 2, n);
    var i := p % n;
    ModBelowTwice(i + 1, n);
    ModBelowTwice(i + 2, n);
    assert w[p] == d[p % n];
    assert w[p + 1] == d[(p + 1) % n];
    assert w[p + 2] == d[(p + 2) % n];
  }

  /**
   * A ring of distinct points with no zero-area corner comes back unchanged:
   * every window of the doubled list is one of its corners.
   */
  lemma ReduceKeepsProperPolygon(d: seq<Point2>)
    requires Distinct(d) && NoColinearTriple(d)
    ensures Reduce(d) == d
  {
    DedupeDistinct(d);
    var w := d + d;
    forall p: nat | p + 3 <= |w| ensures !ZeroArea(Window(w, p)) {
      DoubledWindow(d, p);
    }
    PassesKeepAll(w, 0);
    DedupeAbsorbs(d, d);
  }

  // ---------------------------------------------------------------- order of the result

  /**
   * a is b with some elements left out: idx lists, in increasing order, the
   * positions of b that a keeps.
   */
  predicate SubseqBy<T(==)>(a: seq<T>, b: seq<T>, idx: seq<nat>) {
    && |idx| == |a|
    && (forall i :: 0 <= i < |idx| ==> idx[i] < |b| && a[i] == b[idx[i]])
    && (forall i, j :: 0 <= i < j < |idx| ==> idx[i] < idx[j])
  }

  function Identity(n: nat): (idx: seq<nat>)
    ensures |idx| == n && forall i :: 0 <= i < n ==> idx[i] == i
  {
    seq(n, i requires 0 <= i < n => i)
  }

  /** Picking positions of a picked list picks positions of the original. */
  lemma SubseqCompose<T>(a: seq<T>, b: seq<T>, c: seq<T>, ab: seq<nat>, bc: seq<nat>) returns (ac: seq<nat>)
    requires SubseqBy(a, b, ab) && SubseqBy(b, c, bc)
    ensures SubseqBy(a, c, ac)
  {
    ac := seq(|ab|, i requires 0 <= i < |ab| => bc[ab[i]]);
  }

  /** list.remove keeps every other position, in order. */
  lemma RemoveFirstSubseq<T>(s: seq<T>, v: T) returns (idx: seq<nat>)
    requires v in s
    ensures SubseqBy(RemoveFirst(s, v), s, idx)
    decreases |s|
  {
    assert s == [s[0]] + s[1..];
    if s[0] == v {
      idx := seq(|s| - 1, i requires 0 <= i < |s| - 1 => i + 1);
    } else {
      var tail := RemoveFirstSubseq(s[1..], v);
      idx := ConsSubseq(s[0], RemoveFirst(s[1..], v), s[1..], tail);
    }
  }

  /** Keeping a common head on both lists keeps position 0 and shifts the rest. */
  lemma ConsSubseq<T>(h: T, a: seq<T>, b: seq<T>, ab: seq<nat>) returns (idx: seq<nat>)
    requires SubseqBy(a, b, ab)
    ensures SubseqBy([h] + a, [h] + b, idx)
  {
    idx := [0] + seq(|ab|, i requires 0 <= i < |ab| => ab[i] + 1);
    var a', b' := [h] + a, [h] + b;
    forall i | 0 <= i < |idx| ensures idx[i] < |b'| && a'[i] == b'[idx[i]] {
      if i > 0 {
        assert a'[i] == a[i - 1] && idx[i] == ab[i - 1] + 1;
      }
    }
  }

  lemma CheckWindowSubseq(work: seq<Point2>, co: seq<Point2>) returns (idx: seq<nat>)
    requires |co| == 3 && co[1] in work
    ensures SubseqBy(CheckWindow(work, co), work, idx)
  {
    if ZeroArea(co) {
      idx := RemoveFirstSubseq(work, co[1]);
    } else {
      idx := Identity(|work|);
    }
  }

  /** A sweep only leaves points out; the ones it keeps stay in their order. */
  lemma {:induction false} SweepSubseq(work: seq<Point2>, pos: nat, x: nat) returns (idx: seq<nat>)
    requires pos <= x <= pos + 1
    ensures SubseqBy(Sweep(work, pos, x), work, idx)
    decreases |work| + 3 - x
  {
    var co := Window(work, pos);
    if |co| != 3 {
      idx := Identity(|work|);
    } else {
      assert co[1] == work[pos + 1];
      var next := CheckWindow(work, co);
      var first := CheckWindowSubseq(work, co);
      var rest := SweepSubseq(next, x, x + 1);
      idx := SubseqCompose(Sweep(next, x, x + 1), next, work, rest, first);
    }
  }

  lemma {:induction false} PassesSubseq(work: seq<Point2>, x0: nat) returns (idx: seq<nat>)
    requires x0 <= 3
    ensures SubseqBy(Passes(work, x0), work, idx)
    decreases 3 - x0
  {
    if x0 == 3 {
      idx := Identity(|work|);
    } else {
      var first := SweepSubseq(work, x0, x0);
      var rest := PassesSubseq(Sweep(work, x0, x0), x0 + 1);
      idx := SubseqCompose(Passes(work, x0), Sweep(work, x0, x0), work, rest, first);
    }
  }

  /**
   * The order the removal keeps: the result is the first-appearance dedupe
   * of a subsequence of the doubled distinct points.  It need not follow the
   * input's first-appearance order (see ReduceRotatesLine).
   */
  lemma ReduceOrder(points: seq<Point2>) returns (kept: seq<Point2>, idx: seq<nat>)
    ensures SubseqBy(kept, Dedupe(points) + Dedupe(points), idx)
    ensures Reduce(points) == Dedupe(kept)
  {
    var d := Dedupe(points);
    kept := Passes(d + d, 0);
    idx := PassesSubseq(d + d, 0);
  }

  // ---------------------------------------------------------------- two examples

  /** The three-point window of a list read at the given position. */
  lemma WindowAt(s: seq<Point2>, p: nat)
    requires p + 3 <= |s|
    ensures Window(s, p) == [s[p], s[p + 1], s[p + 2]]
  {
  }

  /** A sweep step at a zero-area window: its middle point goes, then the sweep moves on. */
  lemma SweepDrops(work: seq<Point2>, pos: nat, x: nat, p: Point2, q: Point2, r: Point2, next: seq<Point2>)
    requires pos <= x <= pos + 1 && pos + 3 <= |work|
    requires work[pos] == p && work[pos + 1] == q && work[pos + 2] == r && ZeroArea([p, q, r])
    requires next == RemoveFirst(work, q)
    ensures Window(work, pos) == [p, q, r]
    ensures Sweep(work, pos, x) == Sweep(next, x, x + 1)
  {
    WindowAt(work, pos);
  }

  /** A sweep step at a window with area: nothing goes, the sweep moves on. */
  lemma SweepPasses(work: seq<Point2>, pos: nat, x: nat, p: Point2, q: Point2, r: Point2)
    requires pos <= x <= pos + 1 && pos + 3 <= |work|
    requires work[pos] == p && work[pos + 1] == q && work[pos + 2] == r && !ZeroArea([p, q, r])
    ensures Window(work, pos) == [p, q, r]
    ensures Sweep(work, pos, x) == Sweep(work, x, x + 1)
  {
    WindowAt(work, pos);
  }

  /** A window read past the last full one ends the sweep. */
  lemma SweepEnds(work: seq<Point2>, pos: nat, x: nat)
    requires pos <= x <= pos + 1 && |work| < pos + 3
    ensures Sweep(work, pos, x) == work
  {
  }

  /** Removing a point that sits at position k and nowhere before it cuts the list there. */
  lemma {:induction false} RemoveAt<T>(s: seq<T>, k: nat, v: T, t: seq<T>)
    requires k < |s| && s[k] == v && v !in s[..k] && t == s[..k] + s[k + 1..]
    ensures v in s && RemoveFirst(s, v) == t
    decreases k
  {
    assert s == [s[0]] + s[1..];
    if k > 0 {
      assert s[0] in s[..k];
      assert s[1..][..k - 1] == s[..k][1..];
      assert t == [s[0]] + (s[1..][..k - 1] + s[1..][k..]);
      RemoveAt(s[1..], k - 1, v, s[1..][..k - 1] + s[1..][k..]);
    }
  }

  /** Four different points, pair by pair. */
  lemma DistinctFour<T>(p: T, q: T, r: T, t: T)
    requires Distinct([p, q, r, t])
    ensures p != q && p != r && p != t && q != r && q != t && r != t
  {
    var s := [p, q, r, t];
    assert s[0] != s[1] && s[0] != s[2] && s[0] != s[3];
    assert s[1] != s[2] && s[1] != s[3] && s[2] != s[3];
  }

  /** The point halfway between a and b. */
  function Mid(a: Point2, b: Point2): Point2 {
    Point2((a.x + b.x) / 2.0, (a.y + b.y) / 2.0)
  }

  /** The midpoint of a and b lies on the line through them; with c off it, c, a and the midpoint still turn. */
  lemma MidCross(a: Point2, b: Point2, c: Point2)
    ensures Cross(a, Mid(a, b), b) == 0.0
    ensures Cross(c, a, Mid(a, b)) == Cross(a, b, c) / 2.0
    ensures Cross(a, b, Mid(a, b)) == 0.0
  {
    var m := Mid(a, b);
    assert m.x - a.x == (b.x - a.x) / 2.0 && m.y - a.y == (b.y - a.y) / 2.0;
  }

  /** No two of a, its midpoint with b, b and c coincide when a, b, c turn. */
  lemma MidpointDistinct(a: Point2, b: Point2, c: Point2)
    requires Cross(a, b, c) != 0.0
    ensures Distinct([a, Mid(a, b), b, c])
  {
    MidCross(a, b, c);
  }

  /**
   * A triangle with an extra point halfway along its first edge: the first
   * sweep removes both copies of the extra point and nothing else goes.
   */
  lemma MidpointDropped(a: Point2, b: Point2, c: Point2)
    requires Cross(a, b, c) != 0.0
    ensures Reduce([a, Mid(a, b), b, c]) == [a, b, c]
  {
    var m := Mid(a, b);
    MidCross(a, b, c);
    MidpointDistinct(a, b, c);
    TriangleArea(a, m, b);
    TriangleArea(a, b, c);
    TriangleArea(b, c, a);
    TriangleArea(c, a, b);
    TriangleArea(c, a, m);
    var d := [a, m, b, c];
    DedupeDistinct(d);
    var s2 := [a, b, c, a, b, c];
    MidpointFirstPass(a, m, b, c);
    MidpointLaterPasses(a, b, c);
    assert Passes(d + d, 0) == s2;
    DedupeAbsorbs([a, b, c], [a, b, c]);
    DedupeDistinct([a, b, c]);
    assert [a, b, c] + [a, b, c] == s2;
  }

  lemma MidpointFirstPass(a: Point2, m: Point2, b: Point2, c: Point2)
    requires ZeroArea([a, m, b]) && !ZeroArea([a, b, c]) && !ZeroArea([b, c, a]) && !ZeroArea([c, a, m])
    requires Distinct([a, m, b, c])
    ensures Sweep([a, m, b, c] + [a, m, b, c], 0, 0) == [a, b, c, a, b, c]
  {
    MidpointFirstDrop(a, m, b, c);
    var s1 := [a, b, c, a, m, b, c];
    SweepPasses(s1, 0, 1, a, b, c);
    SweepPasses(s1, 1, 2, b, c, a);
    SweepPasses(s1, 2, 3, c, a, m);
    MidpointSecondDrop(a, m, b, c);
  }

  /** The first window drops the first copy of m. */
  lemma MidpointFirstDrop(a: Point2, m: Point2, b: Point2, c: Point2)
    requires ZeroArea([a, m, b]) && Distinct([a, m, b, c])
    ensures Sweep([a, m, b, c] + [a, m, b, c], 0, 0) == Sweep([a, b, c, a, m, b, c], 0, 1)
  {
    var s0 := [a, m, b, c] + [a, m, b, c];
    var s1 := [a, b, c, a, m, b, c];
    DistinctFour(a, m, b, c);
    assert s0[..1] == [a] && s0[2..] == [b, c, a, m, b, c];
    RemoveAt(s0, 1, m, s1);
    SweepDrops(s0, 0, 0, a, m, b, s1);
  }

  /** The window at the second a drops the second copy of m; the list is then too short. */
  lemma MidpointSecondDrop(a: Point2, m: Point2, b: Point2, c: Point2)
    requires ZeroArea([a, m, b]) && Distinct([a, m, b, c])
    ensures Sweep([a, b, c, a, m, b, c], 3, 4) == [a, b, c, a, b, c]
  {
    var s1 := [a, b, c, a, m, b, c];
    var s2 := [a, b, c, a, b, c];
    DistinctFour(a, m, b, c);
    assert s1[..4] == [a, b, c, a] && s1[5..] == [b, c];
    RemoveAt(s1, 4, m, s2);
    SweepDrops(s1, 3, 4, a, m, b, s2);
    SweepEnds(s2, 4, 5);
  }

  lemma MidpointLaterPasses(a: Point2, b: Point2, c: Point2)
    requires !ZeroArea([a, b, c]) && !ZeroArea([b, c, a]) && !ZeroArea([c, a, b])
    ensures Passes([a, b, c, a, b, c], 1) == [a, b, c, a, b, c]
  {
    var s := [a, b, c, a, b, c];
    SweepPasses(s, 1, 1, b, c, a);
    SweepPasses(s, 1, 2, b, c, a);
    SweepPasses(s, 2, 3, c, a, b);
    SweepPasses(s, 3, 4, a, b, c);
    SweepEnds(s, 4, 5);
    assert Sweep(s, 1, 1) == s;
    SweepPasses(s, 2, 2, c, a, b);
    assert Sweep(s, 2, 2) == s;
  }

  /**
   * Four different points on one horizontal line come back as the last and
   * the first, in that order: the removal does not keep the input's
   * first-appearance order.
   */
  lemma ReduceRotatesLine(a: Point2, b: Point2, c: Point2, e: Point2)
    requires a.y == b.y == c.y == e.y
    requires Distinct([a, b, c, e])
    ensures Reduce([a, b, c, e]) == [e, a]
  {
    var d := [a, b, c, e];
    DedupeDistinct(d);
    LineSweep(a, b, c, e);
    LineLastPasses(a, b, e);
    assert Passes(d + d, 0) == [e, a, e];
    assert [e, a] + [e] == [e, a, e];
    DedupeAbsorbs([e, a], [e]);
    DedupeDistinct([e, a]);
  }

  /** On one horizontal line every window has no area. */
  lemma FlatWindow(p: Point2, q: Point2, r: Point2)
    requires p.y == q.y == r.y
    ensures ZeroArea([p, q, r])
  {
    TriangleArea(p, q, r);
  }

  lemma LineSweep(a: Point2, b: Point2, c: Point2, e: Point2)
    requires a.y == b.y == c.y == e.y
    requires Distinct([a, b, c, e])
    ensures Sweep([a, b, c, e] + [a, b, c, e], 0, 0) == [e, a, b, e]
  {
    LineSweepFront(a, b, c, e);
    LineSweepBack(a, b, c, e);
  }

  /** The first two windows drop b and then c. */
  lemma LineSweepFront(a: Point2, b: Point2, c: Point2, e: Point2)
    requires a.y == b.y == c.y == e.y
    requires Distinct([a, b, c, e])
    ensures Sweep([a, b, c, e] + [a, b, c, e], 0, 0) == Sweep([a, e, a, b, c, e], 1, 2)
  {
    var s0 := [a, b, c, e] + [a, b, c, e];
    var s1 := [a, c, e, a, b, c, e];
    var s2 := [a, e, a, b, c, e];
    FlatWindow(a, b, c);
    FlatWindow(a, c, e);
    assert s0[..1] == [a] && s0[2..] == [c, e, a, b, c, e];
    RemoveAt(s0, 1, b, s1);
    SweepDrops(s0, 0, 0, a, b, c, s1);
    assert s1[..1] == [a] && s1[2..] == [e, a, b, c, e];
    RemoveAt(s1, 1, c, s2);
    SweepDrops(s1, 0, 1, a, c, e, s2);
  }

  /** The next two windows drop the first a and the second c; the list is then too short. */
  lemma LineSweepBack(a: Point2, b: Point2, c: Point2, e: Point2)
    requires a.y == b.y == c.y == e.y
    requires Distinct([a, b, c, e])
    ensures Sweep([a, e, a, b, c, e], 1, 2) == [e, a, b, e]
  {
    var s2 := [a, e, a, b, c, e];
    var s3 := [e, a, b, c, e];
    var s4 := [e, a, b, e];
    FlatWindow(e, a, b);
    FlatWindow(b, c, e);
    DistinctFour(a, b, c, e);
    assert s2[..0] == [] && s2[1..] == s3;
    RemoveAt(s2, 0, a, s3);
    SweepDrops(s2, 1, 2, e, a, b, s3);
    assert s3[..3] == [e, a, b] && s3[4..] == [e];
    RemoveAt(s3, 3, c, s4);
    SweepDrops(s3, 2, 3, b, c, e, s4);
    SweepEnds(s4, 3, 4);
  }

  lemma LineLastPasses(a: Point2, b: Point2, e: Point2)
    requires a.y == b.y == e.y && Distinct([a, b, e])
    ensures Passes([e, a, b, e], 1) == [e, a, e]
  {
    var s4 := [e, a, b, e];
    var s5 := [e, a, e];
    FlatWindow(a, b, e);
    assert b != e && b != a;
    assert s4[..2] == [e, a] && s4[3..] == [e];
    RemoveAt(s4, 2, b, s5);
    SweepDrops(s4, 1, 1, a, b, e, s5);
    SweepEnds(s5, 1, 2);
    SweepEnds(s5, 2, 2);
  }

  /** t is s moved by (dx, dy), point by point. */
  predicate Shifted(s: seq<Point2>, t: seq<Point2>, dx: real, dy: real) {
    |t| == |s| && forall k :: 0 <= k < |s| ==> t[k] == Add(s[k], dx, dy)
  }

  lemma ShiftedMember(s: seq<Point2>, t: seq<Point2>, dx: real, dy: real, p: Point2)
    requires Shifted(s, t, dx, dy)
    ensures Add(p, dx, dy) in t <==> p in s
  {
    if p in s {
      var i :| 0 <= i < |s| && s[i] == p;
      assert t[i] == Add(p, dx, dy);
    }
    if Add(p, dx, dy) in t {
      var i :| 0 <= i < |t| && t[i] == Add(p, dx, dy);
      assert s[i] == p;
    }
  }

  lemma {:induction false} DedupeShifted(s: seq<Point2>, t: seq<Point2>, dx: real, dy: real)
    requires Shifted(s, t, dx, dy)
    ensures Shifted(Dedupe(s), Dedupe(t), dx, dy)
  {
    if s != [] {
      var n := |s|;
      var init, init' := s[..n - 1], t[..n - 1];
      assert Shifted(init, init', dx, dy);
      DedupeShifted(init, init', dx, dy);
      DedupeMembers(init);
      DedupeMembers(init');
      ShiftedMember(init, init', dx, dy, s[n - 1]);
      var d, d' := Dedupe(init), Dedupe(init');
      assert t[n - 1] == Add(s[n - 1], dx, dy);
      if s[n - 1] in init {
        assert Dedupe(s) == d && Dedupe(t) == d';
      } else {
        assert Dedupe(s) == d + [s[n - 1]] && Dedupe(t) == d' + [t[n - 1]];
        ShiftedSnoc(d, d', dx, dy, s[n - 1]);
      }
    }
  }

  lemma ShiftedSnoc(s: seq<Point2>, t: seq<Point2>, dx: real, dy: real, p: Point2)
    requires Shifted(s, t, dx, dy)
    ensures Shifted(s + [p], t + [Add(p, dx, dy)], dx, dy)
  {
  }

  lemma {:induction false} RemoveFirstShifted(s: seq<Point2>, t: seq<Point2>, dx: real, dy: real, v: Point2)
    requires Shifted(s, t, dx, dy) && v in s
    ensures Add(v, dx, dy) in t
    ensures Shifted(RemoveFirst(s, v), RemoveFirst(t, Add(v, dx, dy)), dx, dy)
  {
    ShiftedMember(s, t, dx, dy, v);
    var w := Add(v, dx, dy);
    assert t[0] == Add(s[0], dx, dy);
    if s[0] != v {
      assert t[0] != w;
      var s', t' := s[1..], t[1..];
      assert Shifted(s', t', dx, dy);
      RemoveFirstShifted(s', t', dx, dy, v);
      var r, r' := RemoveFirst(s', v), RemoveFirst(t', w);
      assert RemoveFirst(s, v) == [s[0]] + r;
      assert RemoveFirst(t, w) == [t[0]] + r';
      forall k | 0 <= k < |r| + 1 ensures ([t[0]] + r')[k] == Add(([s[0]] + r)[k], dx, dy) {
        if k > 0 { assert ([t[0]] + r')[k] == r'[k - 1]; assert ([s[0]] + r)[k] == r[k - 1]; }
      }
    } else {
      assert RemoveFirst(s, v) == s[1..] && RemoveFirst(t, w) == t[1..];
    }
  }

  /** Moving a triangle does not change whether it has zero area. */
  lemma ZeroAreaShifted(co: seq<Point2>, co': seq<Point2>, dx: real, dy: real)
    requires Shifted(co, co', dx, dy) && |co| == 3
    ensures ZeroArea(co') == ZeroArea(co)
  {
    assert co == [co[0], co[1], co[2]] && co' == [co'[0], co'[1], co'[2]];
    TriangleArea(co[0], co[1], co[2]);
    TriangleArea(co'[0], co'[1], co'[2]);
  }

  lemma {:induction false} SweepShifted(work: seq<Point2>, work': seq<Point2>, pos: nat, x: nat, dx: real, dy: real)
    requires pos <= x <= pos + 1
    requires Shifted(work, work', dx, dy)
    ensures Shifted(Sweep(work, pos, x), Sweep(work', pos, x), dx, dy)
    decreases |work| + 3 - x
  {
    var co, co' := Window(work, pos), Window(work', pos);
    if |co| == 3 {
      assert Shifted(co, co', dx, dy);
      ZeroAreaShifted(co, co', dx, dy);
      RemoveFirstShifted(work, work', dx, dy, co[1]);
      assert co'[1] == Add(co[1], dx, dy);
      SweepShifted(CheckWindow(work, co), CheckWindow(work', co'), x, x + 1, dx, dy);
    }
  }

  lemma {:induction false} PassesShifted(work: seq<Point2>, work': seq<Point2>, x0: nat, dx: real, dy: real)
    requires x0 <= 3
    requires Shifted(work, work', dx, dy)
    ensures Shifted(Passes(work, x0), Passes(work', x0), dx, dy)
    decreases 3 - x0
  {
    if x0 < 3 {
      SweepShifted(work, work', x0, x0, dx, dy);
      PassesShifted(Sweep(work, x0, x0), Sweep(work', x0, x0), x0 + 1, dx, dy);
    }
  }

  /** Removing colinear points commutes with moving the points. */
  lemma ReduceTranslate(points: seq<Point2>, dx: real, dy: real)
    ensures Reduce(Translate(points, dx, dy)) == Translate(Reduce(points), dx, dy)
  {
    var t := Translate(points, dx, dy);
    DedupeShifted(points, t, dx, dy);
    var d, d' := Dedupe(points), Dedupe(t);
    assert Shifted(d + d, d' + d', dx, dy);
    PassesShifted(d + d, d' + d', 0, dx, dy);
    DedupeShifted(Passes(d + d, 0), Passes(d' + d', 0), dx, dy);
    var r := Reduce(points);
    assert Shifted(r, Translate(r, dx, dy), dx, dy);
  }
}
