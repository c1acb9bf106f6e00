/**
 * The package's aecSpacer: copies of a space, and rows and stacks of
 * copies, each copy taken from the one before it and moved by the same
 * displacement.  A copy is a new space given the original's floor points,
 * colour, height, level and name through the setters, then moved.
 */
module Spacer {
  import opened Wrappers
  import opened Points
  import opened Colinear
  import SpaceSrc
  import SpaceSrcFacts
  import Space
  import AecColor

  // ---------------------------------------------------------------- rings along a chain

  /**
   * The boundary of a copy, moved by (x, y), of a space whose boundary is
   * r: the boundary setter offered the original's floor points either
   * accepts and normalises them again, or (refusing them, or given None for
   * a space without a boundary) leaves the new space's unit square; moveBy
   * then moves whichever it is.
   */
  function NextRing(r: Option<seq<Point2>>, x: real, y: real): Option<seq<Point2>> {
    if r.Some? && SpaceSrc.Accepted(r.value) then Space.MovedRing(Some(Orient(Reduce(r.value))), x, y)
    else Some(UnitSquareAt(x, y))
  }

  /** The unit square with its first corner at (x, y), corners in the constructor's order. */
  function UnitSquareAt(x: real, y: real): (s: seq<Point2>)
    ensures Space.UnitRingAt(s, x, y)
  {
    [Point2(x, y), Point2(1.0 + x, y), Point2(1.0 + x, 1.0 + y), Point2(x, 1.0 + y)]
  }

  /** The corner conditions pin the ring down: it is the unit square at (x, y). */
  lemma UnitRingIs(s: seq<Point2>, x: real, y: real)
    requires Space.UnitRingAt(s, x, y)
    ensures s == UnitSquareAt(x, y)
  {
    assert s == [s[0], s[1], s[2], s[3]];
  }

  /**
   * The ring after k copies, before any of them is moved: each copy's
   * boundary setter and its moveBy normalise the ring once each.
   */
  function Recopied(r: seq<Point2>, k: nat): seq<Point2> {
    if k == 0 then r else Orient(Reduce(Orient(Reduce(Recopied(r, k - 1)))))
  }

  /** The boundary setter accepts the ring, and its normalisation, at each of the first k copies. */
  predicate AcceptedFor(r: seq<Point2>, k: nat) {
    forall i: nat :: i < k ==> SpaceSrc.Accepted(Recopied(r, i)) && SpaceSrc.Accepted(Orient(Reduce(Recopied(r, i))))
  }

  /**
   * The boundary of the k-th space along a chain of copies of a space whose
   * boundary is r: the first copy's boundary is NextRing(r), and the rest
   * of the chain is that copy's own chain.
   */
  function RingAt(r: Option<seq<Point2>>, x: real, y: real, k: nat): Option<seq<Point2>>
    decreases k
  {
    if k == 0 then r else RingAt(NextRing(r, x, y), x, y, k - 1)
  }

  /** One copy further along the chain: the (j + 1)-th boundary is NextRing of the j-th. */
  lemma {:induction false} RingAtNext(r: Option<seq<Point2>>, x: real, y: real, j: nat, k: nat)
    requires k == j + 1
    ensures RingAt(r, x, y, k) == NextRing(RingAt(r, x, y, j), x, y)
    decreases j
  {
    if j > 0 {
      RingAtNext(NextRing(r, x, y), x, y, j - 1, k - 1);
    }
  }

  // ---------------------------------------------------------------- operations

  /**
   * copy: a new space given the original's floor points, colour, height,
   * level and name, then moved by (x, y, z).  The copy's level rises by z
   * because the unit square always gives it a boundary to move.
   */
  method Copy(space: Space.Space, x: real, y: real, z: real, newId: nat) returns (r: Space.Space)
    requires space.Valid() && space.color.Valid()
    ensures fresh(r) && fresh(r.color) && r.Valid() && r.color.Valid() && r.id == newId
    ensures r.ring == NextRing(space.ring, x, y)
    ensures r.level == space.level + z && r.height == space.height && r.name == space.name
    ensures r.color.Color() == space.color.Color()
  {
    ghost var unit;
    r, unit := Duplicate(space, newId);
    ghost var before := r.ring;
    var _ := r.MoveBy(x, y, z);
    if space.ring.Some? && SpaceSrc.Accepted(space.ring.value) {
      assert before == Some(Orient(Reduce(space.ring.value)));
    } else {
      assert before == Some(unit);
      assert r.ring == Space.MovedRing(before, x, y);
      UnitRingIs(r.ring.value, x, y);
    }
  }

  /**
   * copy up to the move: a new space given the original's floor points,
   * colour, height, level and name.  Its ring is the original's normalised
   * again, or, when the boundary setter refuses those points or there are
   * none, the unit square the new space was made with.
   */
  method Duplicate(space: Space.Space, newId: nat) returns (r: Space.Space, ghost unit: seq<Point2>)
    requires space.Valid() && space.color.Valid()
    ensures fresh(r) && fresh(r.color) && r.Valid() && r.color.Valid() && r.id == newId
    ensures Space.MovesAsUnit(unit, 0.0)
    ensures r.ring == if space.ring.Some? && SpaceSrc.Accepted(space.ring.value)
      then Some(Orient(Reduce(space.ring.value))) else Some(unit)
    ensures r.level == space.level && r.height == space.height && r.name == space.name
    ensures r.color.Color() == space.color.Color()
  {
    r := new Space.Space([], newId);
    unit := r.ring.value;
    Space.UnitMoves(unit, 0.0);
    if space.ring.Some? {
      var _ := r.SetBoundary(space.PointsFloor().value);
    }
    var rgb := space.color.Color();
    AecColor.ChannelKeepsByte(rgb.0);
    AecColor.ChannelKeepsByte(rgb.1);
    AecColor.ChannelKeepsByte(rgb.2);
    r.color.SetColor([rgb.0 as real, rgb.1 as real, rgb.2 as real]);
    r.SetHeight(space.height);
    r.SetLevel(space.level);
    r.SetName(space.name);
  }

  /**
   * place: `copies` spaces, none of them the original; each is a copy of
   * the one before, so the k-th (from 0) is k + 1 steps from the original.
   * A count of 0 or less gives no copies.  ids(k) is the k-th copy's UUID.
   */
  method Place(space: Space.Space, copies: int, x: real, y: real, z: real, ids: nat -> nat)
    returns (r: seq<Space.Space>)
    requires space.Valid() && space.color.Valid()
    ensures |r| == if copies > 0 then copies else 0
    ensures forall k :: 0 <= k < |r| ==> fresh(r[k]) && r[k].id == ids(k)
    ensures forall k :: 0 <= k < |r| ==> Placed(r[k], space, x, y, z, k + 1)
  {
    r := [];
    var index := 0;
    var last := space;
    PlacedStart(space, x, y, z, index);
    while index < copies
      invariant 0 <= index <= (if copies > 0 then copies else 0) && |r| == index
      invariant forall k :: 0 <= k < index ==> fresh(r[k]) && r[k].id == ids(k)
      invariant forall k :: 0 <= k < index ==> Placed(r[k], space, x, y, z, k + 1)
      invariant Placed(last, space, x, y, z, index)
    {
      last := Extend(last, space, x, y, z, index, ids(index));
      r := r + [last];
      index := index + 1;
    }
  }

  /** One more copy: the k-th space along the chain, copied and moved, is the (k + 1)-th. */
  method Extend(last: Space.Space, space: Space.Space, x: real, y: real, z: real, k: nat, newId: nat)
    returns (c: Space.Space)
    requires Placed(last, space, x, y, z, k)
    ensures fresh(c) && c.id == newId
    ensures Placed(c, space, x, y, z, k + 1)
  {
    c := Copy(last, x, y, z, newId);
    PlacedNext(last, c, space, x, y, z, k, k + 1);
  }

  /** The original stands at the start of its own chain. */
  lemma PlacedStart(space: Space.Space, x: real, y: real, z: real, k: nat)
    requires k == 0 && space.Valid() && space.color.Valid()
    ensures Placed(space, space, x, y, z, k)
  {
  }

  /** A copy of the j-th space of a chain, moved one step, is its k-th = (j + 1)-th. */
  lemma PlacedNext(last: Space.Space, c: Space.Space, space: Space.Space, x: real, y: real, z: real, j: nat, k: nat)
    requires k == j + 1 && Placed(last, space, x, y, z, j)
    requires c.Valid() && c.color.Valid() && c.ring == NextRing(last.ring, x, y)
    requires c.level == last.level + z && c.height == last.height && c.name == last.name
    requires c.color.Color() == last.color.Color()
    ensures Placed(c, space, x, y, z, k)
  {
    RingAtNext(space.ring, x, y, j, k);
    LevelNext(last.level, c.level, space.level, z, j, k);
  }

  /** One step of z above the j-th level is the k-th = (j + 1)-th. */
  lemma LevelNext(before: real, after: real, base: real, z: real, j: nat, k: nat)
    requires k == j + 1 && before == base + Space.Steps(j, z) && after == before + z
    ensures after == base + Space.Steps(k, z)
  {
    assert Space.Steps(k, z) == Space.Steps(k - 1, z) + z;
  }

  /**
   * The step between neighbours in a row: the box width plus the gap along
   * x, or the box depth plus the gap along y.
   */
  function RowStep(space: Space.Space, gap: real, xAxis: bool): (step: (real, real))
    reads space
    requires space.PointsBox().Some?
  {
    if xAxis then (space.SizeX().value + gap, 0.0) else (0.0, space.SizeY().value + gap)
  }

  /**
   * row: copies stepped by the box width plus the gap along x, or by the
   * box depth plus the gap along y; a space without a box has no size, and
   * the sum raises, giving None.
   */
  method Row(space: Space.Space, copies: int, gap: real, xAxis: bool, ids: nat -> nat)
    returns (r: Option<seq<Space.Space>>)
    requires space.Valid() && space.color.Valid()
    ensures r.Some? <==> space.PointsBox().Some?
    ensures r.Some? ==> |r.value| == if copies > 0 then copies else 0
    ensures r.Some? ==> var step := RowStep(space, gap, xAxis);
      && (xAxis ==> step == (space.SizeX().value + gap, 0.0))
      && (!xAxis ==> step == (0.0, space.SizeY().value + gap))
      && forall k :: 0 <= k < |r.value| ==> Placed(r.value[k], space, step.0, step.1, 0.0, k + 1)
  {
    if space.PointsBox().None? {
      return None;
    }
    ghost var before := RowStep(space, gap, xAxis);
    var dx, dy := RowStep(space, gap, xAxis).0, RowStep(space, gap, xAxis).1;
    var spaces := Place(space, copies, dx, dy, 0.0, ids);
    assert RowStep(space, gap, xAxis) == before == (dx, dy);
    r := Some(spaces);
  }

  /** stack: copies stepped up by the height plus the plenum. */
  method Stack(space: Space.Space, copies: int, plenum: real, ids: nat -> nat) returns (r: seq<Space.Space>)
    requires space.Valid() && space.color.Valid()
    ensures |r| == if copies > 0 then copies else 0
    ensures forall k :: 0 <= k < |r| ==> Placed(r[k], space, 0.0, 0.0, space.height + plenum, k + 1)
  {
    r := Place(space, copies, 0.0, 0.0, space.height + plenum, ids);
  }

  /**
   * stackToArea: no copies when the space alone covers the target area;
   * otherwise a stack of int(area / spcArea) copies.  A space without a
   * boundary has no area to compare, and a zero area cannot divide: both
   * raise, giving None.
   */
  method StackToArea(space: Space.Space, area: real, plenum: real, ids: nat -> nat)
    returns (r: Option<seq<Space.Space>>)
    requires space.Valid() && space.color.Valid()
    ensures r.None? <==> space.Area().None? || (space.Area().value < area && space.Area().value == 0.0)
    ensures r.Some? && space.Area().value >= area ==> r.value == []
    ensures r.Some? && space.Area().value < area ==>
      && |r.value| == StackCount(area, space.Area().value)
      && forall k :: 0 <= k < |r.value| ==> Placed(r.value[k], space, 0.0, 0.0, space.height + plenum, k + 1)
  {
    var spcArea := space.Area();
    if spcArea.None? {
      return None;
    }
    if spcArea.value >= area {
      return Some([]);
    }
    if spcArea.value == 0.0 {
      return None;
    }
    var spaces := Stack(space, StackCount(area, spcArea.value), plenum, ids);
    assert space.Area() == spcArea;
    r := Some(spaces);
  }

  /**
   * placeOnLine and placeWithin begin by comparing areas: a shape larger
   * than the border (or either without a boundary, which raises) gives
   * False.  None stands for going on to the random placement, which this
   * model does not follow.
   */
  method AreaGuard(shape: Space.Space, border: Space.Space) returns (r: Option<bool>)
    ensures r.Some? ==> !r.value
    ensures r.None? <==> shape.Area().Some? && border.Area().Some? && shape.Area().value <= border.Area().value
  {
    var a, b := shape.Area(), border.Area();
    if a.None? || b.None? || a.value > b.value {
      return Some(false);
    }
    r := None;
  }

  // ---------------------------------------------------------------- specification

  /**
   * The k-th space along a chain of copies of space (the original itself
   * for k = 0): valid, its boundary that of the k-th copy, its level k
   * steps of z up, its height, name and colour the original's.
   */
  predicate Placed(c: Space.Space, space: Space.Space, x: real, y: real, z: real, k: nat)
    reads c, c.color, space, space.color
  {
    && c.Valid() && c.color.Valid()
    && c.ring == RingAt(space.ring, x, y, k)
    && c.level == space.level + Space.Steps(k, z)
    && c.height == space.height && c.name == space.name
    && c.color.Color() == space.color.Color()
  }

  /** int(area / spcArea) for a positive quotient: its integer part. */
  function StackCount(area: real, spcArea: real): nat
    requires 0.0 <= spcArea < area && spcArea != 0.0
  {
    (area / spcArea).Floor
  }

  /**
   * The stack stackToArea builds reaches the target: the original with its
   * copies covers the area, and one copy fewer would not.
   */
  lemma StackReachesArea(area: real, spcArea: real)
    requires 0.0 <= spcArea < area && spcArea != 0.0
    ensures var n := StackCount(area, spcArea);
      Space.Steps(n, spcArea) <= area < Space.Steps(n + 1, spcArea)
  {
    var n := StackCount(area, spcArea);
    Space.StepsIsProduct(n, spcArea);
    Space.StepsIsProduct(n + 1, spcArea);
    ScaledBelow(area, spcArea, n as real);
    BelowScaled(area, spcArea, (n + 1) as real);
  }

  /** A multiple of c no greater than area / c is no greater than area. */
  lemma ScaledBelow(area: real, c: real, m: real)
    requires 0.0 < c && m <= area / c
    ensures m * c <= area
  {
    var q := area / c;
    assert q * c == area;
    assert q * c - m * c == (q - m) * c;
  }

  /** A multiple of c above area / c is above area. */
  lemma BelowScaled(area: real, c: real, m: real)
    requires 0.0 < c && area / c < m
    ensures area < m * c
  {
    var q := area / c;
    assert q * c == area;
    assert m * c - q * c == (m - q) * c;
  }

  /** Moving twice moves by the sum. */
  lemma TranslateTwice(s: seq<Point2>, a: real, b: real, c: real, d: real, e: real, f: real)
    requires e == a + c && f == b + d
    ensures Translate(Translate(s, a, b), c, d) == Translate(s, e, f)
  {
    var t := Translate(Translate(s, a, b), c, d);
    assert forall i :: 0 <= i < |s| ==> t[i] == Add(s[i], e, f);
  }

  /**
   * A copy of a space whose boundary is a moved ring a, accepted again
   * after its first normalisation, is a twice normalised and moved once
   * more, to (ex, ey) = (dx + x, dy + y).
   */
  lemma NextRingMoved(a: seq<Point2>, dx: real, dy: real, x: real, y: real, ex: real, ey: real)
    requires SpaceSrc.Accepted(a) && SpaceSrc.Accepted(Orient(Reduce(a)))
    requires ex == dx + x && ey == dy + y
    ensures NextRing(Some(Translate(a, dx, dy)), x, y) == Some(Translate(Orient(Reduce(Orient(Reduce(a)))), ex, ey))
  {
    CopyOfMoved(a, dx, dy, x, y);
    MoveOfMoved(Orient(Reduce(a)), dx, dy, x, y, ex, ey);
  }

  /** The setter in copy normalises a moved ring as it would the ring itself, then moved. */
  lemma CopyOfMoved(a: seq<Point2>, dx: real, dy: real, x: real, y: real)
    requires SpaceSrc.Accepted(a)
    ensures NextRing(Some(Translate(a, dx, dy)), x, y) == Space.MovedRing(Some(Translate(Orient(Reduce(a)), dx, dy)), x, y)
  {
    NormalisedMoved(a, dx, dy);
  }

  /** moveBy on a moved ring normalises it once more and moves it on. */
  lemma MoveOfMoved(b: seq<Point2>, dx: real, dy: real, x: real, y: real, ex: real, ey: real)
    requires SpaceSrc.Accepted(b) && ex == dx + x && ey == dy + y
    ensures Space.MovedRing(Some(Translate(b, dx, dy)), x, y) == Some(Translate(Orient(Reduce(b)), ex, ey))
  {
    NormalisedMoved(b, dx, dy);
    TranslateTwice(Orient(Reduce(b)), dx, dy, x, y, ex, ey);
  }

  /** Normalising commutes with moving, and moving keeps a ring accepted. */
  lemma NormalisedMoved(a: seq<Point2>, dx: real, dy: real)
    requires SpaceSrc.Accepted(a)
    ensures SpaceSrc.Accepted(Translate(a, dx, dy))
    ensures Orient(Reduce(Translate(a, dx, dy))) == Translate(Orient(Reduce(a)), dx, dy)
  {
    SpaceSrcFacts.SetRingTranslate(None, a, dx, dy);
  }

  /** One more copy of a recopied ring, moved by (dx, dy), is the ring recopied once more and moved on by (x, y). */
  lemma RecopiedStep(r: seq<Point2>, j: nat, k: nat, dx: real, dy: real, x: real, y: real, ex: real, ey: real)
    requires k == j + 1 && AcceptedFor(r, k) && ex == dx + x && ey == dy + y
    ensures NextRing(Some(Translate(Recopied(r, j), dx, dy)), x, y) == Some(Translate(Recopied(r, k), ex, ey))
  {
    RecopiedNext(r, j, k);
    NextRingMoved(Recopied(r, j), dx, dy, x, y, ex, ey);
  }

  /** Recopying once more normalises twice more. */
  lemma RecopiedNext(r: seq<Point2>, j: nat, k: nat)
    requires k == j + 1
    ensures Recopied(r, k) == Orient(Reduce(Orient(Reduce(Recopied(r, j)))))
  {
  }

  /** One step along a chain of copies, from a ring displaced by (dx, dy) to one displaced by (ex, ey). */
  lemma ChainStep(r: seq<Point2>, x: real, y: real, k: nat, j: nat, dx: real, dy: real, ex: real, ey: real)
    requires k == j + 1 && ex == dx + x && ey == dy + y && AcceptedFor(r, k)
    requires RingAt(Some(r), x, y, j) == Some(Translate(Recopied(r, j), dx, dy))
    ensures RingAt(Some(r), x, y, k) == Some(Translate(Recopied(r, k), ex, ey))
  {
    RingAtNext(Some(r), x, y, j, k);
    RecopiedStep(r, j, k, dx, dy, x, y, ex, ey);
  }

  /**
   * While the boundary setter keeps accepting the normalised ring, the k-th
   * boundary along a chain of copies is the first one normalised twice per
   * copy (once by the copy's boundary setter, once by moveBy) and moved by
   * k·(x, y).
   */
  lemma {:induction false} ChainDisplaced(r: seq<Point2>, x: real, y: real, k: nat)
    requires AcceptedFor(r, k)
    ensures RingAt(Some(r), x, y, k) == Some(Translate(Recopied(r, k), Space.Steps(k, x), Space.Steps(k, y)))
  {
    if k == 0 {
      assert Translate(r, 0.0, 0.0) == r by {
        assert forall i :: 0 <= i < |r| ==> Translate(r, 0.0, 0.0)[i] == r[i];
      }
      assert Recopied(r, k) == r && Space.Steps(k, x) == 0.0 && Space.Steps(k, y) == 0.0;
    } else {
      var j := k - 1;
      ChainDisplaced(r, x, y, j);
      assert Space.Steps(k, x) == Space.Steps(k - 1, x) + x;
      assert Space.Steps(k, y) == Space.Steps(k - 1, y) + y;
      ChainStep(r, x, y, k, j, Space.Steps(j, x), Space.Steps(j, y), Space.Steps(k, x), Space.Steps(k, y));
    }
  }

  /** The unit square placed at equal corners is the same ring. */
  lemma UnitSquareSame(a: real, b: real, c: real, d: real)
    requires c == a && d == b
    ensures UnitSquareAt(a, b) == UnitSquareAt(c, d)
  {
  }

  /** The first copy of a space the boundary setter gives nothing for is the unit square at (x, y). */
  lemma UnitStart(r: Option<seq<Point2>>, x: real, y: real, k: nat, ex: real, ey: real)
    requires k == 1 && !(r.Some? && SpaceSrc.Accepted(r.value)) && ex == x && ey == y
    ensures RingAt(r, x, y, k) == Some(UnitSquareAt(ex, ey))
  {
    RingAtNext(r, x, y, 0, k);
    UnitSquareSame(x, y, ex, ey);
  }

  /** A copy of the unit square at (dx, dy) is the unit square at (ex, ey) = (dx + x, dy + y). */
  lemma UnitStep(r: Option<seq<Point2>>, x: real, y: real, k: nat, j: nat, dx: real, dy: real, ex: real, ey: real)
    requires k == j + 1 && ex == dx + x && ey == dy + y
    requires RingAt(r, x, y, j) == Some(UnitSquareAt(dx, dy))
    ensures RingAt(r, x, y, k) == Some(UnitSquareAt(ex, ey))
  {
    RingAtNext(r, x, y, j, k);
    UnitNext(dx, dy, x, y, ex, ey);
  }

  /** A copy of the unit square at (dx, dy), moved by (x, y), is the unit square at (ex, ey) = (dx + x, dy + y). */
  lemma UnitNext(dx: real, dy: real, x: real, y: real, ex: real, ey: real)
    requires ex == dx + x && ey == dy + y
    ensures NextRing(Some(UnitSquareAt(dx, dy)), x, y) == Some(UnitSquareAt(ex, ey))
  {
    var u := UnitSquareAt(dx, dy);
    Space.UnitRingMoves(u, dx, dy, x, y);
    UnitRingIs(Space.MovedRing(Some(u), x, y).value, dx + x, dy + y);
    UnitSquareSame(dx + x, dy + y, ex, ey);
  }

  /**
   * Copies of a space the boundary setter gives nothing for (no boundary,
   * or one it refuses) start from the unit square, which it then keeps as
   * it is: the k-th is the unit square moved by exactly k·(x, y).
   */
  lemma {:induction false} UnitChain(r: Option<seq<Point2>>, x: real, y: real, k: nat)
    requires 0 < k && !(r.Some? && SpaceSrc.Accepted(r.value))
    ensures RingAt(r, x, y, k) == Some(UnitSquareAt(Space.Steps(k, x), Space.Steps(k, y)))
  {
    if k == 1 {
      assert Space.Steps(k, x) == x;
      assert Space.Steps(k, y) == y;
      UnitStart(r, x, y, k, Space.Steps(k, x), Space.Steps(k, y));
    } else {
      var j := k - 1;
      UnitChain(r, x, y, j);
      assert Space.Steps(k, x) == Space.Steps(k - 1, x) + x;
      assert Space.Steps(k, y) == Space.Steps(k - 1, y) + y;
      UnitStep(r, x, y, k, j, Space.Steps(j, x), Space.Steps(j, y), Space.Steps(k, x), Space.Steps(k, y));
    }
  }
}
