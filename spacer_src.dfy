/**
 * The older tree's aecSpacer.  A copy is a new space into whose dictionary
 * every key of the original's is written, the ID included, before it is
 * moved; place chains such copies.  The new space's random colour and UUID
 * and its initial box are parameters: every key the constructor writes is
 * overwritten by the copy.
 */
module SpacerSrc {
  import opened Wrappers
  import opened Points
  import opened Colinear
  import SpaceSrc
  import SpaceSrcFacts
  import SpaceGroupSrc
  import Spacer
  import PackageSpace = Space

  /** The boundary a dictionary holds, None without one. */
  function RingIn(p: SpaceSrc.Dict): Option<seq<Point2>> {
    if SpaceSrc.boundaryShape < |p| && p[SpaceSrc.boundaryShape].Polygon? then Some(p[SpaceSrc.boundaryShape].ring) else None
  }

  /**
   * q is p moved by (dx, dy, dz) as move does it: without a boundary nothing
   * changes; otherwise the level rises by dz, the other retained keys (the
   * colour, height, ID, name and transparency) stay, and the translated ring
   * is offered to setBoundary.
   */
  predicate Moved(q: SpaceSrc.Dict, p: SpaceSrc.Dict, dx: real, dy: real, dz: real) {
    if RingIn(p).None? then q == p
    else
      && |q| == |p|
      && (forall k :: 0 <= k < |p| && SpaceSrc.Retained(k) && k != SpaceSrc.level ==> q[k] == p[k])
      && SpaceSrc.NumAt(q, SpaceSrc.level) == SpaceSrc.NumAt(p, SpaceSrc.level) + dz
      && RingIn(q) == SpaceSrc.SetRing(RingIn(p), Translate(RingIn(p).value, dx, dy))
  }

  /** The dictionary after position i is the one at i moved by (dx, dy, dz). */
  predicate MovedAt(dicts: seq<SpaceSrc.Dict>, i: nat, dx: real, dy: real, dz: real)
    requires i < |dicts| - 1
  {
    Moved(dicts[i + 1], dicts[i], dx, dy, dz)
  }

  /** Each dictionary along the list is the one before it moved by (dx, dy, dz). */
  predicate MovedChain(dicts: seq<SpaceSrc.Dict>, dx: real, dy: real, dz: real) {
    forall i: nat :: i < |dicts| - 1 ==> MovedAt(dicts, i, dx, dy, dz)
  }

  /** Along a chain, every dictionary is the one before it moved. */
  lemma MovedChainSteps(dicts: seq<SpaceSrc.Dict>, dx: real, dy: real, dz: real)
    requires MovedChain(dicts, dx, dy, dz)
    ensures forall i :: 0 <= i < |dicts| - 1 ==> Moved(dicts[i + 1], dicts[i], dx, dy, dz)
  {
    forall i | 0 <= i < |dicts| - 1
      ensures Moved(dicts[i + 1], dicts[i], dx, dy, dz)
    {
      assert MovedAt(dicts, i, dx, dy, dz);
    }
  }

  /** The dictionaries of a list of spaces, in order. */
  function PropsOf(spaces: seq<SpaceSrc.Space>): (ds: seq<SpaceSrc.Dict>)
    reads spaces
  {
    seq(|spaces|, k requires 0 <= k < |spaces| reads spaces => spaces[k].props)
  }

  // ---------------------------------------------------------------- operations

  /**
   * copy: None for anything that is not a space.  Otherwise a new space
   * receives every key of the original's dictionary through setProperty,
   * in key order, and is then moved; the vector check returns its argument,
   * which is never empty, so the move always happens.
   */
  method Copy(item: SpaceGroupSrc.Item, dx: real, dy: real, dz: real, newId: nat, draw: (int, int, int), box: seq<Point2>)
    returns (r: Option<SpaceSrc.Space>)
    requires item.Member? ==> item.space.Valid()
    requires 0 <= draw.0 < 256 && 0 <= draw.1 < 256 && 0 <= draw.2 < 256
    ensures r.Some? <==> item.Member?
    ensures r.Some? ==> fresh(r.value) && r.value.Valid() && Moved(r.value.props, item.space.props, dx, dy, dz)
  {
    if !item.Member? {
      return None;
    }
    var spcProp := item.space.props;
    var newSpace := new SpaceSrc.Space(newId, draw, box);
    SetEvery(newSpace, spcProp);
    var _ := newSpace.Move(dx, dy, dz);
    r := Some(newSpace);
  }

  /** setProperty for every key of the dictionary, in key order: the target ends with that dictionary. */
  method SetEvery(target: SpaceSrc.Space, p: SpaceSrc.Dict)
    requires SpaceSrc.Total(target.props) && SpaceSrc.Total(p)
    modifies target
    ensures target.props == p
  {
    for key := 0 to |p|
      invariant SpaceSrc.Total(target.props)
      invariant forall j :: 0 <= j < key ==> target.props[j] == p[j]
    {
      target.SetProperty(key, p[key]);
    }
  }

  /**
   * place: None for anything that is not a space; otherwise `copies`
   * spaces (none for a count of 0 or less), each a copy of the one before.
   */
  method Place(item: SpaceGroupSrc.Item, copies: int, dx: real, dy: real, dz: real,
               ids: nat -> nat, draw: (int, int, int), box: seq<Point2>)
    returns (r: Option<seq<SpaceSrc.Space>>)
    requires item.Member? ==> item.space.Valid()
    requires 0 <= draw.0 < 256 && 0 <= draw.1 < 256 && 0 <= draw.2 < 256
    ensures r.Some? <==> item.Member?
    ensures r.Some? ==> |r.value| == if copies > 0 then copies else 0
    ensures r.Some? ==> forall k :: 0 <= k < |r.value| ==> fresh(r.value[k]) && r.value[k].Valid()
    ensures r.Some? ==> MovedChain([item.space.props] + PropsOf(r.value), dx, dy, dz)
  {
    if !item.Member? {
      return None;
    }
    var spaces: seq<SpaceSrc.Space> := [];
    var x := 0;
    while x < copies
      invariant 0 <= x <= (if copies > 0 then copies else 0) && |spaces| == x
      invariant forall k :: 0 <= k < x ==> fresh(spaces[k]) && spaces[k].Valid()
      invariant MovedChain([item.space.props] + PropsOf(spaces), dx, dy, dz)
    {
      ghost var before := spaces;
      spaces := Extend(item.space, spaces, dx, dy, dz, ids(x), draw, box);
      assert forall k :: 0 <= k < x ==> spaces[k] == before[k];
      x := x + 1;
    }
    r := Some(spaces);
  }

  /** One more copy, taken from the last of the chain (the original when there is none yet). */
  method Extend(first: SpaceSrc.Space, spaces: seq<SpaceSrc.Space>, dx: real, dy: real, dz: real,
                newId: nat, draw: (int, int, int), box: seq<Point2>)
    returns (s: seq<SpaceSrc.Space>)
    requires first.Valid() && forall k :: 0 <= k < |spaces| ==> spaces[k].Valid()
    requires 0 <= draw.0 < 256 && 0 <= draw.1 < 256 && 0 <= draw.2 < 256
    requires MovedChain([first.props] + PropsOf(spaces), dx, dy, dz)
    ensures |s| == |spaces| + 1 && s == spaces + [s[|spaces|]]
    ensures fresh(s[|spaces|]) && s[|spaces|].Valid()
    ensures MovedChain([first.props] + PropsOf(s), dx, dy, dz)
  {
    ghost var ds := [first.props] + PropsOf(spaces);
    var last := if |spaces| == 0 then first else spaces[|spaces| - 1];
    assert last.props == ds[|ds| - 1];
    var copy := Copy(SpaceGroupSrc.Member(last), dx, dy, dz, newId, draw, box);
    var c := copy.value;
    assert [first.props] + PropsOf(spaces) == ds;
    PropsSnoc(spaces, c);
    ChainSnoc(ds, c.props, dx, dy, dz);
    assert [first.props] + PropsOf(spaces + [c]) == ds + [c.props];
    s := spaces + [c];
  }

  /**
   * row: None for anything that is not a space, and for a space without a
   * boundary, whose missing size cannot be added to the gap; otherwise copies
   * stepped by the x size plus the gap along x, or the y size plus the gap
   * along y.  Reading the size may fill its cache.
   */
  method Row(item: SpaceGroupSrc.Item, copies: int, gap: real, xAxis: bool,
             ids: nat -> nat, draw: (int, int, int), box: seq<Point2>)
    returns (r: Option<seq<SpaceSrc.Space>>)
    requires item.Member? ==> item.space.Valid()
    requires 0 <= draw.0 < 256 && 0 <= draw.1 < 256 && 0 <= draw.2 < 256
    modifies if item.Member? then {item.space} else {}
    ensures item.Member? ==> item.space.Valid() && item.space.Settled() == old(item.space.Settled())
    ensures r.Some? <==> item.Member? && item.space.Ring().Some?
    ensures r.Some? ==> |r.value| == if copies > 0 then copies else 0
    ensures r.Some? ==> forall k :: 0 <= k < |r.value| ==> fresh(r.value[k]) && r.value[k].Valid()
    ensures r.Some? ==>
      var step := RowStep(item.space.Ring().value, gap, xAxis);
      MovedChain([item.space.props] + PropsOf(r.value), step.0, step.1, 0.0)
  {
    if !item.Member? {
      return None;
    }
    var moveBy := RowOffset(item.space, gap, xAxis);
    if moveBy.None? {
      return None;
    }
    ghost var step := RowStep(item.space.Ring().value, gap, xAxis);
    r := Place(item, copies, moveBy.value.0, moveBy.value.1, 0.0, ids, draw, box);
    if r.Some? {
      ChainSame([item.space.props] + PropsOf(r.value), moveBy.value.0, moveBy.value.1, 0.0, step.0, step.1, 0.0);
    }
  }

  /** How far row moves each copy: the x size plus the gap along x, or the y size plus the gap along y. */
  function RowStep(ring: seq<Point2>, gap: real, xAxis: bool): (real, real)
    requires |ring| > 0
  {
    if xAxis then (SpaceSrc.XSizeOf(ring) + gap, 0.0) else (0.0, SpaceSrc.YSizeOf(ring) + gap)
  }

  /**
   * The offset row computes before placing: reading the size of a space
   * without a boundary gives None, which cannot be added to the gap.
   */
  method RowOffset(space: SpaceSrc.Space, gap: real, xAxis: bool) returns (moveBy: Option<(real, real)>)
    requires space.Valid()
    modifies space
    ensures space.Valid() && space.Settled() == old(space.Settled())
    ensures moveBy.Some? <==> space.Ring().Some?
    ensures moveBy.Some? ==> moveBy.value == RowStep(space.Ring().value, gap, xAxis)
  {
    if xAxis {
      var size := space.GetXsize();
      if size.Nothing? {
        return None;
      }
      moveBy := Some((size.r + gap, 0.0));
    } else {
      var size := space.GetYsize();
      if size.Nothing? {
        return None;
      }
      moveBy := Some((0.0, size.r + gap));
    }
  }

  /** stack: None for anything that is not a space; otherwise copies stepped up by the height plus the plenum. */
  method Stack(item: SpaceGroupSrc.Item, copies: int, plenum: real,
               ids: nat -> nat, draw: (int, int, int), box: seq<Point2>)
    returns (r: Option<seq<SpaceSrc.Space>>)
    requires item.Member? ==> item.space.Valid()
    requires 0 <= draw.0 < 256 && 0 <= draw.1 < 256 && 0 <= draw.2 < 256
    ensures r.Some? <==> item.Member?
    ensures r.Some? ==> |r.value| == if copies > 0 then copies else 0
    ensures r.Some? ==> forall k :: 0 <= k < |r.value| ==> fresh(r.value[k]) && r.value[k].Valid()
    ensures r.Some? ==> MovedChain([item.space.props] + PropsOf(r.value), 0.0, 0.0, item.space.Height() + plenum)
  {
    if !item.Member? {
      return None;
    }
    r := Place(item, copies, 0.0, 0.0, item.space.Height() + plenum, ids, draw, box);
  }

  /**
   * stackToArea: no type test, so whatever the item is, its getArea is
   * asked first.  [] when that area covers the target; otherwise a stack of
   * int(area / spcArea) copies, which only a space can give.  A missing
   * area cannot be compared and a zero area cannot divide: both raise,
   * giving None.
   */
  method StackToArea(item: SpaceGroupSrc.Item, area: real, plenum: real,
                     ids: nat -> nat, draw: (int, int, int), box: seq<Point2>)
    returns (r: Option<seq<SpaceSrc.Space>>)
    requires item.Member? ==> item.space.Valid()
    requires 0 <= draw.0 < 256 && 0 <= draw.1 < 256 && 0 <= draw.2 < 256
    modifies if item.Member? then {item.space} else {}
    ensures item.Member? ==> item.space.Valid() && item.space.Settled() == old(item.space.Settled())
    ensures item.Member? ==> (r.Some? <==> (item.space.Ring().Some? &&
      (Area(item.space.Ring().value) >= area || Area(item.space.Ring().value) != 0.0)))
    ensures item.Member? && r.Some? && Area(item.space.Ring().value) >= area ==> r.value == []
    ensures item.Member? && r.Some? && Area(item.space.Ring().value) < area ==>
      && |r.value| == Spacer.StackCount(area, Area(item.space.Ring().value))
      && (forall k :: 0 <= k < |r.value| ==> fresh(r.value[k]) && r.value[k].Valid())
      && MovedChain([item.space.props] + PropsOf(r.value), 0.0, 0.0, item.space.Height() + plenum)
    ensures !item.Member? ==> (r.Some? <==> (item.Other? && item.area.Some? && item.area.value >= area))
    ensures !item.Member? && r.Some? ==> r.value == []
  {
    if item.Untyped? {
      return None;
    }
    if item.Other? {
      if item.area.Some? && item.area.value >= area {
        return Some([]);
      }
      return None;
    }
    var spcArea := item.space.GetArea();
    if spcArea.Nothing? {
      return None;
    }
    if spcArea.r >= area {
      return Some([]);
    }
    if spcArea.r == 0.0 {
      return None;
    }
    r := Stack(item, Spacer.StackCount(area, spcArea.r), plenum, ids, draw, box);
  }

  // ---------------------------------------------------------------- chains of copies

  lemma PropsSnoc(spaces: seq<SpaceSrc.Space>, c: SpaceSrc.Space)
    ensures PropsOf(spaces + [c]) == PropsOf(spaces) + [c.props]
  {
  }

  /** The same chain, its step written another way. */
  lemma ChainSame(ds: seq<SpaceSrc.Dict>, dx: real, dy: real, dz: real, ex: real, ey: real, ez: real)
    requires ex == dx && ey == dy && ez == dz && MovedChain(ds, dx, dy, dz)
    ensures MovedChain(ds, ex, ey, ez)
  {
  }

  lemma ChainSnoc(ds: seq<SpaceSrc.Dict>, q: SpaceSrc.Dict, dx: real, dy: real, dz: real)
    requires ds != [] && MovedChain(ds, dx, dy, dz) && Moved(q, ds[|ds| - 1], dx, dy, dz)
    ensures MovedChain(ds + [q], dx, dy, dz)
  {
    var e := ds + [q];
    forall i: nat | i < |e| - 1
      ensures MovedAt(e, i, dx, dy, dz)
    {
      if i + 1 < |ds| {
        assert MovedAt(ds, i, dx, dy, dz);
        assert e[i + 1] == ds[i + 1] && e[i] == ds[i];
      }
    }
  }


  /** r normalised k times over: each copy here offers its boundary to setBoundary once. */
  function Renormalised(r: seq<Point2>, k: nat): seq<Point2> {
    if k == 0 then r else Orient(Reduce(Renormalised(r, k - 1)))
  }

  /** setBoundary accepts each of the first k boundaries along the chain. */
  predicate AcceptedFor(r: seq<Point2>, k: nat) {
    k == 0 || (AcceptedFor(r, k - 1) && SpaceSrc.Accepted(Renormalised(r, k - 1)))
  }

  /** The k-th = (j + 1)-th dictionary along a chain is the j-th moved. */
  lemma ChainLink(dicts: seq<SpaceSrc.Dict>, dx: real, dy: real, dz: real, j: nat, k: nat)
    requires k == j + 1 && k < |dicts| && MovedChain(dicts, dx, dy, dz)
    ensures Moved(dicts[k], dicts[j], dx, dy, dz)
  {
    assert MovedAt(dicts, j, dx, dy, dz);
  }

  /**
   * Along a chain of copies a space without a boundary is copied unchanged;
   * one with a boundary keeps it, keeps its colour, height, ID, name and
   * transparency, and rises by dz per copy.
   */
  lemma {:induction false} ChainKeeps(dicts: seq<SpaceSrc.Dict>, dx: real, dy: real, dz: real, k: nat)
    requires k < |dicts|
    requires MovedChain(dicts, dx, dy, dz)
    ensures RingIn(dicts[0]).None? ==> dicts[k] == dicts[0]
    ensures RingIn(dicts[0]).Some? ==>
      && RingIn(dicts[k]).Some? && |dicts[k]| == |dicts[0]|
      && (forall j :: 0 <= j < |dicts[0]| && SpaceSrc.Retained(j) && j != SpaceSrc.level ==> dicts[k][j] == dicts[0][j])
      && SpaceSrc.NumAt(dicts[k], SpaceSrc.level) == SpaceSrc.NumAt(dicts[0], SpaceSrc.level) + PackageSpace.Steps(k, dz)
  {
    if k > 0 {
      ChainKeeps(dicts, dx, dy, dz, k - 1);
      ChainLink(dicts, dx, dy, dz, k - 1, k);
    }
  }

  /** One move along a chain of copies, from a ring displaced by (ox, oy) to one displaced by (ex, ey). */
  lemma ChainStep(dicts: seq<SpaceSrc.Dict>, dx: real, dy: real, dz: real, k: nat, j: nat,
                  ox: real, oy: real, ex: real, ey: real)
    requires k == j + 1 && k < |dicts| && RingIn(dicts[0]).Some? && ex == ox + dx && ey == oy + dy
    requires MovedChain(dicts, dx, dy, dz)
    requires AcceptedFor(RingIn(dicts[0]).value, k)
    requires RingIn(dicts[j]) == Some(Translate(Renormalised(RingIn(dicts[0]).value, j), ox, oy))
    ensures RingIn(dicts[k]) == Some(Translate(Renormalised(RingIn(dicts[0]).value, k), ex, ey))
  {
    var a := Renormalised(RingIn(dicts[0]).value, j);
    ChainLink(dicts, dx, dy, dz, j, k);
    Spacer.TranslateTwice(a, ox, oy, dx, dy, ex, ey);
    SpaceSrcFacts.SetRingTranslate(RingIn(dicts[j]), a, ex, ey);
  }

  /**
   * While setBoundary keeps accepting, the k-th boundary along a chain is
   * the first one normalised once per copy and moved by k·(dx, dy).
   */
  lemma {:induction false} ChainDisplaced(dicts: seq<SpaceSrc.Dict>, dx: real, dy: real, dz: real, k: nat)
    requires k < |dicts| && RingIn(dicts[0]).Some?
    requires MovedChain(dicts, dx, dy, dz)
    requires AcceptedFor(RingIn(dicts[0]).value, k)
    ensures RingIn(dicts[k]) == Some(Translate(Renormalised(RingIn(dicts[0]).value, k),
                                               PackageSpace.Steps(k, dx), PackageSpace.Steps(k, dy)))
  {
    if k == 0 {
      ChainStart(RingIn(dicts[0]).value, dx, dy, k);
    } else {
      var j := k - 1;
      ChainDisplaced(dicts, dx, dy, dz, j);
      assert PackageSpace.Steps(k, dx) == PackageSpace.Steps(k - 1, dx) + dx;
      assert PackageSpace.Steps(k, dy) == PackageSpace.Steps(k - 1, dy) + dy;
      ChainStep(dicts, dx, dy, dz, k, j, PackageSpace.Steps(j, dx), PackageSpace.Steps(j, dy),
                PackageSpace.Steps(k, dx), PackageSpace.Steps(k, dy));
    }
  }

  /** The start of a chain is its ring normalised no times and moved by nothing. */
  lemma ChainStart(r: seq<Point2>, dx: real, dy: real, k: nat)
    requires k == 0
    ensures Translate(Renormalised(r, k), PackageSpace.Steps(k, dx), PackageSpace.Steps(k, dy)) == r
  {
    assert Translate(r, 0.0, 0.0) == r by {
      assert forall i :: 0 <= i < |r| ==> Translate(r, 0.0, 0.0)[i] == r[i];
    }
  }
}
