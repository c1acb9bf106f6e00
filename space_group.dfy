/**
 * The newer tree's aecSpaceGroup: a list of references to spaces, with
 * totals of their areas and volumes and bulk operations that either address
 * one member by index or, for a falsy index (None or 0, both modelled as 0),
 * every member in list order.  Only scale guards its index correctly; the
 * other indexed operations call the list as a function, which raises, so
 * with a truthy index they report False and change nothing.
 */
module SpaceGroup {
  import opened Wrappers
  import opened Points
  import opened Colinear
  import SpaceSrc
  import Space
  import Sorting
  import opened Totals

  /** The members' areas, in list order. */
  function Areas(ss: seq<Space.Space>): (r: seq<Option<real>>)
    reads ss
    ensures |r| == |ss| && forall i :: 0 <= i < |ss| ==> r[i] == ss[i].Area()
  {
    seq(|ss|, i requires 0 <= i < |ss| reads ss => ss[i].Area())
  }

  /** The members' volumes, in list order. */
  function Volumes(ss: seq<Space.Space>): (r: seq<Option<real>>)
    reads ss
    ensures |r| == |ss| && forall i :: 0 <= i < |ss| ==> r[i] == ss[i].Volume()
  {
    seq(|ss|, i requires 0 <= i < |ss| reads ss => ss[i].Volume())
  }

  /** The total area of two lists joined is the sum of their totals. */
  lemma AreaOfJoined(a: seq<Space.Space>, b: seq<Space.Space>)
    ensures Total(Areas(a + b)) == Plus(Total(Areas(a)), Total(Areas(b)))
  {
    assert Areas(a + b) == Areas(a) + Areas(b);
    TotalConcat(Areas(a), Areas(b));
  }

  /** The total volume of two lists joined is the sum of their totals. */
  lemma VolumeOfJoined(a: seq<Space.Space>, b: seq<Space.Space>)
    ensures Total(Volumes(a + b)) == Plus(Total(Volumes(a)), Total(Volumes(b)))
  {
    assert Volumes(a + b) == Volumes(a) + Volumes(b);
    TotalConcat(Volumes(a), Volumes(b));
  }

  // ---------------------------------------------------------------- what a bulk operation does to one member

  /** The member's boundary, level and height are as they were. */
  twostate predicate Same(s: Space.Space)
    reads s
  {
    s.ring == old(s.ring) && s.level == old(s.level) && s.height == old(s.height)
  }

  /** The boundary scale leaves: the normalised scaled ring, if setBoundary accepts it. */
  function ScaledRing(r: Option<seq<Point2>>, x: real, y: real, pivot: Point2): Option<seq<Point2>> {
    if r.Some? && SpaceSrc.Accepted(SpaceSrc.ScaleAbout(r.value, x, y, pivot))
    then Some(Orient(Reduce(SpaceSrc.ScaleAbout(r.value, x, y, pivot))))
    else r
  }

  /** The member moved as aecSpace.moveBy moves it: the level rises only when there is a boundary. */
  twostate predicate MovedBy(s: Space.Space, x: real, y: real, z: real)
    reads s
  {
    && s.ring == Space.MovedRing(old(s.ring), x, y)
    && s.level == (if old(s.ring).Some? then old(s.level) + z else old(s.level))
    && s.height == old(s.height)
  }

  /** The member scaled as aecSpace.scale scales it: the height scales only when there is a boundary. */
  twostate predicate ScaledBy(s: Space.Space, x: real, y: real, z: real, pivot: Point2)
    reads s
  {
    && s.ring == ScaledRing(old(s.ring), x, y, pivot)
    && s.height == (if old(s.ring).Some? then Space.Times(old(s.height), z) else old(s.height))
    && s.level == old(s.level)
  }

  /** One member moved by the vector, as the group's loop moves it. */
  method MoveMember(s: Space.Space, x: real, y: real, z: real)
    requires s.Valid()
    modifies s
    ensures s.Valid() && MovedBy(s, x, y, z)
  {
    var _ := s.MoveBy(x, y, z);
  }

  /** One member moved from one point to another, as the group's loop moves it. */
  method MoveMemberTo(s: Space.Space, fromPnt: Point3, toPnt: Point3)
    requires s.Valid()
    modifies s
    ensures s.Valid() && MovedBy(s, toPnt.x - fromPnt.x, toPnt.y - fromPnt.y, toPnt.z - fromPnt.z)
  {
    var _ := s.MoveTo(fromPnt, toPnt);
  }

  /** One member scaled about the pivot, as the group's loop scales it. */
  method ScaleMember(s: Space.Space, x: real, y: real, z: real, pivot: Point2)
    requires s.Valid()
    modifies s
    ensures s.Valid() && ScaledBy(s, x, y, z, pivot)
  {
    var _ := s.Scale(x, y, z, pivot);
  }

  // ---------------------------------------------------------------- sorting by level

  predicate LevelSorted(ss: seq<Space.Space>)
    reads ss
  {
    forall i, j :: 0 <= i < j < |ss| ==> ss[i].level <= ss[j].level
  }

  /** The sort key: each member's level, as read before the sort. */
  function LevelKey(ss: seq<Space.Space>): (key: map<Space.Space, real>)
    reads ss
    ensures Sorting.Keyed(ss, key)
  {
    map s | s in ss :: s.level
  }

  // ---------------------------------------------------------------- the group

  class SpaceGroup {
    const id: nat
    var name: string
    var spaces: seq<Space.Space>

    /** Every member is a well-formed space. */
    predicate Valid()
      reads this, spaces
    {
      forall i :: 0 <= i < |spaces| ==> spaces[i].Valid()
    }

    /** A new group: an empty list, an empty name and the given identifier. */
    constructor (newId: nat)
      ensures Valid() && spaces == [] && name == "" && id == newId
    {
      id := newId;
      name := "";
      spaces := [];
    }

    /** indices: 0, 1, ... up to the member count. */
    function Indices(): (r: seq<int>)
      reads this
      ensures |r| == |spaces|
      ensures forall i :: 0 <= i < |r| ==> r[i] == i
    {
      seq(|spaces|, i => i)
    }

    /** count: as many as there are indices. */
    function Count(): (r: nat)
      reads this
      ensures r == |Indices()|
    {
      |spaces|
    }

    /** area: the members' areas summed in list order; None if one has no boundary. */
    method Area() returns (r: Option<real>)
      ensures r == Total(Areas(spaces))
    {
      var total := Some(0.0);
      var i := 0;
      while i < |spaces|
        invariant 0 <= i <= |spaces|
        invariant total.Some? && total == TotalUpTo(Areas(spaces), i)
      {
        var a := spaces[i].Area();
        if a.None? {
          assert Areas(spaces)[i].None?;
          return None;
        }
        total := Some(total.value + a.value);
        i := i + 1;
      }
      r := total;
    }

    /** volume: the members' volumes summed in list order; None if one has no boundary. */
    method Volume() returns (r: Option<real>)
      ensures r == Total(Volumes(spaces))
    {
      var total := Some(0.0);
      var i := 0;
      while i < |spaces|
        invariant 0 <= i <= |spaces|
        invariant total.Some? && total == TotalUpTo(Volumes(spaces), i)
      {
        var v := spaces[i].Volume();
        if v.None? {
          assert Volumes(spaces)[i].None?;
          return None;
        }
        total := Some(total.value + v.value);
        i := i + 1;
      }
      r := total;
    }

    /**
     * by_level: sorts the list in place by level, reading each member's level
     * once; the getter itself returns None.
     */
    method ByLevel()
      requires Valid()
      modifies this
      ensures Valid() && name == old(name)
      ensures multiset(spaces) == multiset(old(spaces)) && LevelSorted(spaces)
      ensures spaces == Sorting.SortBy(old(spaces), old(LevelKey(spaces)))
    {
      var key: map<Space.Space, real> := map[];
      var i := 0;
      while i < |spaces|
        invariant 0 <= i <= |spaces|
        invariant key == LevelKey(spaces[..i])
      {
        assert spaces[..i + 1] == spaces[..i] + [spaces[i]];
        key := key[spaces[i] := spaces[i].level];
        i := i + 1;
      }
      assert spaces[..i] == spaces;
      var sorted := Sorting.SortBy(spaces, key);
      assert forall j :: 0 <= j < |sorted| ==> sorted[j] in spaces by {
        forall j | 0 <= j < |sorted| ensures sorted[j] in spaces {
          assert sorted[j] in multiset(sorted);
        }
      }
      spaces := sorted;
    }

    /** add: appends the given spaces one by one, in order. */
    method Add(more: seq<Space.Space>) returns (ok: bool)
      requires Valid() && forall s :: s in more ==> s.Valid()
      modifies this
      ensures Valid() && ok && name == old(name)
      ensures spaces == old(spaces) + more
    {
      var i := 0;
      while i < |more|
        invariant 0 <= i <= |more|
        invariant spaces == old(spaces) + more[..i] && name == old(name)
      {
        assert more[..i + 1] == more[..i] + [more[i]];
        spaces := spaces + [more[i]];
        i := i + 1;
      }
      assert more[..i] == more;
      ok := true;
    }

    /** clear: the list becomes empty. */
    method Clear() returns (ok: bool)
      modifies this
      ensures Valid() && ok && spaces == [] && name == old(name)
    {
      spaces := [];
      ok := true;
    }

    /** delete: after int(index), calling the list raises, so it reports False and deletes nothing. */
    method Delete(index: int) returns (ok: bool)
      ensures !ok
    {
      ok := false;
    }

    /**
     * moveBy: a truthy index reports False and moves nothing; otherwise every
     * member is moved in list order.  A member listed twice is moved twice, so
     * the effect on each member is stated for a list without repeats.
     */
    method MoveBy(x: real, y: real, z: real, index: int) returns (ok: bool)
      requires Valid()
      modifies spaces
      ensures Valid()
      ensures ok <==> index == 0
      ensures !ok ==> forall s :: s in spaces ==> Same(s)
      ensures ok && Distinct(spaces) ==> forall i :: 0 <= i < |spaces| ==> MovedBy(spaces[i], x, y, z)
    {
      if index != 0 {
        return false;
      }
      ghost var distinct := Distinct(spaces);
      var i := 0;
      while i < |spaces|
        invariant 0 <= i <= |spaces|
        invariant Valid()
        invariant distinct ==> forall j :: 0 <= j < i ==> MovedBy(spaces[j], x, y, z)
        invariant distinct ==> forall j :: i <= j < |spaces| ==> Same(spaces[j])
      {
        ghost var others := distinct ==> forall j :: 0 <= j < |spaces| && j != i ==> spaces[j] != spaces[i];
        assert others;
        MoveMember(spaces[i], x, y, z);
        i := i + 1;
      }
      ok := true;
    }

    /** moveTo: moveBy of the vector from one point to the other, with the same index rule. */
    method MoveTo(fromPnt: Point3, toPnt: Point3, index: int) returns (ok: bool)
      requires Valid()
      modifies spaces
      ensures Valid()
      ensures ok <==> index == 0
      ensures !ok ==> forall s :: s in spaces ==> Same(s)
      ensures ok && Distinct(spaces) ==> forall i :: 0 <= i < |spaces| ==>
        MovedBy(spaces[i], toPnt.x - fromPnt.x, toPnt.y - fromPnt.y, toPnt.z - fromPnt.z)
    {
      if index != 0 {
        return false;
      }
      ghost var distinct := Distinct(spaces);
      ghost var dx, dy, dz := toPnt.x - fromPnt.x, toPnt.y - fromPnt.y, toPnt.z - fromPnt.z;
      var i := 0;
      while i < |spaces|
        invariant 0 <= i <= |spaces|
        invariant Valid()
        invariant distinct ==> forall j :: 0 <= j < i ==> MovedBy(spaces[j], dx, dy, dz)
        invariant distinct ==> forall j :: i <= j < |spaces| ==> Same(spaces[j])
      {
        ghost var others := distinct ==> forall j :: 0 <= j < |spaces| && j != i ==> spaces[j] != spaces[i];
        assert others;
        MoveMemberTo(spaces[i], fromPnt, toPnt);
        i := i + 1;
      }
      ok := true;
    }

    /**
     * scale: a truthy index outside 0 .. count - 1 reports False and changes
     * nothing; a valid one scales that member alone; a falsy one scales every
     * member in list order.
     */
    method Scale(x: real, y: real, z: real, pivot: Point2, index: int) returns (ok: bool)
      requires Valid()
      modifies spaces
      ensures Valid()
      ensures ok <==> index == 0 || 0 <= index < |spaces|
      ensures !ok ==> forall s :: s in spaces ==> Same(s)
      ensures ok && index != 0 ==> ScaledBy(spaces[index], x, y, z, pivot)
      ensures ok && index != 0 ==> forall s :: s in spaces && s != spaces[index] ==> Same(s)
      ensures ok && index == 0 && Distinct(spaces) ==> forall i :: 0 <= i < |spaces| ==> ScaledBy(spaces[i], x, y, z, pivot)
    {
      if index != 0 {
        if index > |spaces| - 1 || index < 0 {
          return false;
        }
        ScaleMember(spaces[index], x, y, z, pivot);
        return true;
      }
      ghost var distinct := Distinct(spaces);
      var i := 0;
      while i < |spaces|
        invariant 0 <= i <= |spaces|
        invariant Valid()
        invariant distinct ==> forall j :: 0 <= j < i ==> ScaledBy(spaces[j], x, y, z, pivot)
        invariant distinct ==> forall j :: i <= j < |spaces| ==> Same(spaces[j])
      {
        ghost var others := distinct ==> forall j :: 0 <= j < |spaces| && j != i ==> spaces[j] != spaces[i];
        assert others;
        ScaleMember(spaces[i], x, y, z, pivot);
        i := i + 1;
      }
      ok := true;
    }

    /** setHeight: a truthy index reports False; otherwise every member takes the height. */
    method SetHeight(value: real, index: int) returns (ok: bool)
      requires Valid()
      modifies spaces
      ensures Valid()
      ensures ok <==> index == 0
      ensures !ok ==> forall s :: s in spaces ==> Same(s)
      ensures ok ==> forall s :: s in spaces ==> s.height == value && s.ring == old(s.ring) && s.level == old(s.level)
    {
      if index != 0 {
        return false;
      }
      var i := 0;
      while i < |spaces|
        invariant 0 <= i <= |spaces|
        invariant Valid()
        invariant forall j :: 0 <= j < |spaces| ==> spaces[j].ring == old(spaces[j].ring) && spaces[j].level == old(spaces[j].level)
        invariant forall j :: 0 <= j < i ==> spaces[j].height == value
      {
        spaces[i].SetHeight(value);
        i := i + 1;
      }
      ok := true;
    }

    /** setLevel: a truthy index reports False; otherwise every member takes the level. */
    method SetLevel(value: real, index: int) returns (ok: bool)
      requires Valid()
      modifies spaces
      ensures Valid()
      ensures ok <==> index == 0
      ensures !ok ==> forall s :: s in spaces ==> Same(s)
      ensures ok ==> forall s :: s in spaces ==> s.level == value && s.ring == old(s.ring) && s.height == old(s.height)
    {
      if index != 0 {
        return false;
      }
      var i := 0;
      while i < |spaces|
        invariant 0 <= i <= |spaces|
        invariant Valid()
        invariant forall j :: 0 <= j < |spaces| ==> spaces[j].ring == old(spaces[j].ring) && spaces[j].height == old(spaces[j].height)
        invariant forall j :: 0 <= j < i ==> spaces[j].level == value
      {
        spaces[i].SetLevel(value);
        i := i + 1;
      }
      ok := true;
    }

    /** setName: a truthy index reports False; otherwise every member takes the name. */
    method SetName(value: string, index: int) returns (ok: bool)
      requires Valid()
      modifies spaces
      ensures Valid()
      ensures ok <==> index == 0
      ensures !ok ==> forall s :: s in spaces ==> Same(s) && s.name == old(s.name)
      ensures ok ==> forall s :: s in spaces ==> s.name == value && Same(s)
    {
      if index != 0 {
        return false;
      }
      var i := 0;
      while i < |spaces|
        invariant 0 <= i <= |spaces|
        invariant Valid()
        invariant forall j :: 0 <= j < |spaces| ==> Same(spaces[j])
        invariant forall j :: 0 <= j < i ==> spaces[j].name == value
      {
        spaces[i].SetName(value);
        i := i + 1;
      }
      ok := true;
    }
  }
}
