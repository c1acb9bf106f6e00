/**
 * The older tree's aecSpaceGroup: a property dictionary holding an
 * identifier, a name, the list of member spaces and two caches, the
 * aggregate area and volume.  Every change of membership sorts the list by
 * level and resets the caches; the getters fill a cache only while it holds
 * a falsy value (None or 0).
 *
 * Of the bulk operations only the guards they open with are modelled.
 */
module SpaceGroupSrc {
  import opened Wrappers
  import opened Points
  import SpaceSrc
  import GeomCalc
  import Sorting
  import opened Totals

  /** The keys of the property dictionary, in the order the constructor writes them. */
  datatype GroupKey = IdKey | NameKey | SpacesKey | AreaKey | VolumeKey

  const Keys: seq<GroupKey> := [IdKey, NameKey, SpacesKey, AreaKey, VolumeKey]

  /** The keys __initialize keeps. */
  const Retain: seq<GroupKey> := [IdKey, NameKey, SpacesKey]

  /**
   * One item handed to addSpaces: a space; an object whose getType names
   * some other type, with what its getArea gives (None when it has no such
   * method, the call raises or the value is not a number); or an object
   * without getType, on which every call raises.
   */
  datatype Item = Member(space: SpaceSrc.Space) | Other(area: Option<real>) | Untyped

  /** addSpaces' argument: a list, or a single item that is wrapped in one. */
  datatype Arg = Many(items: seq<Item>) | One(item: Item)

  function Listed(arg: Arg): seq<Item> {
    match arg
    case Many(items) => items
    case One(item) => [item]
  }

  /** The spaces among the items, in order. */
  function Members(items: seq<Item>): (r: seq<SpaceSrc.Space>)
    ensures |r| <= |items|
    ensures forall i :: 0 <= i < |r| ==> Member(r[i]) in items
    ensures forall i :: 0 <= i < |items| && items[i].Member? ==> items[i].space in r
  {
    if items == [] then []
    else
      var rest := Members(items[1..]);
      assert items == [items[0]] + items[1..];
      if items[0].Member? then [items[0].space] + rest else rest
  }

  /** Members of a list grown by one item. */
  lemma {:induction false} MembersSnoc(items: seq<Item>, x: Item)
    ensures Members(items + [x]) == Members(items) + (if x.Member? then [x.space] else [])
  {
    if items != [] {
      assert (items + [x])[1..] == items[1..] + [x];
      MembersSnoc(items[1..], x);
    } else {
      assert [x][1..] == [];
    }
  }

  /** The falsy values of a cache: never computed, or computed as zero. */
  predicate Truthy(v: Option<real>) {
    v.Some? && v.value != 0.0
  }

  /** A member's area as its getArea reports it: None without a boundary. */
  function AreaOf(b: SpaceSrc.Basis): Option<real> {
    if b.shape.Polygon? then Some(Area(b.shape.ring)) else None
  }

  /** A member's volume as its getVolume reports it: None without a boundary. */
  function VolumeOf(b: SpaceSrc.Basis): Option<real> {
    if b.shape.Polygon? && b.height.Num? then Some(SpaceSrc.VolumeOf(b.shape.ring, b.height.r)) else None
  }

  /** What getArea (or getVolume) of a member with this settled part reports. */
  function Measure(b: SpaceSrc.Basis, ofVolume: bool): Option<real> {
    if ofVolume then VolumeOf(b) else AreaOf(b)
  }

  /** The members' areas (or volumes), in list order. */
  function Measures(ss: seq<SpaceSrc.Space>, ofVolume: bool): (r: seq<Option<real>>)
    reads ss
    ensures |r| == |ss| && forall i :: 0 <= i < |ss| ==> r[i] == Measure(ss[i].Settled(), ofVolume)
  {
    seq(|ss|, i requires 0 <= i < |ss| reads ss => Measure(ss[i].Settled(), ofVolume))
  }

  function Areas(ss: seq<SpaceSrc.Space>): seq<Option<real>> reads ss { Measures(ss, false) }

  function Volumes(ss: seq<SpaceSrc.Space>): seq<Option<real>> reads ss { Measures(ss, true) }

  /** The list is in ascending order of level. */
  predicate SortedByLevel(ss: seq<SpaceSrc.Space>)
    reads ss
  {
    forall i, j :: 0 <= i < j < |ss| ==> ss[i].Level() <= ss[j].Level()
  }

  /** The sort key: each member's level, as read before the sort. */
  function LevelKey(ss: seq<SpaceSrc.Space>): (key: map<SpaceSrc.Space, real>)
    reads ss
    ensures Sorting.Keyed(ss, key)
  {
    map s | s in ss :: s.Level()
  }

  /**
   * The getters' loop: each member's area (or volume) in turn, added to 0;
   * a member without a boundary makes the sum raise.  A member's getArea
   * and getVolume report what AreaOf and VolumeOf give for its settled part
   * (SpaceSrc.Space.GetArea, SpaceSrc.Space.GetVolume), so the loop reads that.
   */
  method SumMembers(ss: seq<SpaceSrc.Space>, ofVolume: bool) returns (r: Option<real>)
    ensures r == Total(Measures(ss, ofVolume))
  {
    ghost var xs := Measures(ss, ofVolume);
    var total := 0.0;
    var i := 0;
    while i < |ss|
      invariant 0 <= i <= |ss|
      invariant Some(total) == TotalUpTo(xs, i)
    {
      var a := Measure(ss[i].Settled(), ofVolume);
      if a.None? {
        assert Total(xs).None?;
        return None;
      }
      total := total + a.value;
      i := i + 1;
    }
    r := Some(total);
  }

  /**
   * Python's `sort(key = lambda x: x.getLevel())`: each level read once into
   * the key, then a stable sort by it.
   */
  function ByLevel(ss: seq<SpaceSrc.Space>): (sorted: seq<SpaceSrc.Space>)
    reads ss
    ensures multiset(sorted) == multiset(ss) && SortedByLevel(sorted)
    ensures forall j :: 0 <= j < |sorted| ==> sorted[j] in ss
  {
    var key := LevelKey(ss);
    var r := Sorting.SortBy(ss, key);
    assert forall j :: 0 <= j < |r| ==> r[j] in ss by {
      forall j | 0 <= j < |r| ensures r[j] in ss {
        assert r[j] in multiset(r);
      }
    }
    r
  }

  /**
   * addSpaces' loop: each item's getType is asked in turn; spaces are
   * appended, other objects skipped, and an object without getType stops the
   * loop with False.  n is the number of items examined before the stop.
   */
  method Append(ss: seq<SpaceSrc.Space>, items: seq<Item>) returns (r: seq<SpaceSrc.Space>, ok: bool, n: nat)
    ensures n <= |items| && Untyped !in items[..n] && r == ss + Members(items[..n])
    ensures ok <==> Untyped !in items
    ensures ok ==> n == |items|
    ensures !ok ==> n < |items| && items[n] == Untyped
  {
    r := ss;
    n := 0;
    while n < |items|
      invariant 0 <= n <= |items|
      invariant Untyped !in items[..n]
      invariant r == ss + Members(items[..n])
    {
      assert items[..n + 1] == items[..n] + [items[n]];
      MembersSnoc(items[..n], items[n]);
      if items[n].Untyped? {
        return r, false, n;
      }
      if items[n].Member? {
        r := r + [items[n].space];
      }
      n := n + 1;
    }
    assert items[..n] == items;
    ok := true;
  }

  /** The spaces of two lists of items joined are the two lists' spaces joined. */
  lemma {:induction false} MembersConcat(a: seq<Item>, b: seq<Item>)
    ensures Members(a + b) == Members(a) + Members(b)
  {
    if a != [] {
      assert (a + b)[0] == a[0] && (a + b)[1..] == a[1..] + b;
      MembersConcat(a[1..], b);
    } else {
      assert a + b == b;
    }
  }

  class SpaceGroup {
    var id: nat
    var name: string
    var spaces: seq<SpaceSrc.Space>
    var area: Option<real>
    var volume: Option<real>

    /** Every member is a well-formed space. */
    predicate Valid()
      reads this, spaces
    {
      forall i :: 0 <= i < |spaces| ==> spaces[i].Valid()
    }

    /** A truthy cache holds the total of the members as they are now. */
    predicate CacheFresh()
      reads this, spaces
    {
      && (Truthy(area) ==> area == Total(Areas(spaces)))
      && (Truthy(volume) ==> volume == Total(Volumes(spaces)))
    }

    /** A new group: the given identifier, an empty name and list, no caches. */
    constructor (uuid: nat)
      ensures Valid() && CacheFresh()
      ensures id == uuid && name == "" && spaces == [] && area == None && volume == None
    {
      id := uuid;
      name := "";
      spaces := [];
      area := None;
      volume := None;
    }

    /** The entry of one key that __initialize does not keep goes back to None. */
    method Reset(key: GroupKey)
      requires key !in Retain
      modifies this
      ensures key == AreaKey ==> area == None && volume == old(volume)
      ensures key == VolumeKey ==> volume == None && area == old(area)
      ensures id == old(id) && name == old(name) && spaces == old(spaces)
    {
      match key
      case AreaKey => area := None;
      case VolumeKey => volume := None;
    }

    /** __initialize: every key outside the retain-list, in dictionary order, back to None. */
    method Initialize()
      modifies this
      ensures id == old(id) && name == old(name) && spaces == old(spaces)
      ensures area == None && volume == None
    {
      for n := 0 to |Keys|
        invariant id == old(id) && name == old(name) && spaces == old(spaces)
        invariant n > 3 ==> area == None
        invariant n > 4 ==> volume == None
      {
        var key := Keys[n];
        if key !in Retain {
          Reset(key);
        }
      }
    }

    /** __sortByLevel: a non-empty list is sorted in place by each member's level. */
    method SortByLevel()
      requires Valid()
      modifies this
      ensures Valid() && id == old(id) && name == old(name)
      ensures area == old(area) && volume == old(volume)
      ensures multiset(spaces) == multiset(old(spaces)) && SortedByLevel(spaces)
      ensures spaces == Sorting.SortBy(old(spaces), old(LevelKey(spaces)))
    {
      if |spaces| != 0 {
        spaces := ByLevel(spaces);
      }
    }

    /**
     * addSpaces: the spaces among the items are appended in order, then the
     * list is sorted by level and the caches reset.  An item without getType
     * raises: the spaces before it stay appended, nothing is sorted or reset,
     * and the result is False.
     */
    method AddSpaces(arg: Arg) returns (ok: bool)
      requires Valid()
      requires forall i :: 0 <= i < |Members(Listed(arg))| ==> Members(Listed(arg))[i].Valid()
      modifies this
      ensures Valid() && id == old(id) && name == old(name)
      ensures ok <==> Untyped !in Listed(arg)
      ensures ok ==> multiset(spaces) == multiset(old(spaces) + Members(Listed(arg))) && SortedByLevel(spaces)
      ensures ok ==> area == None && volume == None && CacheFresh()
      ensures !ok ==> exists n :: 0 <= n < |Listed(arg)| && Listed(arg)[n] == Untyped && Untyped !in Listed(arg)[..n]
                        && spaces == old(spaces) + Members(Listed(arg)[..n])
      ensures !ok ==> area == old(area) && volume == old(volume)
    {
      var n;
      ok, n := Extend(Listed(arg));
      if ok {
        SortByLevel();
        Initialize();
      }
    }

    /** The appending part of addSpaces, up to the first item without getType. */
    method Extend(items: seq<Item>) returns (ok: bool, n: nat)
      requires Valid()
      requires forall i :: 0 <= i < |Members(items)| ==> Members(items)[i].Valid()
      modifies this
      ensures Valid() && id == old(id) && name == old(name) && area == old(area) && volume == old(volume)
      ensures ok <==> Untyped !in items
      ensures ok ==> spaces == old(spaces) + Members(items)
      ensures !ok ==> 0 <= n < |items| && items[n] == Untyped && Untyped !in items[..n]
                        && spaces == old(spaces) + Members(items[..n])
    {
      var grown;
      grown, ok, n := Append(spaces, items);
      assert items == items[..n] + items[n..];
      MembersConcat(items[..n], items[n..]);
      forall i | 0 <= i < |grown| ensures grown[i].Valid() {
        if i >= |spaces| {
          assert grown[i] == Members(items)[i - |spaces|];
        }
      }
      if ok {
        assert items[..n] == items;
      }
      spaces := grown;
    }

    /** clearSpaces: an empty list and reset caches; the call itself returns None. */
    method ClearSpaces()
      modifies this
      ensures Valid() && CacheFresh()
      ensures spaces == [] && area == None && volume == None && id == old(id) && name == old(name)
    {
      spaces := [];
      Initialize();
    }

    /** getCount: the number of members. */
    function GetCount(): (r: nat)
      reads this
      ensures r == |spaces|
      ensures r == 0 <==> spaces == []
    {
      |spaces|
    }

    /**
     * getArea: a truthy cache is returned as it is.  Otherwise the members'
     * areas are added to 0 in list order and the sum is cached; a member
     * without a boundary makes the sum raise, and the result is None with
     * the cache untouched.  With a fresh cache the result is the total either way.
     */
    method GetArea() returns (r: Option<real>)
      modifies this
      ensures spaces == old(spaces) && id == old(id) && name == old(name) && volume == old(volume)
      ensures Truthy(old(area)) ==> r == old(area) && area == old(area)
      ensures !Truthy(old(area)) ==> r == Total(Areas(spaces))
      ensures !Truthy(old(area)) ==> area == if r.Some? then r else old(area)
      ensures old(CacheFresh()) ==> r == Total(Areas(spaces)) && CacheFresh()
    {
      if Truthy(area) {
        return area;
      }
      r := SumMembers(spaces, false);
      if r.Some? {
        area := r;
      }
    }

    /**
     * getVolume: as getArea, over the members' volumes: a truthy cache is
     * returned, otherwise the sum is computed and cached, or None.
     */
    method GetVolume() returns (r: Option<real>)
      modifies this
      ensures spaces == old(spaces) && id == old(id) && name == old(name) && area == old(area)
      ensures Truthy(old(volume)) ==> r == old(volume) && volume == old(volume)
      ensures !Truthy(old(volume)) ==> r == Total(Volumes(spaces))
      ensures !Truthy(old(volume)) ==> volume == if r.Some? then r else old(volume)
      ensures old(CacheFresh()) ==> r == Total(Volumes(spaces)) && CacheFresh()
    {
      if Truthy(volume) {
        return volume;
      }
      r := SumMembers(spaces, true);
      if r.Some? {
        volume := r;
      }
    }

    /** setName: the group's own name. */
    method SetName(newName: string) returns (ok: bool)
      modifies this
      ensures ok && name == newName
      ensures id == old(id) && spaces == old(spaces) && area == old(area) && volume == old(volume)
    {
      name := newName;
      ok := true;
    }

    /**
     * The guard deleteSpaces, move, rotate, scale, setColor, setHeight,
     * setLevel, setNames and setTransparency open with: an empty group
     * answers False at once.  None stands for going on to checkIndices and
     * the members, which this model does not follow.
     */
    method BulkGuard() returns (r: Option<bool>)
      ensures r.Some? <==> spaces == []
      ensures r.Some? ==> !r.value
    {
      if |spaces| == 0 {
        return Some(false);
      }
      r := None;
    }

    /**
     * wrap: False when convexHull gives no points at all (no points, or one
     * point repeated), then False for an empty group; None, as for the other
     * bulk methods, stands for going on to the members.  Nothing is changed
     * on either early exit.
     */
    method Wrap(points: seq<Point2>) returns (r: Option<bool>)
      ensures r.Some? ==> !r.value
      ensures r.Some? <==> GeomCalc.HullEmpty(points) || spaces == []
    {
      var conHull, _ := GeomCalc.ConvexHull(points);
      if conHull == [] {
        return Some(false);
      }
      if |spaces| == 0 {
        return Some(false);
      }
      r := None;
    }
  }
}
