/**
 * The package's argument validators: addresses in a 3D matrix, angles,
 * colour tuples, index lists and percentages.  Python's dynamic argument
 * types are modelled by small datatypes naming the cases the validators
 * tell apart.
 */
module AecValid {
  import opened Wrappers
  import opened Points

  /** A Python argument: a list or tuple of numbers, a single number, or None. */
  datatype Arg = Items(items: seq<real>) | Scalar(v: real) | Missing

  /** Python truthiness of an argument. */
  predicate Truthy(a: Arg) {
    match a
    case Items(s) => s != []
    case Scalar(v) => v != 0.0
    case Missing => false
  }

  /** int(x): truncation toward zero. */
  function Trunc(x: real): (n: int)
    ensures Abs(n as real) <= Abs(x) < Abs(n as real) + 1.0
    ensures (x >= 0.0 ==> n >= 0) && (x <= 0.0 ==> n <= 0)
  {
    if x >= 0.0 then x.Floor else -((-x).Floor)
  }

  /** abs(int(x)): the integer part of the magnitude. */
  function Whole(x: real): (n: nat)
    ensures n as real <= Abs(x) < n as real + 1.0
  {
    var t := Trunc(x);
    if t < 0 then -t else t
  }

  function Min(a: int, b: int): int { if a <= b then a else b }

  /**
   * aecValid.address: the first three entries as abs(int(x)); each is
   * clamped to the matching bound when bounds are given.
   */
  function Address(address: Arg, bounds: Arg): (r: Option<seq<int>>)
    ensures r.Some? <==> address.Items? && |address.items| >= 3 &&
                         (!Truthy(bounds) || (bounds.Items? && |bounds.items| >= 3))
    ensures r.Some? ==> |r.value| == 3 && forall i :: 0 <= i < 3 ==>
      0 <= r.value[i] <= Whole(address.items[i]) &&
      (Truthy(bounds) ==> r.value[i] == Min(Whole(address.items[i]), Whole(bounds.items[i]))) &&
      (!Truthy(bounds) ==> r.value[i] == Whole(address.items[i]))
  {
    if !address.Items? || |address.items| < 3 then None
    else
      var a := address.items;
      var whole := [Whole(a[0]), Whole(a[1]), Whole(a[2])];
      if !Truthy(bounds) then Some(whole)
      else if !bounds.Items? || |bounds.items| < 3 then None
      else
        var b := bounds.items;
        Some([Min(whole[0], Whole(b[0])), Min(whole[1], Whole(b[1])), Min(whole[2], Whole(b[2]))])
  }

  function AsReals(s: seq<int>): (r: seq<real>)
    ensures |r| == |s| && forall i :: 0 <= i < |s| ==> r[i] == s[i] as real
  {
    if s == [] then [] else [s[0] as real] + AsReals(s[1..])
  }

  lemma WholeOfNat(n: nat)
    ensures Whole(n as real) == n
  {
  }

  /** A validated address passes validation again unchanged, with the same bounds. */
  lemma AddressIdempotent(address: Arg, bounds: Arg)
    requires Address(address, bounds).Some?
    ensures Address(Items(AsReals(Address(address, bounds).value)), bounds) == Address(address, bounds)
  {
    var r := Address(address, bounds).value;
    var again := AsReals(r);
    forall i | 0 <= i < 3 ensures Whole(again[i]) == r[i] {
      WholeOfNat(r[i]);
    }
  }

  /** The arguments aecValid.angle tells apart; a string carries what float() makes of it. */
  datatype AngleArg = IntAngle(i: int) | FloatAngle(f: real) | StrAngle(parsed: Option<real>) | OtherAngle

  /** Python's a % 360 on a float, which takes the sign of the divisor. */
  function Mod360(a: real): (r: real)
    ensures 0.0 <= r < 360.0
  {
    a - 360.0 * (a / 360.0).Floor as real
  }

  /** aecValid.angle: abs(angle % 360), or None for an argument that is not a number. */
  function Angle(angle: AngleArg): (r: Option<real>)
    ensures r.Some? <==> angle.IntAngle? || angle.FloatAngle? || (angle.StrAngle? && angle.parsed.Some?)
    ensures r.Some? ==> 0.0 <= r.value < 360.0
    ensures angle.IntAngle? ==> r == Some((angle.i % 360) as real)
  {
    match angle
    case IntAngle(i) =>
      assert Mod360(i as real) == (i % 360) as real by { IntMod360(i); }
      Some(Abs(Mod360(i as real)))
    case FloatAngle(f) => Some(Abs(Mod360(f)))
    case StrAngle(p) => if p.Some? then Some(Abs(Mod360(p.value))) else None
    case OtherAngle => None
  }

  /** On whole numbers the float remainder agrees with the integer one. */
  lemma IntMod360(i: int)
    ensures Mod360(i as real) == (i % 360) as real
  {
    var q := i / 360;
    assert i == 360 * q + i % 360;
    var f := (i as real / 360.0).Floor;
    assert q as real <= i as real / 360.0 < q as real + 1.0;
    assert f == q;
  }

  /** An angle already in [0, 360) is returned unchanged, and a full turn changes nothing. */
  lemma AnglePeriodic(a: real)
    ensures 0.0 <= a < 360.0 ==> Angle(FloatAngle(a)) == Some(a)
    ensures Angle(FloatAngle(a + 360.0)) == Angle(FloatAngle(a))
  {
    var f := (a / 360.0).Floor;
    var g := ((a + 360.0) / 360.0).Floor;
    assert (a + 360.0) / 360.0 == a / 360.0 + 1.0;
    assert g == f + 1;
    if 0.0 <= a < 360.0 {
      assert f == 0;
    }
  }

  /** Python's int(x % 255): a component folded into 0..254. */
  function Fold255AsWritten(x: real): (c: int)
    ensures 0 <= c < 255
  {
    var m := x - 255.0 * (x / 255.0).Floor as real;
    m.Floor
  }

  /** The fold the docstring's range 0..255 calls for: `int(x % 256)`, the integer part of Python's non-negative remainder. */
  function Fold256(x: real): (c: int)
    ensures 0 <= c < 256
  {
    var m := x - 256.0 * (x / 256.0).Floor as real;
    m.Floor
  }

  /** aecValid.color as written: every entry folded modulo 255. */
  function ColorAsWritten(color: Arg): (r: Option<seq<int>>)
    ensures r.Some? <==> color.Items? && |color.items| >= 2
    ensures r.Some? ==> (|r.value| == |color.items| &&
      forall i :: 0 <= i < |r.value| ==> 0 <= r.value[i] < 255)
  {
    if !color.Items? || |color.items| < 2 then None
    else Some(seq(|color.items|, i requires 0 <= i < |color.items| => Fold255AsWritten(color.items[i])))
  }

  /** aecValid.color with every entry folded into the full byte range 0..255. */
  function Color(color: Arg): (r: Option<seq<int>>)
    ensures r.Some? <==> color.Items? && |color.items| >= 2
    ensures r.Some? ==> (|r.value| == |color.items| &&
      forall i :: 0 <= i < |r.value| ==> 0 <= r.value[i] < 256)
  {
    if !color.Items? || |color.items| < 2 then None
    else Some(seq(|color.items|, i requires 0 <= i < |color.items| => Fold256(color.items[i])))
  }

  /** As written, full white (255, 255, 255) comes back as black. */
  lemma ColorLosesWhite()
    ensures ColorAsWritten(Items([255.0, 255.0, 255.0])) == Some([0, 0, 0])
  {
    assert Fold255AsWritten(255.0) == 0 by {
      assert (255.0 / 255.0).Floor == 1;
    }
    var r := ColorAsWritten(Items([255.0, 255.0, 255.0])).value;
    assert |r| == 3 && r[0] == 0 && r[1] == 0 && r[2] == 0;
    assert r == [0, 0, 0];
  }

  /** As written, the fold keeps 0..254 but sends 255 to 0. */
  lemma Fold255Bytes(n: int)
    requires 0 <= n < 256
    ensures n < 255 ==> Fold255AsWritten(n as real) == n
    ensures n == 255 ==> Fold255AsWritten(n as real) == 0
  {
  }

  /** The corrected fold keeps every byte value, white included. */
  lemma ColorKeepsBytes(n: int)
    requires 0 <= n < 256
    ensures Fold256(n as real) == n
  {
    assert (n as real / 256.0).Floor == 0;
  }

  /** Lists of whole numbers, as aecValid.indices builds and returns them. */
  predicate Ascending(s: seq<int>) {
    forall i, j :: 0 <= i < j < |s| ==> s[i] <= s[j]
  }

  predicate Descending(s: seq<int>) {
    forall i, j :: 0 <= i < j < |s| ==> s[i] >= s[j]
  }

  function InsertInt(x: int, s: seq<int>): (r: seq<int>)
    requires Ascending(s)
    ensures Ascending(r) && multiset(r) == multiset(s) + multiset{x}
  {
    if s == [] || x <= s[0] then [x] + s
    else
      var t := InsertInt(x, s[1..]);
      assert s == [s[0]] + s[1..];
      LowerBound(s[0], x, s[1..], t);
      AscendingCons(s[0], t);
      [s[0]] + t
  }

  /** Every entry of t, a rearrangement of s with x added, is at least lo when x and every entry of s are. */
  lemma LowerBound(lo: int, x: int, s: seq<int>, t: seq<int>)
    requires lo <= x && forall i :: 0 <= i < |s| ==> lo <= s[i]
    requires multiset(t) == multiset(s) + multiset{x}
    ensures forall i :: 0 <= i < |t| ==> lo <= t[i]
  {
    forall i | 0 <= i < |t| ensures lo <= t[i] {
      assert t[i] in multiset(t);
      if t[i] != x {
        assert t[i] in multiset(s);
        var j :| 0 <= j < |s| && s[j] == t[i];
      }
    }
  }

  lemma AscendingCons(a: int, t: seq<int>)
    requires Ascending(t) && forall i :: 0 <= i < |t| ==> a <= t[i]
    ensures Ascending([a] + t)
  {
    var u := [a] + t;
    forall i, j | 0 <= i < j < |u| ensures u[i] <= u[j] {
      assert u[j] == t[j - 1];
      if i > 0 { assert u[i] == t[i - 1]; }
    }
  }

  /** Python's list.sort() on integers. */
  function Sort(s: seq<int>): (r: seq<int>)
    ensures Ascending(r) && multiset(r) == multiset(s)
  {
    if s == [] then []
    else
      assert s == [s[0]] + s[1..];
      InsertInt(s[0], Sort(s[1..]))
  }

  function ReverseInts(s: seq<int>): (r: seq<int>)
    ensures |r| == |s| && forall i :: 0 <= i < |s| ==> r[i] == s[|s| - 1 - i]
    ensures multiset(r) == multiset(s)
  {
    if s == [] then []
    else
      assert s == [s[0]] + s[1..];
      ReverseInts(s[1..]) + [s[0]]
  }

  /** The entries of s that are at most bound. */
  function AtMost(s: seq<int>, bound: int): (r: seq<int>)
    ensures forall x :: x in r <==> x in s && x <= bound
  {
    if s == [] then []
    else (if s[0] <= bound then [s[0]] else []) + AtMost(s[1..], bound)
  }

  lemma {:induction false} AtMostAll(s: seq<int>, bound: int)
    requires forall i :: 0 <= i < |s| ==> s[i] <= bound
    ensures AtMost(s, bound) == s
  {
    if s != [] {
      AtMostAll(s[1..], bound);
    }
  }

  lemma {:induction false} AtMostNone(s: seq<int>, bound: int)
    requires forall i :: 0 <= i < |s| ==> s[i] > bound
    ensures AtMost(s, bound) == []
  {
    if s != [] {
      AtMostNone(s[1..], bound);
    }
  }

  lemma {:induction false} AtMostConcat(s: seq<int>, t: seq<int>, bound: int)
    ensures AtMost(s + t, bound) == AtMost(s, bound) + AtMost(t, bound)
  {
    if s == [] {
      assert s + t == t;
    } else {
      var st := s + t;
      assert st[0] == s[0] && st[1..] == s[1..] + t;
      AtMostConcat(s[1..], t, bound);
      var h := if s[0] <= bound then [s[0]] else [];
      var a, b := AtMost(s[1..], bound), AtMost(t, bound);
      assert AtMost(st, bound) == h + (a + b);
      assert AtMost(s, bound) == h + a;
      assert h + (a + b) == (h + a) + b;
    }
  }

  /** What aecValid.indices keeps: everything, or only the entries below a positive limit. */
  function Kept(s: seq<int>, limit: int): seq<int> {
    if limit > 0 then AtMost(s, limit - 1) else s
  }

  /**
   * aecValid.indices: [] with no indices and no limit; [0, limit) with no
   * indices; otherwise the whole parts of the indices, sorted, without the
   * ones beyond a positive limit.  A limit of None is given as 0, which
   * Python treats the same way.
   */
  method Indices(indices: Arg, limit: int) returns (r: Option<seq<int>>)
    ensures !Truthy(indices) && limit == 0 ==> r == Some([])
    ensures !Truthy(indices) && limit != 0 ==> (r.Some? && |r.value| == (if limit > 0 then limit else 0) &&
      forall i :: 0 <= i < |r.value| ==> r.value[i] == i)
    ensures Truthy(indices) ==> (r.Some? && Ascending(r.value) &&
      multiset(r.value) == multiset(Kept(Truncated(indices), limit)))
  {
    if !Truthy(indices) && limit == 0 {
      return Some([]);
    }
    if !Truthy(indices) {
      var range := Range(limit);
      return Some(range);
    }
    var list := SortKept(Truncated(indices), limit);
    return Some(list);
  }

  /** Sorts the whole indices and, under a positive limit, keeps those below it. */
  method SortKept(t: seq<int>, limit: int) returns (list: seq<int>)
    ensures Ascending(list) && multiset(list) == multiset(Kept(t, limit))
  {
    var sorted := Sort(t);
    if limit > 0 {
      SameAtMost(sorted, t, limit - 1);
      list := KeepBelow(sorted, limit);
      assert Kept(t, limit) == AtMost(t, limit - 1);
    } else {
      list := sorted;
    }
  }

  /** The limit step of aecValid.indices on a sorted list: reverse, drop the front, sort again. */
  method KeepBelow(sorted: seq<int>, limit: int) returns (list: seq<int>)
    requires Ascending(sorted) && limit > 0
    ensures Ascending(list)
    ensures multiset(list) == multiset(AtMost(sorted, limit - 1))
  {
    var reversed := ReverseInts(sorted);
    ReverseDescending(sorted, reversed);
    var kept := DropAbove(reversed, limit - 1);
    SameAtMost(reversed, sorted, limit - 1);
    assert multiset(kept) == multiset(AtMost(sorted, limit - 1));
    list := Sort(kept);
  }

  /** Entries of the same multiset keep the same entries at most a bound. */
  lemma SameAtMost(s: seq<int>, t: seq<int>, bound: int)
    requires multiset(s) == multiset(t)
    ensures multiset(AtMost(s, bound)) == multiset(AtMost(t, bound))
  {
    AtMostCounts(s, bound);
    AtMostCounts(t, bound);
    var ms, mt := multiset(AtMost(s, bound)), multiset(AtMost(t, bound));
    forall x ensures ms[x] == mt[x] {
      assert ms[x] == if x <= bound then multiset(s)[x] else 0;
      assert mt[x] == if x <= bound then multiset(t)[x] else 0;
    }
    assert ms == mt;
  }

  lemma ReverseDescending(s: seq<int>, r: seq<int>)
    requires Ascending(s)
    requires |r| == |s| && forall i :: 0 <= i < |s| ==> r[i] == s[|s| - 1 - i]
    ensures Descending(r)
  {
  }

  /** AtMost keeps every copy of an entry at most the bound and no copy of any other. */
  lemma {:induction false} AtMostCounts(s: seq<int>, bound: int)
    ensures forall x :: multiset(AtMost(s, bound))[x] == if x <= bound then multiset(s)[x] else 0
  {
    if s != [] {
      AtMostCounts(s[1..], bound);
      assert s == [s[0]] + s[1..];
    }
  }

  /** Python's list(range(0, limit)). */
  method Range(limit: int) returns (range: seq<int>)
    ensures |range| == (if limit > 0 then limit else 0)
    ensures forall i :: 0 <= i < |range| ==> range[i] == i
  {
    range := [];
    var k := 0;
    while k < limit
      invariant 0 <= k && (limit > 0 ==> k <= limit) && (limit <= 0 ==> k == 0)
      invariant |range| == k && forall i :: 0 <= i < k ==> range[i] == i
    {
      range := range + [k];
      k := k + 1;
    }
  }

  /** The `while` loop of aecValid.indices: drops the front of a descending list while it exceeds bound. */
  method DropAbove(all: seq<int>, bound: int) returns (list: seq<int>)
    requires Descending(all)
    ensures list == AtMost(all, bound)
  {
    list := all;
    var dropped := 0;
    while |list| > 0 && list[0] > bound
      invariant dropped <= |all| && list == all[dropped..]
      invariant forall i :: 0 <= i < dropped ==> all[i] > bound
      decreases |list|
    {
      list := list[1..];
      dropped := dropped + 1;
    }
    KeptAfterDrop(all, dropped, bound);
  }

  /** The indices as a list of whole numbers, a single index wrapped in a list. */
  function Truncated(indices: Arg): (r: seq<int>)
    ensures indices.Items? ==> |r| == |indices.items|
    ensures indices.Scalar? ==> r == [Trunc(indices.v)]
  {
    match indices
    case Items(s) => seq(|s|, i requires 0 <= i < |s| => Trunc(s[i]))
    case Scalar(v) => [Trunc(v)]
    case Missing => []
  }

  /**
   * Dropping the front of a descending list while it exceeds the bound leaves
   * exactly the entries at most the bound.
   */
  lemma KeptAfterDrop(all: seq<int>, dropped: nat, bound: int)
    requires Descending(all) && dropped <= |all|
    requires forall i :: 0 <= i < dropped ==> all[i] > bound
    requires dropped == |all| || all[dropped] <= bound
    ensures AtMost(all, bound) == all[dropped..]
  {
    assert all == all[..dropped] + all[dropped..];
    AtMostConcat(all[..dropped], all[dropped..], bound);
    AtMostNone(all[..dropped], bound);
    AtMostAll(all[dropped..], bound);
  }

  function Pow10(k: nat): (p: real)
    ensures p >= 1.0
  {
    if k == 0 then 1.0 else 10.0 * Pow10(k - 1)
  }

  /**
   * aecValid.percent: |x|, divided by ten until it is at most 1.  The result
   * is |x| scaled down by a power of ten, lies in [0, 1], and is above 0.1
   * whenever a division took place.
   */
  method Percent(number: real) returns (r: real, ghost k: nat)
    ensures 0.0 <= r <= 1.0
    ensures r * Pow10(k) == Abs(number)
    ensures Abs(number) <= 1.0 ==> r == Abs(number) && k == 0
    ensures Abs(number) > 1.0 ==> r > 0.1
  {
    r := Abs(number);
    k := 0;
    if r >= 0.0 && r <= 1.0 {
      return;
    }
    while r > 1.0
      invariant r * Pow10(k) == Abs(number)
      invariant r > 0.1
      decreases r.Floor
    {
      ghost var before := r;
      r := r * 0.1;
      k := k + 1;
      assert r.Floor < before.Floor by {
        assert r <= before * 0.1;
      }
    }
  }
}
