/**
 * Python's list.sort(key = ...) over a list of references, with the key of
 * every member read once beforehand into a map.  The sort is an insertion
 * sort that puts each element after every element of no greater key, which
 * keeps equal keys in their original order as Python's sort does
 * (SortStable).
 */
module Sorting {
  predicate Keyed<T(==)>(s: seq<T>, key: map<T, real>) {
    forall i :: 0 <= i < |s| ==> s[i] in key
  }

  predicate SortedBy<T(==)>(s: seq<T>, key: map<T, real>)
    requires Keyed(s, key)
  {
    forall i, j :: 0 <= i < j < |s| ==> key[s[i]] <= key[s[j]]
  }

  /** Insert after every element whose key is no greater. */
  function InsertBy<T(==)>(x: T, s: seq<T>, key: map<T, real>): (r: seq<T>)
    requires x in key && Keyed(s, key) && SortedBy(s, key)
    ensures multiset(r) == multiset(s) + multiset{x}
    ensures Keyed(r, key) && SortedBy(r, key)
  {
    if s == [] then [x]
    else if key[x] < key[s[0]] then [x] + s
    else
      assert s == [s[0]] + s[1..];
      var t := InsertBy(x, s[1..], key);
      HeadBelow(s, x, t, key);
      ConsSorted(s[0], t, key);
      [s[0]] + t
  }

  /** The head of a sorted list bounds the rest with x inserted, if it bounds x. */
  lemma HeadBelow<T>(s: seq<T>, x: T, t: seq<T>, key: map<T, real>)
    requires s != [] && x in key && Keyed(s, key) && SortedBy(s, key) && key[s[0]] <= key[x]
    requires multiset(t) == multiset(s[1..]) + multiset{x} && Keyed(t, key)
    ensures forall k :: 0 <= k < |t| ==> key[s[0]] <= key[t[k]]
  {
    forall k | 0 <= k < |t| ensures key[s[0]] <= key[t[k]] {
      assert t[k] in multiset(t);
      if t[k] != x {
        assert t[k] in multiset(s[1..]);
        var m :| 0 <= m < |s[1..]| && s[1..][m] == t[k];
        assert s[m + 1] == t[k];
      }
    }
  }

  /** A head no greater than every element keeps a sorted list sorted. */
  lemma ConsSorted<T>(h: T, t: seq<T>, key: map<T, real>)
    requires h in key && Keyed(t, key) && SortedBy(t, key)
    requires forall k :: 0 <= k < |t| ==> key[h] <= key[t[k]]
    ensures Keyed([h] + t, key) && SortedBy([h] + t, key)
  {
    var r := [h] + t;
    forall i, j | 0 <= i < j < |r| ensures key[r[i]] <= key[r[j]] {
      assert r[j] == t[j - 1];
      if i > 0 { assert r[i] == t[i - 1]; }
    }
  }

  /** The sorted list: a permutation of the input, in ascending key order. */
  function SortBy<T(==)>(s: seq<T>, key: map<T, real>): (r: seq<T>)
    requires Keyed(s, key)
    ensures multiset(r) == multiset(s)
    ensures Keyed(r, key) && SortedBy(r, key)
  {
    if s == [] then []
    else
      var front := s[..|s| - 1];
      assert s == front + [s[|s| - 1]];
      InsertBy(s[|s| - 1], SortBy(front, key), key)
  }

  /** Sorting a list already in order changes nothing. */
  lemma {:induction false} SortSorted<T>(s: seq<T>, key: map<T, real>)
    requires Keyed(s, key) && SortedBy(s, key)
    ensures SortBy(s, key) == s
  {
    if s != [] {
      var front, last := s[..|s| - 1], s[|s| - 1];
      assert SortedBy(front, key);
      SortSorted(front, key);
      InsertLast(last, front, key);
      assert front + [last] == s;
    }
  }

  /** An element of no smaller key than all others goes to the end. */
  lemma {:induction false} InsertLast<T>(x: T, s: seq<T>, key: map<T, real>)
    requires x in key && Keyed(s, key) && SortedBy(s, key)
    requires forall i :: 0 <= i < |s| ==> key[s[i]] <= key[x]
    ensures InsertBy(x, s, key) == s + [x]
  {
    if s != [] {
      assert Keyed(s[1..], key) && SortedBy(s[1..], key);
      InsertLast(x, s[1..], key);
      assert [s[0]] + (s[1..] + [x]) == s + [x];
    }
  }

  /** The members whose key is v, in list order. */
  function WithKey<T(==)>(s: seq<T>, key: map<T, real>, v: real): seq<T>
    requires Keyed(s, key)
  {
    if s == [] then []
    else (if key[s[0]] == v then [s[0]] else []) + WithKey(s[1..], key, v)
  }

  lemma {:induction false} WithKeyConcat<T>(a: seq<T>, b: seq<T>, key: map<T, real>, v: real)
    requires Keyed(a, key) && Keyed(b, key)
    ensures Keyed(a + b, key)
    ensures WithKey(a + b, key, v) == WithKey(a, key, v) + WithKey(b, key, v)
  {
    if a == [] {
      assert a + b == b;
    } else {
      var h := if key[a[0]] == v then [a[0]] else [];
      assert (a + b)[0] == a[0] && (a + b)[1..] == a[1..] + b;
      WithKeyConcat(a[1..], b, key, v);
      calc {
        WithKey(a + b, key, v);
        h + WithKey(a[1..] + b, key, v);
        h + (WithKey(a[1..], key, v) + WithKey(b, key, v));
        (h + WithKey(a[1..], key, v)) + WithKey(b, key, v);
      }
    }
  }

  /** A sorted list whose first key exceeds v has no member of key v. */
  lemma {:induction false} WithKeyAbove<T>(s: seq<T>, key: map<T, real>, v: real)
    requires Keyed(s, key) && SortedBy(s, key)
    requires s != [] ==> v < key[s[0]]
    ensures WithKey(s, key, v) == []
  {
    if |s| > 1 {
      assert key[s[0]] <= key[s[1]];
      WithKeyAbove(s[1..], key, v);
    }
  }

  function KeyIs<T>(x: T, key: map<T, real>, v: real): seq<T>
    requires x in key
  {
    if key[x] == v then [x] else []
  }

  /** Inserting x puts it after every member of equal key. */
  lemma {:induction false} WithKeyInsert<T>(x: T, s: seq<T>, key: map<T, real>, v: real)
    requires x in key && Keyed(s, key) && SortedBy(s, key)
    ensures WithKey(InsertBy(x, s, key), key, v) == WithKey(s, key, v) + KeyIs(x, key, v)
  {
    if s == [] {
      assert InsertBy(x, s, key) == [x];
      assert WithKey([x], key, v) == KeyIs(x, key, v) + WithKey([], key, v);
    } else if key[x] < key[s[0]] {
      assert InsertBy(x, s, key) == [x] + s;
      InsertFront(x, s, key, v);
    } else {
      var t := InsertBy(x, s[1..], key);
      assert InsertBy(x, s, key) == [s[0]] + t;
      assert SortedBy(s[1..], key);
      WithKeyInsert(x, s[1..], key, v);
      InsertPast(x, s, t, key, v);
    }
  }

  /** x goes in front of a list whose keys all exceed its own. */
  lemma InsertFront<T>(x: T, s: seq<T>, key: map<T, real>, v: real)
    requires x in key && Keyed(s, key) && SortedBy(s, key)
    requires s != [] && key[x] < key[s[0]]
    ensures WithKey([x] + s, key, v) == WithKey(s, key, v) + KeyIs(x, key, v)
  {
    var r := [x] + s;
    assert r[0] == x && r[1..] == s;
    assert WithKey(r, key, v) == KeyIs(x, key, v) + WithKey(s, key, v);
    if key[x] == v {
      WithKeyAbove(s, key, v);
      assert KeyIs(x, key, v) + [] == [] + KeyIs(x, key, v);
    } else {
      assert KeyIs(x, key, v) == [];
    }
  }

  /** x goes past the head into the rest of the list. */
  lemma InsertPast<T>(x: T, s: seq<T>, t: seq<T>, key: map<T, real>, v: real)
    requires x in key && Keyed(s, key) && Keyed(t, key) && s != []
    requires WithKey(t, key, v) == WithKey(s[1..], key, v) + KeyIs(x, key, v)
    ensures WithKey([s[0]] + t, key, v) == WithKey(s, key, v) + KeyIs(x, key, v)
  {
    var h := KeyIs(s[0], key, v);
    assert ([s[0]] + t)[0] == s[0] && ([s[0]] + t)[1..] == t;
    calc {
      WithKey([s[0]] + t, key, v);
      h + WithKey(t, key, v);
      h + (WithKey(s[1..], key, v) + KeyIs(x, key, v));
      (h + WithKey(s[1..], key, v)) + KeyIs(x, key, v);
    }
  }

  /**
   * The sort is stable: for every key, the members with that key come out
   * in the order they went in.
   */
  lemma {:induction false} SortStable<T>(s: seq<T>, key: map<T, real>, v: real)
    requires Keyed(s, key)
    ensures WithKey(SortBy(s, key), key, v) == WithKey(s, key, v)
  {
    if s != [] {
      var front, last := s[..|s| - 1], s[|s| - 1];
      assert s == front + [last];
      var sorted := SortBy(front, key);
      assert SortBy(s, key) == InsertBy(last, sorted, key);
      SortStable(front, key, v);
      WithKeyInsert(last, sorted, key, v);
      WithKeyConcat(front, [last], key, v);
      assert WithKey([last], key, v) == KeyIs(last, key, v) + WithKey([], key, v);
    }
  }
}
