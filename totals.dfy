/**
 * Python's running sum over the members' values: `total = 0`, then
 * `total += value` for each member in turn, where adding None raises.
 */
module Totals {
  import opened Wrappers

  /** Python's `+` on two members' values: a missing value makes the sum raise. */
  function Plus(a: Option<real>, b: Option<real>): Option<real> {
    if a.Some? && b.Some? then Some(a.value + b.value) else None
  }

  /** The running total a loop builds from 0, adding the first n values in turn. */
  function TotalUpTo(xs: seq<Option<real>>, n: nat): (r: Option<real>)
    requires n <= |xs|
    ensures r.Some? <==> forall i :: 0 <= i < n ==> xs[i].Some?
  {
    if n == 0 then Some(0.0) else Plus(TotalUpTo(xs, n - 1), xs[n - 1])
  }

  function Total(xs: seq<Option<real>>): Option<real> {
    TotalUpTo(xs, |xs|)
  }

  /** The running total over a concatenation picks up where the first part's total ends. */
  lemma {:induction false} TotalUpToConcat(a: seq<Option<real>>, b: seq<Option<real>>, k: nat)
    requires k <= |b|
    ensures TotalUpTo(a + b, |a| + k) == Plus(Total(a), TotalUpTo(b, k))
  {
    if k == 0 {
      SamePrefixTotal(a + b, a, |a|);
    } else {
      TotalUpToConcat(a, b, k - 1);
      assert (a + b)[|a| + k - 1] == b[k - 1];
    }
  }

  /** The running total of the first n values depends only on those values. */
  lemma {:induction false} SamePrefixTotal(xs: seq<Option<real>>, ys: seq<Option<real>>, n: nat)
    requires n <= |xs| && n <= |ys| && forall i :: 0 <= i < n ==> xs[i] == ys[i]
    ensures TotalUpTo(xs, n) == TotalUpTo(ys, n)
  {
    if n > 0 {
      SamePrefixTotal(xs, ys, n - 1);
    }
  }

  /** Totals add up over a concatenation. */
  lemma TotalConcat(a: seq<Option<real>>, b: seq<Option<real>>)
    ensures Total(a + b) == Plus(Total(a), Total(b))
  {
    TotalUpToConcat(a, b, |b|);
  }

  /** A total of values that are all present is at least 0 when each is. */
  lemma {:induction false} TotalNonNegative(xs: seq<Option<real>>, n: nat)
    requires n <= |xs|
    requires forall i :: 0 <= i < n ==> xs[i].Some? && xs[i].value >= 0.0
    ensures TotalUpTo(xs, n).Some? && TotalUpTo(xs, n).value >= 0.0
  {
    if n > 0 {
      TotalNonNegative(xs, n - 1);
    }
  }
}
