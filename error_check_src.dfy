/**
 * The older tree's argument checks: clamping numbers into a range and
 * building a 2D or 3D coordinate list.  A failure inside the `try` block
 * (an index past the end of the range list) is reported and gives False,
 * modelled as None.
 */
module ErrorCheckSrc {
  import opened Wrappers

  /** The range list cannot decide v: it is empty, or v lies at or above its only bound. */
  predicate RangeFails(ranger: seq<real>, v: real) {
    |ranger| == 0 || (|ranger| == 1 && !(v < ranger[0]))
  }

  /** Where one number ends up: raised to ranger[0], lowered to ranger[1], or kept. */
  function Clamp(ranger: seq<real>, v: real): real
    requires !RangeFails(ranger, v)
  {
    if v < ranger[0] then ranger[0] else if v > ranger[1] then ranger[1] else v
  }

  /** With an ordered range the clamped value lies in it, and values already in it are kept. */
  lemma ClampInRange(ranger: seq<real>, v: real)
    requires |ranger| >= 2 && ranger[0] <= ranger[1]
    ensures ranger[0] <= Clamp(ranger, v) <= ranger[1]
    ensures ranger[0] <= v <= ranger[1] ==> Clamp(ranger, v) == v
    ensures Clamp(ranger, Clamp(ranger, v)) == Clamp(ranger, v)
  {
  }

  /** aecErrorCheck.inRange: every number clamped, in order. */
  method InRange(ranger: seq<real>, numbers: seq<real>) returns (r: Option<seq<real>>)
    ensures r.None? <==> exists i :: 0 <= i < |numbers| && RangeFails(ranger, numbers[i])
    ensures r.Some? ==> (|r.value| == |numbers| &&
      forall i :: 0 <= i < |numbers| ==> r.value[i] == Clamp(ranger, numbers[i]))
  {
    var newNumbers: seq<real> := [];
    for i := 0 to |numbers|
      invariant |newNumbers| == i
      invariant forall k :: 0 <= k < i ==> !RangeFails(ranger, numbers[k]) && newNumbers[k] == Clamp(ranger, numbers[k])
    {
      var number := numbers[i];
      if |ranger| == 0 {
        return None;
      }
      if number < ranger[0] {
        number := ranger[0];
      } else if |ranger| < 2 {
        return None;
      } else if number > ranger[1] {
        number := ranger[1];
      }
      newNumbers := newNumbers + [number];
    }
    return Some(newNumbers);
  }

  /** aecErrorCheck.isPoint: fails for fewer than two coordinates, else keeps the first two or three. */
  method IsPoint(coords: seq<real>) returns (r: Option<seq<real>>)
    ensures |coords| < 2 <==> r.None?
    ensures r.Some? ==> |r.value| == (if |coords| > 2 then 3 else 2) && r.value == coords[..|r.value|]
  {
    if |coords| < 2 {
      return None;
    }
    var newCoords: seq<real> := [];
    newCoords := newCoords + [coords[0]];
    newCoords := newCoords + [coords[1]];
    if |coords| > 2 {
      newCoords := newCoords + [coords[2]];
    }
    return Some(newCoords);
  }
}
