/**
 * The root-level argument checks.  Its inRange is the same code as the
 * older tree's (ErrorCheckSrc.InRange); isPoint returns an empty list, not
 * False, for too few coordinates.
 */
module ErrorCheck {

  /** aecErrorCheck.isPoint: [] for fewer than two coordinates, else the first two or three. */
  method IsPoint(coords: seq<real>) returns (r: seq<real>)
    ensures |coords| < 2 ==> r == []
    ensures |coords| >= 2 ==> |r| == (if |coords| > 2 then 3 else 2) && r == coords[..|r|]
  {
    var newCoords: seq<real> := [];
    if |coords| > 1 {
      newCoords := newCoords + [coords[0]];
      newCoords := newCoords + [coords[1]];
    }
    if |coords| > 2 {
      newCoords := newCoords + [coords[2]];
    }
    return newCoords;
  }
}
