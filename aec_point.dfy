/**
 * The package's mutable point object: three float coordinates updated by
 * property setters, each of which restores the previous values when the
 * assignment fails part-way (an index past the end of a short tuple).
 */
module AecPoint {
  import opened Points

  /** What the tuple setter `xyz` leaves behind, as written: z receives coord[1]. */
  function AssignXYZAsWritten(p: Point3, coord: seq<real>): (r: Point3)
    ensures |coord| < 2 ==> r == p
    ensures |coord| >= 2 ==> r.x == coord[0] && r.y == coord[1] && r.z == coord[1]
  {
    if |coord| < 2 then p else Point3(coord[0], coord[1], coord[1])
  }

  /** What the tuple setter `xyz` evidently means to do: z receives coord[2]. */
  function AssignXYZ(p: Point3, coord: seq<real>): (r: Point3)
    ensures |coord| < 3 ==> r == p
    ensures |coord| >= 3 ==> r == Point3(coord[0], coord[1], coord[2])
  {
    if |coord| < 3 then p else Point3(coord[0], coord[1], coord[2])
  }

  /** As written, setting (1, 2, 3) gives z = 2, not 3. */
  lemma XYZSetterLosesZ()
    ensures AssignXYZAsWritten(Point3(0.0, 0.0, 0.0), [1.0, 2.0, 3.0]).z == 2.0
    ensures AssignXYZAsWritten(Point3(0.0, 0.0, 0.0), [1.0, 2.0, 3.0]) != Point3(1.0, 2.0, 3.0)
  {
  }

  /** The corrected setter round-trips: writing q's coordinates reads back q. */
  lemma XYZSetterRoundTrip(p: Point3, q: Point3)
    ensures AssignXYZ(p, [q.x, q.y, q.z]) == q
  {
  }

  class AecPoint {
    var x: real
    var y: real
    var z: real

    /** The coordinates as a value. */
    function XYZ(): (r: Point3)
      reads this
      ensures r.x == x && r.y == y && r.z == z
    {
      Point3(x, y, z)
    }

    /** The x and y coordinates as a planar value. */
    function XY(): (r: Point2)
      reads this
      ensures r == Points.XY(XYZ())
    {
      Point2(x, y)
    }

    constructor (x0: real := 0.0, y0: real := 0.0, z0: real := 0.0)
      ensures XYZ() == Point3(x0, y0, z0)
    {
      x, y, z := x0, y0, z0;
    }

    method SetX(v: real)
      modifies this
      ensures XYZ() == Point3(v, old(y), old(z))
    {
      x := v;
    }

    method SetY(v: real)
      modifies this
      ensures XYZ() == Point3(old(x), v, old(z))
    {
      y := v;
    }

    method SetZ(v: real)
      modifies this
      ensures XYZ() == Point3(old(x), old(y), v)
    {
      z := v;
    }

    /** Sets x and y from a tuple; a tuple shorter than two leaves the point as it was. */
    method SetXY(coord: seq<real>)
      modifies this
      ensures |coord| >= 2 ==> XY() == Point2(coord[0], coord[1])
      ensures |coord| < 2 ==> XY() == old(XY())
      ensures z == old(z)
    {
      var preX := x;
      SetX(if |coord| > 0 then coord[0] else x);
      if |coord| < 2 {
        SetX(preX);
      } else {
        SetY(coord[1]);
      }
    }

    /** The tuple setter as written: z receives coord[1]. */
    method SetXYZAsWritten(coord: seq<real>)
      modifies this
      ensures XYZ() == AssignXYZAsWritten(old(XYZ()), coord)
    {
      var preX := x;
      SetX(if |coord| > 0 then coord[0] else x);
      if |coord| < 2 {
        SetX(preX);
      } else {
        SetY(coord[1]);
        SetZ(coord[1]);
      }
    }

    /** The tuple setter as intended: z receives coord[2], and a short tuple rolls back. */
    method SetXYZ(coord: seq<real>)
      modifies this
      ensures XYZ() == AssignXYZ(old(XYZ()), coord)
    {
      var preX, preY := x, y;
      SetX(if |coord| > 0 then coord[0] else x);
      if |coord| < 2 {
        SetX(preX);
      } else {
        SetY(coord[1]);
        if |coord| < 3 {
          SetX(preX);
          SetY(preY);
        } else {
          SetZ(coord[2]);
        }
      }
    }

    /** Moves the point by (dx, dy, dz); always succeeds on numbers. */
    method MoveBy(dx: real := 0.0, dy: real := 0.0, dz: real := 0.0) returns (ok: bool)
      modifies this
      ensures ok
      ensures XYZ() == Point3(old(x) + dx, old(y) + dy, old(z) + dz)
    {
      SetX(x + dx);
      SetY(y + dy);
      SetZ(z + dz);
      ok := true;
    }
  }
}
