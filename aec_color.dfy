/**
 * The package's colour object: three 8-bit channels and an alpha component,
 * each stored as the integer part of the magnitude of what was given,
 * wrapped to 0..255.
 */
module AecColor {
  import opened Points

  /** int(abs(v)) % 256: the integer part of |v|, wrapped to one byte. */
  function Channel(v: real): (c: int)
    ensures 0 <= c < 256
    ensures exists k: int :: c == Abs(v).Floor - 256 * k
  {
    var n := Abs(v).Floor;
    assert n == n % 256 + 256 * (n / 256);
    n % 256
  }

  /** Whole numbers already in range are stored as given, whatever their sign. */
  lemma ChannelKeepsByte(n: int)
    requires -256 < n < 256
    ensures Channel(n as real) == Abs(n as real).Floor
    ensures 0 <= n ==> Channel(n as real) == n
  {
    var a := Abs(n as real);
    assert a == (if n < 0 then -n else n) as real;
    assert a.Floor == (if n < 0 then -n else n);
  }

  /** A channel written back is stored unchanged: the setter is idempotent. */
  lemma ChannelIdempotent(v: real)
    ensures Channel(Channel(v) as real) == Channel(v)
  {
    ChannelKeepsByte(Channel(v));
  }

  class AecColor {
    var red: int
    var green: int
    var blue: int
    var alpha: int

    /** Every component is one byte. */
    predicate Valid()
      reads this
    {
      0 <= red < 256 && 0 <= green < 256 && 0 <= blue < 256 && 0 <= alpha < 256
    }

    /** The colour getter: the last stored (r, g, b). */
    function Color(): (rgb: (int, int, int))
      reads this
      ensures rgb.0 == red && rgb.1 == green && rgb.2 == blue
    {
      (red, green, blue)
    }

    /** A new colour is white with alpha 0. */
    constructor ()
      ensures Valid()
      ensures Color() == (255, 255, 255) && alpha == 0
    {
      red, green, blue, alpha := 255, 255, 255, 0;
    }

    method SetAlpha(value: real)
      requires Valid()
      modifies this
      ensures Valid()
      ensures alpha == Channel(value)
      ensures Color() == old(Color())
    {
      alpha := Channel(value);
    }

    /**
     * The colour setter: a tuple whose length is not 3 is ignored; otherwise
     * every channel is wrapped to a byte.
     */
    method SetColor(value: seq<real>)
      requires Valid()
      modifies this
      ensures Valid()
      ensures |value| != 3 ==> Color() == old(Color())
      ensures |value| == 3 ==> Color() == (Channel(value[0]), Channel(value[1]), Channel(value[2]))
      ensures alpha == old(alpha)
    {
      if |value| != 3 {
        return;
      }
      var channels := [Channel(value[0]), Channel(value[1]), Channel(value[2])];
      red := channels[0];
      green := channels[1];
      blue := channels[2];
    }
  }
}
