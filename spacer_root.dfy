/**
 * The root-level tree's space and its spacer.  That space keeps its
 * attributes in plain fields: three colour channels in 0..255, a height, a
 * level, a name, a 2D perimeter polygon and a transparency in 0..1.  Its
 * spacer copies a space attribute by attribute through the setters and
 * stacks copies upward.
 */
module SpacerRoot {
  import opened Points
  import ErrorCheck
  import ErrorCheckSrc
  import PackageSpace = Space

  // ---------------------------------------------------------------- the space

  /** int() of a number inRange has forced into [0, 255]; the number is never negative, so int() is the floor. */
  function Channel(v: real): (c: int)
    ensures 0 <= c <= 255
    ensures 0.0 <= v <= 255.0 && v == v.Floor as real ==> c == v.Floor
  {
    ErrorCheckSrc.ClampInRange([0.0, 255.0], v);
    ErrorCheckSrc.Clamp([0.0, 255.0], v).Floor
  }

  /** setColor's effect on channel i: replaced when the list reaches it and its channel is not 0, kept otherwise. */
  function ChannelAfter(before: int, newColor: seq<real>, i: nat): int {
    if i < |newColor| && Channel(newColor[i]) != 0 then Channel(newColor[i]) else before
  }

  class Space {
    var colorR: int
    var colorG: int
    var colorB: int
    var height: real
    var level: real
    var name: string
    var perimeter: seq<Point2>
    var transparency: real
    const id: nat

    /** The channels lie in 0..255 and the transparency in 0..1, as the setters force them. */
    predicate Valid()
      reads this
    {
      && 0 <= colorR <= 255 && 0 <= colorG <= 255 && 0 <= colorB <= 255
      && 0.0 <= transparency <= 1.0
    }

    /**
     * A new space: the channels and transparency at their class defaults of
     * 0, then unit()'s height 1, level 0 and unit-square perimeter.  The
     * constructor then calls setColor with no argument, which draws a random
     * colour and never stores it.
     */
    constructor (newId: nat)
      ensures Valid() && id == newId
      ensures colorR == 0 && colorG == 0 && colorB == 0 && transparency == 0.0 && name == ""
      ensures height == 1.0 && level == 0.0
      ensures perimeter == [Point2(0.0, 0.0), Point2(1.0, 0.0), Point2(1.0, 1.0), Point2(0.0, 1.0)]
    {
      colorR, colorG, colorB := 0, 0, 0;
      transparency := 0.0;
      name := "";
      id := newId;
      height := 1.0;
      level := 0.0;
      perimeter := [Point2(0.0, 0.0), Point2(1.0, 0.0), Point2(1.0, 1.0), Point2(0.0, 1.0)];
    }

    /**
     * setColor: with no numbers, a random colour that is never stored, and
     * True.  Otherwise the numbers are forced into [0, 255] and truncated,
     * and each of the first three replaces its channel unless it is 0; a
     * list shorter than three raises once it runs out, after the channels
     * before were set, giving False.
     */
    method SetColor(newColor: seq<real>) returns (ok: bool)
      requires Valid()
      modifies this
      ensures Valid()
      ensures ok <==> |newColor| == 0 || |newColor| >= 3
      ensures colorR == ChannelAfter(old(colorR), newColor, 0)
      ensures colorG == ChannelAfter(old(colorG), newColor, 1)
      ensures colorB == ChannelAfter(old(colorB), newColor, 2)
      ensures height == old(height) && level == old(level) && name == old(name)
      ensures perimeter == old(perimeter) && transparency == old(transparency)
    {
      if |newColor| == 0 {
        return true;
      }
      var clamped := ErrorCheckSrc.InRange([0.0, 255.0], newColor);
      var c := clamped.value;
      var ints := seq(|c|, i requires 0 <= i < |c| => c[i].Floor);
      assert forall i :: 0 <= i < |ints| ==> ints[i] == Channel(newColor[i]);
      if ints[0] != 0 {
        colorR := ints[0];
      }
      if |ints| < 2 {
        return false;
      }
      if ints[1] != 0 {
        colorG := ints[1];
      }
      if |ints| < 3 {
        return false;
      }
      if ints[2] != 0 {
        colorB := ints[2];
      }
      ok := true;
    }

    /** setHeight: float() of the argument. */
    method SetHeight(newHeight: real)
      modifies this
      ensures height == newHeight
      ensures colorR == old(colorR) && colorG == old(colorG) && colorB == old(colorB)
      ensures level == old(level) && name == old(name) && perimeter == old(perimeter) && transparency == old(transparency)
    {
      height := newHeight;
    }

    /** setLevel: float() of the argument. */
    method SetLevel(newLevel: real)
      modifies this
      ensures level == newLevel
      ensures colorR == old(colorR) && colorG == old(colorG) && colorB == old(colorB)
      ensures height == old(height) && name == old(name) && perimeter == old(perimeter) && transparency == old(transparency)
    {
      level := newLevel;
    }

    /** setPerimeter: a polygon through the given points. */
    method SetPerimeter(points: seq<Point2>)
      modifies this
      ensures perimeter == points
      ensures colorR == old(colorR) && colorG == old(colorG) && colorB == old(colorB)
      ensures height == old(height) && level == old(level) && name == old(name) && transparency == old(transparency)
    {
      perimeter := points;
    }

    /** setTransparency: the value forced into [0, 1]. */
    method SetTransparency(newTrans: real)
      modifies this
      ensures 0.0 <= transparency <= 1.0
      ensures transparency == ErrorCheckSrc.Clamp([0.0, 1.0], newTrans)
      ensures 0.0 <= newTrans <= 1.0 ==> transparency == newTrans
      ensures colorR == old(colorR) && colorG == old(colorG) && colorB == old(colorB)
      ensures height == old(height) && level == old(level) && name == old(name) && perimeter == old(perimeter)
    {
      var t := ErrorCheckSrc.InRange([0.0, 1.0], [newTrans]);
      ErrorCheckSrc.ClampInRange([0.0, 1.0], newTrans);
      transparency := t.value[0];
    }

    /**
     * move: the vector through isPoint; fewer than two coordinates raise
     * before anything changes.  The perimeter is translated by the first two,
     * then the level raised by the third; a 2D vector raises between the
     * two, so the perimeter moves and False is returned.
     */
    method Move(moveBy: seq<real>) returns (ok: bool)
      modifies this
      ensures ok <==> |moveBy| >= 3
      ensures |moveBy| < 2 ==> perimeter == old(perimeter) && level == old(level)
      ensures |moveBy| >= 2 ==> perimeter == Translate(old(perimeter), moveBy[0], moveBy[1])
      ensures level == if |moveBy| >= 3 then old(level) + moveBy[2] else old(level)
      ensures colorR == old(colorR) && colorG == old(colorG) && colorB == old(colorB)
      ensures height == old(height) && name == old(name) && transparency == old(transparency)
    {
      var v := ErrorCheck.IsPoint(moveBy);
      if |v| < 2 {
        return false;
      }
      perimeter := Translate(perimeter, v[0], v[1]);
      if |v| < 3 {
        return false;
      }
      level := level + v[2];
      ok := true;
    }
  }

  // ---------------------------------------------------------------- the spacer

  /** What a copy carries over: colour, height, level, perimeter and transparency; the name is left empty. */
  predicate Carries(c: Space, s: Space)
    reads c, s
  {
    && c.colorR == s.colorR && c.colorG == s.colorG && c.colorB == s.colorB
    && c.height == s.height && c.level == s.level && c.perimeter == s.perimeter
    && c.transparency == s.transparency && c.name == ""
  }

  /**
   * copy: a new space given the original's colour, height, level,
   * perimeter and transparency through the setters.  The channels are
   * already in range and whole, so setColor keeps each of them; one that is
   * 0 is skipped and stays the new space's 0.
   */
  method Copy(space: Space, newId: nat) returns (r: Space)
    requires space.Valid()
    ensures fresh(r) && r.Valid() && r.id == newId
    ensures Carries(r, space)
  {
    r := new Space(newId);
    var _ := r.SetColor([space.colorR as real, space.colorG as real, space.colorB as real]);
    r.SetHeight(space.height);
    r.SetLevel(space.level);
    r.SetPerimeter(space.perimeter);
    r.SetTransparency(space.transparency);
  }

  /** The levels of a stack: base, then k steps of `step` up for the k-th copy. */
  function Levels(base: real, step: real, n: nat): seq<real> {
    seq(n + 1, k requires 0 <= k => base + PackageSpace.Steps(k, step))
  }

  /** Each storey starts where the one below ends, plus the plenum. */
  predicate OnTop(levels: seq<real>, height: real, plenum: real) {
    forall k :: 0 <= k < |levels| - 1 ==> levels[k + 1] == levels[k] + height + plenum
  }

  /**
   * stacker as written: the original followed by `levels` copies, each copied
   * from the one before and moved up by one step that is computed once from
   * the original as its level plus its height plus the plenum.
   */
  method StackerAsWritten(space: Space, levels: int, plenum: real, ids: nat -> nat) returns (spaces: seq<Space>)
    requires space.Valid()
    ensures |spaces| == 1 + (if levels > 0 then levels else 0)
    ensures spaces[0] == space
    ensures forall k :: 1 <= k < |spaces| ==> fresh(spaces[k]) && spaces[k].Valid() && spaces[k].id == ids(k - 1)
    ensures forall k :: 1 <= k < |spaces| ==> Carried(spaces[k], space)
    ensures forall k :: 0 <= k < |spaces| ==>
      spaces[k].level == Levels(space.level, space.level + space.height + plenum, |spaces| - 1)[k]
  {
    spaces := Climb(space, levels, space.level + space.height + plenum, ids);
  }

  /**
   * stacker as its description says: each copy is stacked on the one below
   * by the height plus the plenum.
   */
  method Stacker(space: Space, levels: int, plenum: real, ids: nat -> nat) returns (spaces: seq<Space>)
    requires space.Valid()
    ensures |spaces| == 1 + (if levels > 0 then levels else 0)
    ensures spaces[0] == space
    ensures forall k :: 1 <= k < |spaces| ==> fresh(spaces[k]) && spaces[k].Valid() && spaces[k].id == ids(k - 1)
    ensures forall k :: 1 <= k < |spaces| ==> Carried(spaces[k], space)
    ensures forall k :: 0 <= k < |spaces| ==>
      spaces[k].level == Levels(space.level, space.height + plenum, |spaces| - 1)[k]
  {
    spaces := Climb(space, levels, space.height + plenum, ids);
  }

  /** A copy in a stack: everything but the level carried over from the original. */
  predicate Carried(c: Space, s: Space)
    reads c, s
  {
    && c.colorR == s.colorR && c.colorG == s.colorG && c.colorB == s.colorB
    && c.height == s.height && c.perimeter == s.perimeter
    && c.transparency == s.transparency && c.name == ""
  }

  /** stacker's loop, for a given step up. */
  method Climb(space: Space, levels: int, moveUp: real, ids: nat -> nat) returns (spaces: seq<Space>)
    requires space.Valid()
    ensures |spaces| == 1 + (if levels > 0 then levels else 0)
    ensures forall k :: 1 <= k < |spaces| ==> fresh(spaces[k]) && spaces[k].id == ids(k - 1)
    ensures Climbed(spaces, space, moveUp)
  {
    spaces := [space];
    var x := 0;
    while x < levels
      invariant 0 <= x <= (if levels > 0 then levels else 0) && |spaces| == x + 1
      invariant forall k :: 1 <= k < |spaces| ==> fresh(spaces[k]) && spaces[k].id == ids(k - 1)
      invariant Climbed(spaces, space, moveUp)
    {
      ghost var before := spaces;
      spaces := Rise(spaces, space, moveUp, ids(x));
      assert forall k :: 0 <= k < x + 1 ==> spaces[k] == before[k];
      x := x + 1;
    }
  }

  /**
   * A stack so far: the original first, then valid copies carrying its
   * attributes, the k-th at k steps of moveUp above it.
   */
  predicate Climbed(spaces: seq<Space>, space: Space, moveUp: real)
    reads spaces, space
  {
    && |spaces| >= 1 && spaces[0] == space
    && (forall k :: 0 <= k < |spaces| ==> spaces[k].Valid())
    && (forall k :: 1 <= k < |spaces| ==> Carried(spaces[k], space))
    && forall k :: 0 <= k < |spaces| ==> spaces[k].level == space.level + PackageSpace.Steps(k, moveUp)
  }

  /** One turn of stacker's loop: a copy of the top space, moved up by moveUp. */
  method Rise(spaces: seq<Space>, space: Space, moveUp: real, newId: nat) returns (s: seq<Space>)
    requires Climbed(spaces, space, moveUp)
    ensures |s| == |spaces| + 1 && s == spaces + [s[|spaces|]]
    ensures fresh(s[|spaces|]) && s[|spaces|].id == newId
    ensures Climbed(s, space, moveUp)
  {
    var j := |spaces| - 1;
    var current := spaces[j];
    assert current.Valid() && current.level == space.level + PackageSpace.Steps(j, moveUp);
    assert j > 0 ==> Carried(current, space);
    var newSpace := Copy(current, newId);
    var _ := newSpace.Move([0.0, 0.0, moveUp]);
    TranslateZero(current.perimeter);
    assert PackageSpace.Steps(j + 1, moveUp) == PackageSpace.Steps(j, moveUp) + moveUp;
    ClimbSnoc(spaces, newSpace, space, moveUp);
    s := spaces + [newSpace];
  }

  /** A valid copy carrying the original's attributes, one step above the top, extends a stack. */
  lemma ClimbSnoc(spaces: seq<Space>, c: Space, space: Space, moveUp: real)
    requires Climbed(spaces, space, moveUp) && c.Valid() && Carried(c, space)
    requires c.level == space.level + PackageSpace.Steps(|spaces|, moveUp)
    ensures Climbed(spaces + [c], space, moveUp)
  {
    var s := spaces + [c];
    assert forall k :: 0 <= k < |spaces| ==> s[k] == spaces[k];
  }

  /** Moving by nothing keeps the perimeter. */
  lemma TranslateZero(s: seq<Point2>)
    ensures Translate(s, 0.0, 0.0) == s
  {
    assert forall i :: 0 <= i < |s| ==> Translate(s, 0.0, 0.0)[i] == s[i];
  }

  /** With the step of the corrected stacker every storey sits on the one below. */
  lemma StackerStacks(base: real, height: real, plenum: real, n: nat)
    ensures OnTop(Levels(base, height + plenum, n), height, plenum)
  {
    var l := Levels(base, height + plenum, n);
    forall k | 0 <= k < |l| - 1
      ensures l[k + 1] == l[k] + height + plenum
    {
      assert PackageSpace.Steps(k + 1, height + plenum) == PackageSpace.Steps(k, height + plenum) + height + plenum;
    }
  }

  /**
   * With the step as written, a stack of at least one copy over an original
   * off the zero plane does not sit storey on storey: the first copy starts
   * the original's level away from where the original ends.
   */
  lemma StackerAsWrittenGaps(base: real, height: real, plenum: real, n: nat)
    requires n >= 1 && base != 0.0
    ensures !OnTop(Levels(base, base + height + plenum, n), height, plenum)
  {
    var step := base + height + plenum;
    var l := Levels(base, step, n);
    assert l[1] == base + PackageSpace.Steps(1, step) == base + step;
    assert l[1] != l[0] + height + plenum;
  }

  /** An original at level 3 of height 1, stacked with no plenum: its first copy lands at 7, not at 4. */
  lemma StackerAsWrittenExample()
    ensures Levels(3.0, 3.0 + 1.0 + 0.0, 1)[1] == 7.0
    ensures Levels(3.0, 1.0 + 0.0, 1)[1] == 4.0
  {
    assert Levels(3.0, 4.0, 1)[1] == 3.0 + PackageSpace.Steps(1, 4.0);
    assert Levels(3.0, 1.0, 1)[1] == 3.0 + PackageSpace.Steps(1, 1.0);
  }
}
