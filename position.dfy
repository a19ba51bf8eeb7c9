/** The guarded cursor moves of src/position.rs. Each move steps one
    coordinate by `jump` towards a limit `clamp`, and only while the
    coordinate has not reached the limit. The coordinates are `u16`; an
    overflow would panic, so a move that would leave the `u16` range is
    excluded by its precondition. */
module Positions {
  import opened Support

  /** The new value of a coordinate moved down (towards smaller values)
      by `jump`, but only while it is above `clamp`. */
  function Retreat(v: U16, jump: U16, clamp: U16): (r: U16)
    requires v > clamp ==> jump <= v
    ensures v > clamp ==> r == v - jump
    ensures v <= clamp ==> r == v
    ensures r <= v
    ensures jump == 1 && v >= clamp ==> clamp <= r
  {
    if v > clamp then v - jump else v
  }

  /** The new value of a coordinate moved up by `jump`, but only while it
      is below `clamp`. */
  function Advance(v: U16, jump: U16, clamp: U16): (r: U16)
    requires v < clamp ==> v + jump <= U16Max
    ensures v < clamp ==> r == v + jump
    ensures v >= clamp ==> r == v
    ensures v <= r
    ensures jump == 1 && v <= clamp ==> r <= clamp
  {
    if v < clamp then v + jump else v
  }

  /** With a unit step, repeating a move never crosses its limit: starting
      on the near side of `clamp`, `n` moves stop exactly at `clamp` once
      they reach it. */
  lemma {:induction false} UnitStepsStopAtClamp(v: U16, clamp: U16, n: nat)
    ensures v >= clamp ==> RetreatN(v, clamp, n) == Max(clamp, v - n)
    ensures v <= clamp ==> AdvanceN(v, clamp, n) == Min(clamp, v + n)
  {
    if n > 0 {
      UnitStepsStopAtClamp(v, clamp, n - 1);
    }
  }

  /** `n` unit moves down towards `clamp`. */
  function RetreatN(v: U16, clamp: U16, n: nat): U16
  {
    if n == 0 then v else Retreat(RetreatN(v, clamp, n - 1), 1, clamp)
  }

  /** `n` unit moves up towards `clamp`. */
  function AdvanceN(v: U16, clamp: U16, n: nat): U16
  {
    if n == 0 then v else Advance(AdvanceN(v, clamp, n - 1), 1, clamp)
  }

  class Position {
    var x: U16
    var y: U16

    /** `Position::new(x, y)`. */
    constructor (x: U16, y: U16)
      ensures this.x == x && this.y == y
    {
      this.x := x;
      this.y := y;
    }

    /** `move_up(jump, clamp)`: `y` moves towards `clamp` from above. */
    method MoveUp(jump: U16, clamp: U16)
      requires y > clamp ==> jump <= y
      modifies this
      ensures y == Retreat(old(y), jump, clamp) && x == old(x)
    {
      if y > clamp {
        y := y - jump;
      }
    }

    /** `move_down(jump, clamp)`: `y` moves towards `clamp` from below. */
    method MoveDown(jump: U16, clamp: U16)
      requires y < clamp ==> y + jump <= U16Max
      modifies this
      ensures y == Advance(old(y), jump, clamp) && x == old(x)
    {
      if y < clamp {
        y := y + jump;
      }
    }

    /** `move_left(jump, clamp)`: `x` moves towards `clamp` from above. */
    method MoveLeft(jump: U16, clamp: U16)
      requires x > clamp ==> jump <= x
      modifies this
      ensures x == Retreat(old(x), jump, clamp) && y == old(y)
    {
      if x > clamp {
        x := x - jump;
      }
    }

    /** `move_right(jump, clamp)`: `x` moves towards `clamp` from below. */
    method MoveRight(jump: U16, clamp: U16)
      requires x < clamp ==> x + jump <= U16Max
      modifies this
      ensures x == Advance(old(x), jump, clamp) && y == old(y)
    {
      if x < clamp {
        x := x + jump;
      }
    }
  }
}
