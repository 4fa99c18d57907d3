/** The two moving bodies: the ball and the paddle ("bar"). Their edges are
    their centres plus or minus fixed half-sizes: the ball is a circle of
    diameter 20, the bar a rectangle of 80 by 20. */
module Sprites {
  import opened Geometry

  const BallRadius: real := 10.0
  const BarWidth: real := 80.0
  const BarHeight: real := 20.0

  /** Lowest and highest centre of a bar that lies fully on screen. */
  const BarMinX: real := BarWidth / 2.0
  const BarMaxX: real := ScreenWidth - BarWidth / 2.0

  function Min(a: real, b: real): real { if a <= b then a else b }
  function Max(a: real, b: real): real { if a >= b then a else b }

  /** Where a bar whose centre was moved to x ends up: the on-screen centre
      nearest to x. */
  function ClampBarX(x: real): (r: real)
    ensures BarMinX <= r <= BarMaxX
    ensures BarMinX <= x <= BarMaxX ==> r == x
  {
    Max(BarMinX, Min(BarMaxX, x))
  }

  function Distance(a: real, b: real): real { Abs(a - b) }

  /** No on-screen centre is closer to x than the clamped one. */
  lemma ClampBarXIsNearest(x: real, z: real)
    requires BarMinX <= z <= BarMaxX
    ensures Distance(ClampBarX(x), x) <= Distance(z, x)
  {
  }

  /** Clamping a position that is already clamped changes nothing. */
  lemma ClampBarXIdempotent(x: real)
    ensures ClampBarX(ClampBarX(x)) == ClampBarX(x)
  {
  }

  class Ball {
    var centerX: real
    var centerY: real
    var changeX: real
    var changeY: real

    function Left(): real reads this { centerX - BallRadius }
    function Right(): real reads this { centerX + BallRadius }
    function Top(): real reads this { centerY + BallRadius }
    function Bottom(): real reads this { centerY - BallRadius }

    /** A new ball sits at the origin and heads right and down at
        5 * speedMultiplier pixels per tick on each axis. */
    constructor (speedMultiplier: real)
      ensures centerX == 0.0 && centerY == 0.0
      ensures changeX == 5.0 * speedMultiplier && changeY == -5.0 * speedMultiplier
    {
      centerX, centerY := 0.0, 0.0;
      changeX := 5.0 * speedMultiplier;
      changeY := -5.0 * speedMultiplier;
    }

    /** One tick: move by the velocity, then reflect off the side walls and the
        top wall, judged at the new position. There is no bounce at the bottom. */
    method Update()
      modifies this
      ensures centerX == old(centerX) + old(changeX)
      ensures centerY == old(centerY) + old(changeY)
      ensures changeX == if Left() <= 0.0 || Right() >= ScreenWidth then -old(changeX) else old(changeX)
      ensures changeY == if Top() >= ScreenHeight then -old(changeY) else old(changeY)
      ensures Abs(changeX) == Abs(old(changeX)) && Abs(changeY) == Abs(old(changeY))
    {
      centerX := centerX + changeX;
      centerY := centerY + changeY;
      if Left() <= 0.0 || Right() >= ScreenWidth {
        changeX := changeX * -1.0;
      }
      if Top() >= ScreenHeight {
        changeY := changeY * -1.0;
      }
    }
  }

  class Bar {
    var centerX: real
    var centerY: real
    var changeX: real

    function Left(): real reads this { centerX - BarWidth / 2.0 }
    function Right(): real reads this { centerX + BarWidth / 2.0 }
    function Top(): real reads this { centerY + BarHeight / 2.0 }
    function Bottom(): real reads this { centerY - BarHeight / 2.0 }

    /** A new bar sits at the origin and does not move. */
    constructor ()
      ensures centerX == 0.0 && centerY == 0.0 && changeX == 0.0
    {
      centerX, centerY, changeX := 0.0, 0.0, 0.0;
    }

    /** One tick: move horizontally by changeX, then push the bar back on
        screen. The velocity is kept even when the bar is stopped at a wall. */
    method Update()
      modifies this
      ensures centerX == ClampBarX(old(centerX) + old(changeX))
      ensures 0.0 <= Left() && Right() <= ScreenWidth
      ensures changeX == old(changeX) && centerY == old(centerY)
    {
      centerX := centerX + changeX;
      if Left() < 0.0 {
        centerX := 0.0 + BarWidth / 2.0;
      }
      if Right() > ScreenWidth {
        centerX := ScreenWidth - BarWidth / 2.0;
      }
    }
  }
}
