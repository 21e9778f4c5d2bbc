/** A glue bullet fired by a grade-2 glue turret: it flies in a straight line
    towards its assigned enemy and slows that enemy down when it reaches it. */
module GlueBullets {
  import opened MathUtils
  import opened GameTypes
  import opened Enemies

  /** Whether a point lies more than one cell outside the board. */
  predicate OutOfBoard(p: Point, boardSize: Cell)
  {
    p.x < -1.0 || p.x > boardSize.c + 1.0 || p.y < -1.0 || p.y > boardSize.r + 1.0
  }

  class GlueBullet {
    const id: int
    const intensity: real
    const durationTicks: int
    const vx: real
    const vy: real

    var x: real
    var y: real
    var assignedEnemy: Option<Enemy>
    var outOfStageBoundaries: bool

    /** A bullet leaving the centre of cell `p` in the direction whose cosine and
        sine are given, at BULLET_SPEED. */
    constructor (p: Cell, cos: real, sin: real, assignedEnemy: Option<Enemy>, intensity: real, durationTicks: int,
                 id: int, bulletSpeed: real)
      ensures this.id == id && this.assignedEnemy == assignedEnemy
      ensures this.intensity == intensity && this.durationTicks == durationTicks
      ensures x == p.c + 0.5 && y == p.r + 0.5 && !outOfStageBoundaries
      ensures vx == Fix(Mul(bulletSpeed, cos)) && vy == Fix(Mul(bulletSpeed, sin))
    {
      this.id := id;
      x := p.c + 0.5;
      y := p.r + 0.5;
      this.assignedEnemy := assignedEnemy;
      outOfStageBoundaries := false;
      this.intensity := intensity;
      this.durationTicks := durationTicks;
      vx := Fix(Mul(bulletSpeed, cos));
      vy := Fix(Mul(bulletSpeed, sin));
    }

    /** Where the bullet will be after its next update: one velocity step on,
        each coordinate within 5e-6 of the exact sum. */
    function PositionNextTick(): (p: Point)
      reads this`x, this`y
      ensures x + vx - 0.000005 < p.x <= x + vx + 0.000005
      ensures y + vy - 0.000005 < p.y <= y + vy + 0.000005
    {
      Point(Fix(x + vx), Fix(y + vy))
    }

    /** One tick of flight: the bullet moves to the position announced by
        PositionNextTick and is flagged, for good, once it has left the board. */
    method Update(boardSize: Cell)
      modifies this`x, this`y, this`outOfStageBoundaries
      ensures Point(x, y) == old(PositionNextTick())
      ensures outOfStageBoundaries == (old(outOfStageBoundaries) || OutOfBoard(Point(x, y), boardSize))
    {
      x := Fix(x + vx);
      y := Fix(y + vy);
      if x < -1.0 || x > boardSize.c + 1.0 || y < -1.0 || y > boardSize.r + 1.0 {
        outOfStageBoundaries := true;
      }
    }
  }
}
