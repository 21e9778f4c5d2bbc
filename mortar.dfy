/** A mortar shell fired by a launch turret: it flies for a fixed number of
    ticks, then detonates and hurts every enemy within its explosion range, the
    less the further away. */
module Mortars {
  import opened MathUtils
  import opened GameTypes
  import opened Enemies
  import opened Turrets

  /** The share of the full damage a blast deals at `distance` from its centre. */
  function Falloff(distance: real, explosionRange: real): real
    requires explosionRange != 0.0
  {
    1.0 - distance / explosionRange
  }

  /** The damage of an explosion at `distance` from its centre, for a distance
      within the range: the full damage scaled down linearly to zero at the
      edge. With a zero range the quotient 0/0 is NaN, which fixNumber turns
      into 0. */
  function ExplosionDamage(damage: real, distance: real, explosionRange: real): real
    requires distance <= explosionRange
  {
    if explosionRange == 0.0 then FixNumber(NaN)
    else FixNumber(Finite(Mul(damage, Falloff(distance, explosionRange))))
  }

  lemma ScaleMonotone(d: real, q1: real, q2: real)
    requires 0.0 <= d && q1 <= q2
    ensures Mul(d, q1) <= Mul(d, q2)
  {
    assert d * q2 - d * q1 == d * (q2 - q1);
  }

  lemma DivideMonotone(a: real, b: real, r: real)
    requires a <= b && 0.0 < r
    ensures a / r <= b / r
  {
    var q := (b - a) / r;
    assert q * r == b - a;
    assert b / r - a / r == q;
  }

  /** The share falls from 1 at the centre to 0 at the edge of the range. */
  lemma FalloffBounds(d1: real, d2: real, explosionRange: real)
    requires 0.0 <= d1 <= d2 <= explosionRange && explosionRange != 0.0
    ensures 0.0 <= Falloff(d2, explosionRange) <= Falloff(d1, explosionRange) <= 1.0
  {
    DivideMonotone(d2, explosionRange, explosionRange);
    DivideMonotone(d1, d2, explosionRange);
    DivideMonotone(0.0, d1, explosionRange);
    assert explosionRange / explosionRange == 1.0;
  }

  lemma ScaledFixBounds(d: real, q: real)
    requires 0.0 <= d && 0.0 <= q <= 1.0
    ensures 0.0 <= Fix(Mul(d, q)) <= Fix(d)
  {
    ScaleMonotone(d, 0.0, q);
    ScaleMonotone(d, q, 1.0);
    FixNonNegative(Mul(d, q));
    FixMonotone(Mul(d, q), d);
  }

  /** A non-negative damage stays between zero and the rounded full damage. */
  lemma ExplosionDamageBounds(damage: real, distance: real, explosionRange: real)
    requires 0.0 <= damage && 0.0 <= distance <= explosionRange
    ensures 0.0 <= ExplosionDamage(damage, distance, explosionRange) <= Fix(damage)
  {
    if explosionRange != 0.0 {
      FalloffBounds(distance, distance, explosionRange);
      ScaledFixBounds(damage, Falloff(distance, explosionRange));
    } else {
      FixNonNegative(damage);
    }
  }

  /** The nearer an enemy stands to the centre, the more damage it takes. */
  lemma ExplosionDamageMonotone(damage: real, d1: real, d2: real, explosionRange: real)
    requires 0.0 <= damage && 0.0 <= d1 <= d2 <= explosionRange
    ensures ExplosionDamage(damage, d2, explosionRange) <= ExplosionDamage(damage, d1, explosionRange)
  {
    if explosionRange != 0.0 {
      FalloffBounds(d1, d2, explosionRange);
      ScaleMonotone(damage, Falloff(d2, explosionRange), Falloff(d1, explosionRange));
      FixMonotone(Mul(damage, Falloff(d2, explosionRange)), Mul(damage, Falloff(d1, explosionRange)));
    }
  }

  /** The rounded distance from (x, y) to an enemy. */
  function Distance(geometry: Geometry, x: real, y: real, e: Enemy): real
    reads e
  {
    FixNumber(Finite(geometry.sqrt(SumOfSquares(e.x - x, e.y - y))))
  }

  /** The enemies within the explosion range of a blast at (x, y), each with the
      damage it takes, in the order of the engine's enemy list. */
  function ExplosionHits(enemies: seq<Enemy>, geometry: Geometry, x: real, y: real, explosionRange: real, damage: real): seq<(Enemy, real)>
    reads set e | e in enemies
    decreases |enemies|
  {
    if enemies == [] then []
    else
      var last := enemies[|enemies| - 1];
      var rest := ExplosionHits(enemies[..|enemies| - 1], geometry, x, y, explosionRange, damage);
      var d := Distance(geometry, x, y, last);
      if d <= explosionRange then rest + [(last, ExplosionDamage(damage, d, explosionRange))] else rest
  }

  /** A blast hits exactly the enemies within its range, each with the damage
      its distance gives, and with a non-negative damage no hit exceeds it. */
  lemma {:induction false} ExplosionHitsExactly(enemies: seq<Enemy>, geometry: Geometry, x: real, y: real, explosionRange: real, damage: real)
    ensures forall h :: h in ExplosionHits(enemies, geometry, x, y, explosionRange, damage) ==>
      && h.0 in enemies && Distance(geometry, x, y, h.0) <= explosionRange
      && h.1 == ExplosionDamage(damage, Distance(geometry, x, y, h.0), explosionRange)
      && (0.0 <= damage ==> 0.0 <= h.1 <= Fix(damage))
    ensures forall e :: e in enemies && Distance(geometry, x, y, e) <= explosionRange ==>
      (e, ExplosionDamage(damage, Distance(geometry, x, y, e), explosionRange)) in ExplosionHits(enemies, geometry, x, y, explosionRange, damage)
    ensures |ExplosionHits(enemies, geometry, x, y, explosionRange, damage)| <= |enemies|
    decreases |enemies|
  {
    if enemies != [] {
      var front := enemies[..|enemies| - 1];
      var last := enemies[|enemies| - 1];
      ExplosionHitsExactly(front, geometry, x, y, explosionRange, damage);
      assert enemies == front + [last];
      var d := Distance(geometry, x, y, last);
      FixNonNegative(geometry.sqrt(SumOfSquares(last.x - x, last.y - y)));
      if d <= explosionRange && 0.0 <= damage {
        ExplosionDamageBounds(damage, d, explosionRange);
      }
    }
  }

  /** The mortars of the list that are set to detonate, in list order. */
  function Detonated(mortars: seq<Mortar>): (r: seq<Mortar>)
    reads set m | m in mortars
    ensures forall i :: 0 <= i < |r| ==> r[i] in mortars && r[i].detonate
    ensures forall i :: 0 <= i < |mortars| && mortars[i].detonate ==> mortars[i] in r
    ensures |r| <= |mortars|
  {
    if mortars == [] then []
    else
      var front := mortars[..|mortars| - 1];
      var last := mortars[|mortars| - 1];
      assert mortars == front + [last];
      if last.detonate then Detonated(front) + [last] else Detonated(front)
  }

  /** Scanning one more mortar adds it exactly when it is set to detonate. */
  lemma DetonatedStep(mortars: seq<Mortar>, k: nat)
    requires k < |mortars|
    ensures Detonated(mortars[..k + 1]) == Detonated(mortars[..k]) + (if mortars[k].detonate then [mortars[k]] else [])
  {
    assert mortars[..k + 1][..k] == mortars[..k];
  }

  class Mortar {
    const id: int
    const creationTick: int
    const ticksToImpact: int
    const explosionRange: real
    const damage: real
    const grade: int
    const turret: Turret
    const vx: real
    const vy: real

    var x: real
    var y: real
    var detonate: bool
    var f: int

    /** The shell detonates exactly once its flight counter has reached the
        ticks to impact. */
    ghost predicate Valid()
      reads this
    {
      0 <= f && (detonate <==> 1 <= ticksToImpact <= f)
    }

    /** A shell leaving the centre of cell `p` in the direction whose cosine
        and sine are given, at the turret's projectile speed. */
    constructor (p: Cell, cos: real, sin: real, projectileSpeed: real, ticksToImpact: int, explosionRange: real,
                 damage: real, grade: int, turret: Turret, id: int, creationTick: int)
      ensures Valid()
      ensures this.id == id && this.creationTick == creationTick && this.ticksToImpact == ticksToImpact
      ensures this.explosionRange == explosionRange && this.damage == damage && this.grade == grade && this.turret == turret
      ensures x == p.c + 0.5 && y == p.r + 0.5 && !detonate && f == 0
      ensures vx == Fix(Mul(projectileSpeed, cos)) && vy == Fix(Mul(projectileSpeed, sin))
    {
      this.id := id;
      this.creationTick := creationTick;
      x := p.c + 0.5;
      y := p.r + 0.5;
      this.ticksToImpact := ticksToImpact;
      this.explosionRange := explosionRange;
      this.damage := damage;
      this.grade := grade;
      this.turret := turret;
      detonate := false;
      f := 0;
      vx := Fix(Mul(projectileSpeed, cos));
      vy := Fix(Mul(projectileSpeed, sin));
    }

    /** One tick of flight: the shell moves by its velocity and detonates on
        the tick its counter reaches the ticks to impact. */
    method Update()
      requires Valid()
      modifies this`x, this`y, this`f, this`detonate
      ensures Valid()
      ensures x == Fix(old(x) + vx) && y == Fix(old(y) + vy)
      ensures f == old(f) + 1
      ensures detonate == (old(detonate) || f == ticksToImpact)
    {
      x := Fix(x + vx);
      y := Fix(y + vy);
      f := f + 1;
      if f == ticksToImpact {
        detonate := true;
      }
    }

    /** The enemies the explosion reaches, each with the damage it takes. */
    method GetEnemiesWithinExplosionRange(enemies: seq<Enemy>, geometry: Geometry) returns (hits: seq<(Enemy, real)>)
      ensures hits == ExplosionHits(enemies, geometry, x, y, explosionRange, damage)
    {
      hits := [];
      var i := 0;
      while i < |enemies|
        invariant 0 <= i <= |enemies|
        invariant hits == ExplosionHits(enemies[..i], geometry, x, y, explosionRange, damage)
      {
        var enemy := enemies[i];
        assert enemies[..i + 1][..i] == enemies[..i];
        var distance := Distance(geometry, x, y, enemy);
        if distance <= explosionRange {
          hits := hits + [(enemy, ExplosionDamage(damage, distance, explosionRange))];
        }
        i := i + 1;
      }
      assert enemies[..i] == enemies;
    }
  }
}
