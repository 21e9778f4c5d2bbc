/** An enemy walking the path: its life, progress `l`, glue debuffs and
    teleport state, stepped in place by the engine. */
module Enemies {
  import opened MathUtils
  import opened GameTypes
  import opened Board

  /** An entry of an enemy's resistance table: the enemy is weak or strong
      against a turret type. */
  datatype Modifier = Weak | Strong

  /** The resistance table the constructor fills in for each enemy type. */
  function ModifiersOf(t: EnemyType): (m: map<TurretType, Modifier>)
    ensures t == Soldier ==> m == map[]
    ensures Glue !in m
  {
    match t
    case Healer => map[Laser := Weak, Projectile := Weak]
    case Flier => map[Laser := Weak, Projectile := Weak]
    case Runner => map[Launch := Weak, Laser := Strong]
    case Blob => map[Launch := Weak, Projectile := Strong]
    case Soldier => map[]
  }

  /** What a hit comes from: a bullet, a mortar, a mine or a laser ray. */
  datatype HitSource = ByBullet | ByMortar | ByMine | ByLaser

  /** The turret type whose table entry governs a hit: bullets are projectile
      hits, mortars and mines launch hits, rays laser hits. */
  function SourceTurretType(s: HitSource): TurretType
  {
    match s
    case ByBullet => Projectile
    case ByMortar => Launch
    case ByMine => Launch
    case ByLaser => Laser
  }

  /** The damage multiplier of a hit: WEAK_AGAINST or STRONG_AGAINST when the
      table has an entry for the source's turret type, 1 otherwise. */
  function DamageModifier(mods: map<TurretType, Modifier>, source: HitSource, rules: Rules): (m: real)
    ensures SourceTurretType(source) !in mods ==> m == 1.0
    ensures SourceTurretType(source) in mods && mods[SourceTurretType(source)] == Weak ==> m == rules.weakModifier
    ensures SourceTurretType(source) in mods && mods[SourceTurretType(source)] == Strong ==> m == rules.strongModifier
  {
    var key := SourceTurretType(source);
    if key !in mods then 1.0
    else if mods[key] == Weak then rules.weakModifier
    else rules.strongModifier
  }

  /** Life left after a hit of `amount` on a living enemy: never below zero. */
  function LifeAfterHit(life: real, amount: real): (r: real)
    requires life > 0.0
    ensures r >= 0.0
    ensures r == 0.0 <==> amount >= life
    ensures r > 0.0 ==> r == life - amount
  {
    if life - amount <= 0.0 then 0.0 else life - amount
  }

  /** How many of a series of hits, applied in order, take the enemy from
      living to dead (each hit on a dead enemy is ignored). */
  ghost function Kills(life: real, amounts: seq<real>): nat
    requires life >= 0.0
    decreases |amounts|
  {
    if amounts == [] then 0
    else if life <= 0.0 then Kills(life, amounts[1..])
    else
      var r := LifeAfterHit(life, amounts[0]);
      (if r == 0.0 then 1 else 0) + Kills(r, amounts[1..])
  }

  /** A dead enemy is never killed again. */
  lemma {:induction false} DeadStaysDead(amounts: seq<real>)
    ensures Kills(0.0, amounts) == 0
    decreases |amounts|
  {
    if amounts != [] {
      DeadStaysDead(amounts[1..]);
    }
  }

  /** However many hits land, the kill happens at most once. */
  lemma {:induction false} KilledAtMostOnce(life: real, amounts: seq<real>)
    requires life >= 0.0
    ensures Kills(life, amounts) <= 1
    decreases |amounts|
  {
    if amounts != [] {
      if life <= 0.0 {
        KilledAtMostOnce(life, amounts[1..]);
      } else {
        var r := LifeAfterHit(life, amounts[0]);
        if r == 0.0 {
          DeadStaysDead(amounts[1..]);
        } else {
          KilledAtMostOnce(r, amounts[1..]);
        }
      }
    }
  }

  /** The part of an enemy's state that a teleport changes: its progress,
      its position, the teleport's tick counter and its two flags. */
  datatype Pose = Pose(l: real, x: real, y: real, t: int, teleporting: bool, hasBeenTeleported: bool)

  /** teleport on a pose: the progress moves back by `distance`, to no less
      than 0, the 8-tick teleport restarts, and the position follows the
      path where the new progress lies on it. */
  function TeleportPose(p: Pose, distance: real, path: seq<Cell>): Pose {
    var l := if p.l - distance < 0.0 then 0.0 else p.l - distance;
    var q := PathPosition(path, l);
    Pose(l, if q.Some? then q.value.x else p.x, if q.Some? then q.value.y else p.y, 0, true, true)
  }

  /** A teleport by a non-negative distance from a point of the path lands on
      the path again, so `teleport` always finds a position to move to. */
  lemma TeleportStaysOnPath(p: Pose, distance: real, path: seq<Cell>)
    requires 0.0 <= distance && PathPosition(path, p.l).Some?
    ensures PathPosition(path, TeleportPose(p, distance, path).l).Some?
  {
    var l := TeleportPose(p, distance, path).l;
    assert 0.0 <= l <= p.l;
  }

  class Enemy {
    const enemyType: EnemyType
    const id: int
    const creationTick: int
    const maxLife: real
    const value: nat
    const speed: real
    const boundingRadius: real
    const modifiers: map<TurretType, Modifier>

    var life: real
    var x: real
    var y: real
    var prevX: real
    var prevY: real
    var l: real
    var affectedByGlue: bool
    var glueIntensity: real
    var affectedByGlueBullet: bool
    var glueBulletIntensity: real
    var glueBulletDurationTicks: int
    var hasBeenTeleported: bool
    var teleporting: bool
    var t: int
    var glueTicksCounter: int

    /** Life and progress are never negative, a teleport lasts fewer than 8
        ticks, an active glue debuff has a positive intensity and a bullet
        debuff with a positive duration has not yet run out. */
    ghost predicate Valid()
      reads this`life, this`l, this`teleporting, this`t, this`affectedByGlue, this`glueIntensity,
            this`affectedByGlueBullet, this`glueBulletIntensity, this`glueTicksCounter,
            this`glueBulletDurationTicks
    {
      && 0.0 <= life && 0.0 <= maxLife && 0.0 <= speed && 0.0 <= l
      && modifiers == ModifiersOf(enemyType)
      && boundingRadius == (if enemyType == Runner then 0.5 else 0.475)
      && (teleporting ==> 0 <= t < 8)
      && (affectedByGlue ==> glueIntensity > 0.0)
      && (affectedByGlueBullet ==> glueBulletIntensity > 0.0 && 0 <= glueTicksCounter)
      && (affectedByGlueBullet && glueBulletDurationTicks > 0 ==> glueTicksCounter < glueBulletDurationTicks)
    }

    /** The enemy's pose. */
    function PoseOf(): Pose
      reads this`l, this`x, this`y, this`t, this`teleporting, this`hasBeenTeleported
    {
      Pose(l, x, y, t, teleporting, hasBeenTeleported)
    }

    /** The speed of the next step: the glue bullet's slow-down takes
        precedence over the glue puddle's. */
    function CurrentSpeed(): (s: real)
      reads this
      requires Valid()
      ensures s >= 0.0
      ensures affectedByGlueBullet ==> s == Fix(speed / glueBulletIntensity)
      ensures !affectedByGlueBullet && affectedByGlue ==> s == Fix(speed / glueIntensity)
      ensures !affectedByGlueBullet && !affectedByGlue ==> s == speed
    {
      if affectedByGlueBullet then
        FixNonNegative(speed / glueBulletIntensity);
        Fix(speed / glueBulletIntensity)
      else if affectedByGlue then
        FixNonNegative(speed / glueIntensity);
        Fix(speed / glueIntensity)
      else speed
    }

    /** A new enemy at the start of the path with full life. */
    constructor (enemyType: EnemyType, creationTick: int, id: int, data: EnemyAttributes, path: seq<Cell>)
      requires |path| > 0
      ensures Valid()
      ensures this.enemyType == enemyType && this.id == id && this.creationTick == creationTick
      ensures life == maxLife == data.life && value == data.value && speed == data.speed
      ensures l == 0.0 && t == 0 && glueTicksCounter == 0
      ensures !affectedByGlue && !affectedByGlueBullet && !hasBeenTeleported && !teleporting
      ensures glueIntensity == 0.0 && glueBulletIntensity == 0.0 && glueBulletDurationTicks == 0
      ensures Some(Point(x, y)) == PathPosition(path, 0.0) && prevX == x && prevY == y
    {
      this.id := id;
      this.modifiers := ModifiersOf(enemyType);
      this.creationTick := creationTick;
      this.enemyType := enemyType;
      life := data.life;
      maxLife := data.life;
      value := data.value;
      speed := data.speed;
      affectedByGlue := false;
      glueIntensity := 0.0;
      affectedByGlueBullet := false;
      glueBulletIntensity := 0.0;
      glueBulletDurationTicks := 0;
      glueTicksCounter := 0;
      hasBeenTeleported := false;
      teleporting := false;
      l := 0.0;
      t := 0;
      var p := PathPosition(path, 0.0).value;
      x := p.x;
      y := p.y;
      prevX := p.x;
      prevY := p.y;
      boundingRadius := if enemyType == Runner then 0.5 else 0.475;
    }

    /** One tick. A teleporting enemy only counts the teleport's ticks; any
        other advances by its current speed, counts down the bullet debuff and
        reports reaching the exit exactly when its progress reaches the last
        cell. */
    method Update(path: seq<Cell>) returns (reachedExit: bool)
      requires Valid() && |path| > 0
      modifies this`t, this`teleporting, this`glueTicksCounter, this`affectedByGlueBullet
      modifies this`l, this`x, this`y, this`prevX, this`prevY
      ensures Valid()
      ensures old(teleporting) ==>
        && t == old(t) + 1 && teleporting == (old(t) + 1 != 8) && !reachedExit
        && l == old(l) && x == old(x) && y == old(y) && prevX == old(prevX) && prevY == old(prevY)
        && affectedByGlueBullet == old(affectedByGlueBullet) && glueTicksCounter == old(glueTicksCounter)
      ensures !old(teleporting) ==>
        && t == old(t) && !teleporting
        && l == Fix(old(l) + old(CurrentSpeed()))
        && prevX == old(x) && prevY == old(y)
        && reachedExit == (l >= |path| as real - 1.0)
        && (reachedExit ==> x == path[|path| - 1].c && y == path[|path| - 1].r)
        && (!reachedExit ==> Some(Point(x, y)) == PathPosition(path, l))
        && glueTicksCounter == (if old(affectedByGlueBullet) then old(glueTicksCounter) + 1 else old(glueTicksCounter))
        && affectedByGlueBullet == (old(affectedByGlueBullet) && glueTicksCounter != glueBulletDurationTicks)
    {
      if teleporting {
        CountTeleport();
        reachedExit := false;
      } else {
        reachedExit := Advance(path);
      }
    }

    /** A tick of the teleport: its counter advances and the teleport ends on
        the eighth tick. */
    method CountTeleport()
      requires Valid() && teleporting
      modifies this`t, this`teleporting
      ensures Valid()
      ensures t == old(t) + 1 && teleporting == (old(t) + 1 != 8)
    {
      t := t + 1;
      if t == 8 {
        teleporting := false;
      }
    }

    /** A tick of a walking enemy: the bullet debuff ages and the enemy moves
        on at the speed it had before. */
    method Advance(path: seq<Cell>) returns (reachedExit: bool)
      requires Valid() && |path| > 0 && !teleporting
      modifies this`glueTicksCounter, this`affectedByGlueBullet, this`l, this`x, this`y, this`prevX, this`prevY
      ensures Valid()
      ensures l == Fix(old(l) + old(CurrentSpeed()))
      ensures prevX == old(x) && prevY == old(y)
      ensures reachedExit == (l >= |path| as real - 1.0)
      ensures reachedExit ==> x == path[|path| - 1].c && y == path[|path| - 1].r
      ensures !reachedExit ==> Some(Point(x, y)) == PathPosition(path, l)
      ensures glueTicksCounter == (if old(affectedByGlueBullet) then old(glueTicksCounter) + 1 else old(glueTicksCounter))
      ensures affectedByGlueBullet == (old(affectedByGlueBullet) && glueTicksCounter != glueBulletDurationTicks)
    {
      var s := CurrentSpeed();
      AgeGlueBullet();
      reachedExit := Move(s, path);
    }

    /** The bullet debuff counts one more tick and ends when its duration is
        reached. */
    method AgeGlueBullet()
      requires Valid()
      modifies this`glueTicksCounter, this`affectedByGlueBullet
      ensures Valid()
      ensures glueTicksCounter == (if old(affectedByGlueBullet) then old(glueTicksCounter) + 1 else old(glueTicksCounter))
      ensures affectedByGlueBullet == (old(affectedByGlueBullet) && glueTicksCounter != glueBulletDurationTicks)
    {
      if affectedByGlueBullet {
        glueTicksCounter := glueTicksCounter + 1;
        if glueTicksCounter == glueBulletDurationTicks {
          affectedByGlueBullet := false;
        }
      }
    }

    /** The step along the path by `s`: the previous position is kept, and the
        enemy lands on the last cell when its progress reaches it. */
    method Move(s: real, path: seq<Cell>) returns (reachedExit: bool)
      requires Valid() && |path| > 0 && 0.0 <= s
      modifies this`l, this`x, this`y, this`prevX, this`prevY
      ensures Valid()
      ensures l == Fix(old(l) + s) && prevX == old(x) && prevY == old(y)
      ensures reachedExit == (l >= |path| as real - 1.0)
      ensures reachedExit ==> x == path[|path| - 1].c && y == path[|path| - 1].r
      ensures !reachedExit ==> Some(Point(x, y)) == PathPosition(path, l)
    {
      FixNonNegative(l + s);
      l := Fix(l + s);
      prevX := x;
      prevY := y;
      if l >= |path| as real - 1.0 {
        x := path[|path| - 1].c;
        y := path[|path| - 1].r;
        reachedExit := true;
      } else {
        var p := PathPosition(path, l).value;
        x := p.x;
        y := p.y;
        reachedExit := false;
      }
    }

    /** Moves the enemy back by `distance` (never before the start of the path)
        and starts the 8-tick teleport. When the new progress is past the path
        the position is left where it was. */
    method Teleport(distance: real, path: seq<Cell>)
      requires Valid()
      modifies this`hasBeenTeleported, this`teleporting, this`t, this`l, this`x, this`y
      ensures Valid()
      ensures hasBeenTeleported && teleporting && t == 0
      ensures l == (if old(l) - distance < 0.0 then 0.0 else old(l) - distance)
      ensures PathPosition(path, l).Some? ==> Some(Point(x, y)) == PathPosition(path, l)
      ensures PathPosition(path, l).None? ==> x == old(x) && y == old(y)
      ensures PoseOf() == TeleportPose(old(PoseOf()), distance, path)
    {
      StepBack(distance);
      Relocate(path);
    }

    /** The teleport starts and the progress moves back by `distance`, to no
        less than 0. */
    method StepBack(distance: real)
      requires Valid()
      modifies this`hasBeenTeleported, this`teleporting, this`t, this`l
      ensures Valid()
      ensures hasBeenTeleported && teleporting && t == 0
      ensures l == (if old(l) - distance < 0.0 then 0.0 else old(l) - distance)
    {
      hasBeenTeleported := true;
      teleporting := true;
      t := 0;
      l := l - distance;
      if l < 0.0 {
        l := 0.0;
      }
    }

    /** The position follows the progress when the path has a point for it. */
    method Relocate(path: seq<Cell>)
      requires Valid()
      modifies this`x, this`y
      ensures Valid()
      ensures PathPosition(path, l).Some? ==> Some(Point(x, y)) == PathPosition(path, l)
      ensures PathPosition(path, l).None? ==> x == old(x) && y == old(y)
    {
      var p := PathPosition(path, l);
      if p.Some? {
        x := p.value.x;
        y := p.value.y;
      }
    }

    /** Starts (or restarts) the glue bullet's slow-down. */
    method HitByGlueBullet(intensity: real, durationTicks: int)
      requires Valid() && intensity > 0.0
      modifies this`glueTicksCounter, this`affectedByGlueBullet, this`glueBulletIntensity, this`glueBulletDurationTicks
      ensures Valid()
      ensures affectedByGlueBullet && glueTicksCounter == 0
      ensures glueBulletIntensity == intensity && glueBulletDurationTicks == durationTicks
    {
      glueTicksCounter := 0;
      affectedByGlueBullet := true;
      glueBulletIntensity := intensity;
      glueBulletDurationTicks := durationTicks;
    }

    /** Marks the enemy as standing in a glue puddle of the given intensity. */
    method Glue(intensity: real)
      requires Valid() && intensity > 0.0
      modifies this`affectedByGlue, this`glueIntensity
      ensures Valid()
      ensures affectedByGlue && glueIntensity == intensity
    {
      affectedByGlue := true;
      glueIntensity := intensity;
    }

    /** A hit of `damage` from `source`. Nothing happens to a dead enemy.
        Otherwise life drops by the rounded damage times the resistance
        modifier, never below zero; `inflicted` is what the source turret's
        statistics gain (the rounded raw damage, whatever the modifier or the
        overkill), and `killed` reports the transition to zero, on which the
        engine runs its kill accounting. */
    method Hit(damage: real, source: HitSource, rules: Rules) returns (landed: bool, killed: bool, inflicted: int)
      requires Valid()
      modifies this`life
      ensures Valid()
      ensures landed == (old(life) > 0.0)
      ensures !landed ==> life == old(life) && !killed && inflicted == 0
      ensures landed ==> life == LifeAfterHit(old(life), Fix(Mul(damage, DamageModifier(modifiers, source, rules))))
      ensures landed ==> inflicted == Round(damage)
      ensures killed <==> old(life) > 0.0 && life == 0.0
    {
      if life <= 0.0 {
        return false, false, 0;
      }
      life := life - Fix(Mul(damage, DamageModifier(modifiers, source, rules)));
      inflicted := Round(damage);
      landed := true;
      killed := false;
      if life <= 0.0 {
        life := 0.0;
        killed := true;
      }
    }

    /** Heals a twentieth of the maximum life, capped at the maximum. */
    method RestoreHealth()
      requires Valid()
      modifies this`life
      ensures Valid()
      ensures life <= maxLife
      ensures life == (if old(life) + Fix(maxLife / 20.0) > maxLife then maxLife else old(life) + Fix(maxLife / 20.0))
      ensures old(life) <= maxLife ==> old(life) <= life
    {
      FixNonNegative(maxLife / 20.0);
      life := life + Fix(maxLife / 20.0);
      if life > maxLife {
        life := maxLife;
      }
    }
  }
}
