/** A turret on a plateau cell: its level, grade and prices, its reload cycle
    and the enemies it targets. */
module Turrets {
  import opened MathUtils
  import opened GameTypes
  import opened Sequences
  import opened Enemies
  import opened Targeting

  /** The sell value of a turret after a wave: 80% of the previous sell value,
      rounded, but never less than half the turret's value, rounded. */
  function AgedSellValue(sellValue: int, value: int): int
  {
    Max(Round(sellValue as real * 0.8), Round(value as real * 0.5))
  }

  /** Ageing never lifts a sell value that is at least the floor, never takes
      it below the floor, and lowers it strictly while it is above the floor and
      at least 3. */
  lemma AgedSellValueDecays(sellValue: int, value: int)
    requires 0 <= sellValue && Round(value as real * 0.5) <= sellValue
    ensures Round(value as real * 0.5) <= AgedSellValue(sellValue, value) <= sellValue
    ensures sellValue >= 3 && Round(value as real * 0.5) < sellValue ==> AgedSellValue(sellValue, value) < sellValue
  {
    assert sellValue as real * 0.8 + 0.5 < sellValue as real + 1.0;
  }

  /** The strategy index after `setNextStrategy`: the next one, wrapping round. */
  function NextStrategyIndex(i: int): int
  {
    if i == |Strategies| - 1 then 0 else i + 1
  }

  /** Stepping through the strategies is counting modulo their number, and five
      steps come back to the start. */
  lemma NextStrategyCycles(i: int)
    requires 0 <= i < |Strategies|
    ensures NextStrategyIndex(i) == (i + 1) % |Strategies|
    ensures 0 <= NextStrategyIndex(i) < |Strategies|
    ensures NextStrategyIndex(NextStrategyIndex(NextStrategyIndex(NextStrategyIndex(NextStrategyIndex(i))))) == i
  {
  }

  /** The maximum level of a turret of the given type and grade. */
  function MaxLevelFor(turretType: TurretType, grade: int): int
  {
    if grade >= 3 && turretType != Glue then 15 else 10
  }

  /** The reload time in ticks: the reload factor times RELOAD_BASE_TICKS, floored. */
  function ReloadTicksOf(reloadBaseTicks: real, reload: real): int
  {
    (reloadBaseTicks * reload).Floor
  }

  /** The squared range a turret compares distances with, rounded. */
  function SquaredRangeOf(range: real): real
  {
    Fix(range * range)
  }

  /** The enemy a turret follows once it has picked its targets: none without
      targets; a fixed-target turret keeps an enemy that is still a target;
      otherwise the first target. */
  function FollowedAfterTargeting(fixedTarget: bool, followed: Option<Enemy>, targets: seq<Enemy>): (r: Option<Enemy>)
    ensures |targets| == 0 ==> r == None
    ensures |targets| > 0 && (!fixedTarget || followed.None? || followed.value !in targets) ==> r == Some(targets[0])
    ensures fixedTarget && followed.Some? && followed.value in targets ==> r == followed
    ensures r.Some? ==> r.value in targets
  {
    if |targets| == 0 then None
    else if fixedTarget && followed.Some? && IndexOf(targets, followed.value) != -1 then followed
    else Some(targets[0])
  }

  class Turret {
    const id: int
    const creationTick: int
    const turretType: TurretType
    const position: Cell
    const x: real
    const y: real
    const table: TurretTable
    const reloadBaseTicks: real

    var level: int
    var maxLevel: int
    var grade: int
    var inflicted: int
    var value: int
    var sellValue: int
    var strategyIndex: int
    var strategy: Strategy
    var fixedTarget: bool
    var enemiesWithinRange: seq<Enemy>
    var followedEnemy: Option<Enemy>
    var f: int
    var reloadTicks: int
    var readyToShoot: bool
    var damage: real
    var reload: real
    var range: real
    var priceImprovement: nat
    var priceUpgrade: nat
    var squaredRange: real

    /** The shooting parameters are those of the table entry for the turret's
        type, grade and level, with the reload in ticks and the squared range
        derived from them. */
    ghost predicate ParametersMatch()
      reads this`grade, this`level, this`damage, this`reload, this`range, this`priceImprovement,
            this`priceUpgrade, this`reloadTicks, this`squaredRange
    {
      var a := table(turretType, grade, level);
      && damage == a.damage && reload == a.reload && range == a.range
      && priceImprovement == a.priceImprovement && priceUpgrade == a.priceUpgrade
      && reloadTicks == ReloadTicksOf(reloadBaseTicks, reload)
      && squaredRange == SquaredRangeOf(range)
    }

    /** The turret's invariant: it is placed, and its shooting parameters
        match the table. */
    ghost predicate Valid()
      reads this`level, this`grade, this`maxLevel, this`strategyIndex, this`strategy, this`f, this`value,
            this`sellValue, this`damage, this`reload, this`range, this`priceImprovement, this`priceUpgrade,
            this`reloadTicks, this`squaredRange
    {
      Placed() && ParametersMatch()
    }

    /** The turret stands at the centre of its cell, level and grade start at 1,
        the maximum level follows the grade, the strategy is the one its index
        names and the reload counter is never negative. */
    ghost predicate Placed()
      reads this`level, this`grade, this`maxLevel, this`strategyIndex, this`strategy, this`f, this`value,
            this`sellValue
    {
      && x == position.c + 0.5 && y == position.r + 0.5
      && 1 <= level && 1 <= grade
      && maxLevel == MaxLevelFor(turretType, grade)
      && 0 <= strategyIndex < |Strategies| && strategy == Strategies[strategyIndex]
      && 0 <= f && 0 <= value && 0 <= sellValue
    }

    /** A new turret of level 1 and grade 1 on cell `p`, bought for `price`;
        it follows its target, shoots the first enemy and starts reloading. */
    constructor (turretType: TurretType, p: Cell, id: int, creationTick: int, price: nat, table: TurretTable, reloadBaseTicks: real)
      ensures Valid()
      ensures this.id == id && this.creationTick == creationTick && this.turretType == turretType && position == p
      ensures this.table == table && this.reloadBaseTicks == reloadBaseTicks
      ensures level == 1 && grade == 1 && maxLevel == 10 && inflicted == 0 && f == 0
      ensures fixedTarget && strategyIndex == 0 && strategy == ShootFirst && !readyToShoot
      ensures enemiesWithinRange == [] && followedEnemy == None
      ensures value == price && sellValue == Round(price as real * 0.8)
    {
      this.id := id;
      this.creationTick := creationTick;
      this.turretType := turretType;
      this.position := p;
      this.table := table;
      this.reloadBaseTicks := reloadBaseTicks;
      x := p.c + 0.5;
      y := p.r + 0.5;
      f := 0;
      level := 1;
      maxLevel := 10;
      grade := 1;
      inflicted := 0;
      fixedTarget := true;
      strategyIndex := 0;
      strategy := Strategies[0];
      readyToShoot := false;
      enemiesWithinRange := [];
      followedEnemy := None;
      value := price;
      RoundMonotone(0.0, price as real * 0.8);
      sellValue := Round(price as real * 0.8);
      var a := table(turretType, 1, 1);
      damage := a.damage;
      reload := a.reload;
      range := a.range;
      priceImprovement := a.priceImprovement;
      priceUpgrade := a.priceUpgrade;
      reloadTicks := ReloadTicksOf(reloadBaseTicks, a.reload);
      squaredRange := SquaredRangeOf(a.range);
    }

    /** Reloads the parameters from the table for the current grade and level. */
    method CalculateTurretParameters()
      requires Placed()
      modifies this`damage, this`reload, this`range, this`priceImprovement, this`priceUpgrade, this`reloadTicks, this`squaredRange
      ensures Valid()
    {
      var a := table(turretType, grade, level);
      damage := a.damage;
      reload := a.reload;
      range := a.range;
      priceImprovement := a.priceImprovement;
      priceUpgrade := a.priceUpgrade;
      reloadTicks := ReloadTicksOf(reloadBaseTicks, reload);
      squaredRange := SquaredRangeOf(range);
    }

    /** The enemies this turret can shoot at, ordered by its strategy. */
    method GetEnemiesWithinRange(enemies: seq<Enemy>, pathLength: int) returns (r: seq<Enemy>)
      ensures r == EnemiesOf(Targets(strategy, Candidates(enemies, x, y, squaredRange, turretType == Glue && grade == 3, pathLength)))
    {
      var skip := turretType == Glue && grade == 3;
      var cands: seq<Candidate> := [];
      var i := 0;
      while i < |enemies|
        invariant 0 <= i <= |enemies|
        invariant cands == Candidates(enemies[..i], x, y, squaredRange, skip, pathLength)
      {
        var enemy := enemies[i];
        assert enemies[..i + 1][..i] == enemies[..i];
        if !(skip && enemy.hasBeenTeleported) {
          if enemy.life > 0.0 && enemy.l < pathLength as real - 1.5 && !enemy.teleporting {
            var squaredDist := SquaredDistance(x, y, enemy);
            if squaredRange >= squaredDist {
              cands := cands + [Candidate(enemy, enemy.id, enemy.l, enemy.life, squaredDist)];
            }
          }
        }
        i := i + 1;
      }
      assert enemies[..i] == enemies;
      if |cands| > 1 {
        cands := SortCandidates(strategy, cands);
      }
      r := EnemiesOf(cands);
    }

    /** One tick. A turret ready to shoot picks its targets: a fixed-target
        turret keeps following its enemy while that enemy is still a target and
        otherwise takes the first target; a free one always takes the first.
        It fires (`shot`) when it has a target and then starts reloading. A
        reloading turret counts a tick and is ready again after `reloadTicks`. */
    method Update(enemies: seq<Enemy>, pathLength: int) returns (shot: bool)
      requires Valid()
      modifies this`enemiesWithinRange, this`followedEnemy, this`readyToShoot, this`f
      ensures Valid()
      ensures old(readyToShoot) ==>
        && enemiesWithinRange == old(EnemiesOf(Targets(strategy, Candidates(enemies, x, y, squaredRange, turretType == Glue && grade == 3, pathLength))))
        && f == old(f)
        && shot == (|enemiesWithinRange| > 0) && readyToShoot == !shot
        && followedEnemy == FollowedAfterTargeting(fixedTarget, old(followedEnemy), enemiesWithinRange)
      ensures !old(readyToShoot) ==>
        && !shot && enemiesWithinRange == old(enemiesWithinRange) && followedEnemy == old(followedEnemy)
        && readyToShoot == (old(f) + 1 >= reloadTicks)
        && f == (if readyToShoot then 0 else old(f) + 1)
    {
      if readyToShoot {
        shot := Aim(enemies, pathLength);
      } else {
        shot := false;
        CountReload();
      }
    }

    /** The ready half of update: the targets are picked, the followed enemy
        updated, and the turret fires when it has a target. */
    method Aim(enemies: seq<Enemy>, pathLength: int) returns (shot: bool)
      requires Valid() && readyToShoot
      modifies this`enemiesWithinRange, this`followedEnemy, this`readyToShoot
      ensures Valid()
      ensures enemiesWithinRange == old(EnemiesOf(Targets(strategy, Candidates(enemies, x, y, squaredRange, turretType == Glue && grade == 3, pathLength))))
      ensures shot == (|enemiesWithinRange| > 0) && readyToShoot == !shot
      ensures followedEnemy == FollowedAfterTargeting(fixedTarget, old(followedEnemy), enemiesWithinRange)
    {
      PickTargets(enemies, pathLength);
      shot := FollowAndFire();
    }

    /** The targets of this tick, as getEnemiesWithinRange returns them. */
    method PickTargets(enemies: seq<Enemy>, pathLength: int)
      requires Valid()
      modifies this`enemiesWithinRange
      ensures Valid()
      ensures enemiesWithinRange == old(EnemiesOf(Targets(strategy, Candidates(enemies, x, y, squaredRange, turretType == Glue && grade == 3, pathLength))))
    {
      enemiesWithinRange := GetEnemiesWithinRange(enemies, pathLength);
    }

    /** Once the targets are picked: the followed enemy is updated and the
        turret fires when it has a target. */
    method FollowAndFire() returns (shot: bool)
      requires Valid() && readyToShoot
      modifies this`followedEnemy, this`readyToShoot
      ensures Valid()
      ensures shot == (|enemiesWithinRange| > 0) && readyToShoot == !shot
      ensures followedEnemy == FollowedAfterTargeting(fixedTarget, old(followedEnemy), enemiesWithinRange)
    {
      Follow();
      shot := |enemiesWithinRange| > 0;
      if shot {
        readyToShoot := false;
      }
    }

    /** The choice of the followed enemy among freshly picked targets. */
    method Follow()
      requires Valid()
      modifies this`followedEnemy
      ensures Valid()
      ensures followedEnemy == FollowedAfterTargeting(fixedTarget, old(followedEnemy), enemiesWithinRange)
    {
      if fixedTarget {
        if |enemiesWithinRange| > 0 {
          if followedEnemy.None? || IndexOf(enemiesWithinRange, followedEnemy.value) == -1 {
            followedEnemy := Some(enemiesWithinRange[0]);
          }
        } else {
          followedEnemy := None;
        }
      } else {
        followedEnemy := if |enemiesWithinRange| > 0 then Some(enemiesWithinRange[0]) else None;
      }
    }

    /** The reloading half of update: one more tick, and ready again once the
        reload ticks have passed. */
    method CountReload()
      requires Valid()
      modifies this`readyToShoot, this`f
      ensures Valid()
      ensures readyToShoot == (old(readyToShoot) || old(f) + 1 >= reloadTicks)
      ensures f == (if old(f) + 1 >= reloadTicks then 0 else old(f) + 1)
    {
      f := f + 1;
      if f >= reloadTicks {
        readyToShoot := true;
        f := 0;
      }
    }

    /** Lowers the sell value after a wave. */
    method AgeTurret()
      requires Valid()
      modifies this`sellValue
      ensures Valid()
      ensures sellValue == AgedSellValue(old(sellValue), value)
    {
      RoundMonotone(0.0, sellValue as real * 0.8);
      sellValue := AgedSellValue(sellValue, value);
    }

    /** One level up: the value grows by the improvement price, the sell value
        by 80% of it, and the parameters are those of the next level. */
    method Improve()
      requires Valid()
      modifies this`value, this`sellValue, this`level, this`damage, this`reload, this`range,
        this`priceImprovement, this`priceUpgrade, this`reloadTicks, this`squaredRange
      ensures Valid()
      ensures value == old(value) + old(priceImprovement)
      ensures sellValue == old(sellValue) + Round(old(priceImprovement) as real * 0.8)
      ensures level == old(level) + 1
    {
      LevelUp();
      CalculateTurretParameters();
    }

    /** The payment and the level step of improve, before the parameters are
        reloaded. */
    method LevelUp()
      requires Valid()
      modifies this`value, this`sellValue, this`level
      ensures Placed()
      ensures value == old(value) + old(priceImprovement)
      ensures sellValue == old(sellValue) + Round(old(priceImprovement) as real * 0.8)
      ensures level == old(level) + 1
    {
      value := value + priceImprovement;
      RoundMonotone(0.0, priceImprovement as real * 0.8);
      sellValue := sellValue + Round(priceImprovement as real * 0.8);
      level := level + 1;
    }

    /** One grade up: the value grows by the upgrade price, the sell value by
        80% of it, the level restarts at 1 (a non-glue turret reaching grade 3
        may then go up to level 15) and the reload restarts. */
    method Upgrade()
      requires Valid()
      modifies this`value, this`sellValue, this`grade, this`level, this`maxLevel, this`f, this`damage, this`reload,
        this`range, this`priceImprovement, this`priceUpgrade, this`reloadTicks, this`squaredRange
      ensures Valid()
      ensures value == old(value) + old(priceUpgrade)
      ensures sellValue == old(sellValue) + Round(old(priceUpgrade) as real * 0.8)
      ensures grade == old(grade) + 1 && level == 1 && f == 0
      ensures maxLevel == (if grade == 3 && turretType != Glue then 15 else old(maxLevel))
    {
      Promote();
      CalculateTurretParameters();
    }

    /** The payment and the grade step of upgrade, before the parameters are
        reloaded. */
    method Promote()
      requires Valid()
      modifies this`value, this`sellValue, this`grade, this`level, this`maxLevel, this`f
      ensures Placed()
      ensures value == old(value) + old(priceUpgrade)
      ensures sellValue == old(sellValue) + Round(old(priceUpgrade) as real * 0.8)
      ensures grade == old(grade) + 1 && level == 1 && f == 0
      ensures maxLevel == (if grade == 3 && turretType != Glue then 15 else old(maxLevel))
    {
      value := value + priceUpgrade;
      RoundMonotone(0.0, priceUpgrade as real * 0.8);
      sellValue := sellValue + Round(priceUpgrade as real * 0.8);
      grade := grade + 1;
      level := 1;
      if grade == 3 && turretType != Glue {
        maxLevel := 15;
      }
      f := 0;
    }

    /** Switches to the next strategy of the cycle. */
    method SetNextStrategy()
      requires Valid()
      modifies this`strategyIndex, this`strategy
      ensures Valid()
      ensures strategyIndex == NextStrategyIndex(old(strategyIndex)) && strategy == Strategies[strategyIndex]
    {
      strategyIndex := NextStrategyIndex(strategyIndex);
      strategy := Strategies[strategyIndex];
    }

    /** Toggles whether the turret keeps following its target. */
    method SetFixedTarget()
      requires Valid()
      modifies this`fixedTarget
      ensures Valid()
      ensures fixedTarget == !old(fixedTarget)
    {
      fixedTarget := !fixedTarget;
    }
  }
}
