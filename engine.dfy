/** The game engine: the level configuration, the player's money, score and
    lives, the wave schedule and the entities on stage, stepped one tick at a
    time by `Update` and changed by the player's commands. */
module Engines {
  import opened MathUtils
  import opened GameTypes
  import opened Board
  import opened Sequences
  import opened Enemies
  import opened Turrets
  import opened Mortars
  import opened GlueBullets
  import opened Waves
  import opened Registry
  import opened Accounting

  /** Whether enemy `e` is among the enemies flagged for teleporting in `q`. */
  predicate Flagged(q: seq<(Enemy, real)>, e: Enemy)
    decreases |q|
  {
    q != [] && (q[|q| - 1].0 == e || Flagged(q[..|q| - 1], e))
  }

  /** The progress of enemy `e`, at `l` before the teleports, once the
      teleports flagged in `q` have run in order: each entry for `e` moves it
      back by its distance, to no less than 0, and the others leave it. */
  function TeleportedProgress(q: seq<(Enemy, real)>, e: Enemy, l: real): real
    decreases |q|
  {
    if q == [] then l
    else
      var before := TeleportedProgress(q[..|q| - 1], e, l);
      if q[|q| - 1].0 == e then (if before - q[|q| - 1].1 < 0.0 then 0.0 else before - q[|q| - 1].1) else before
  }

  /** The total distance the teleports flagged in `q` move enemy `e` back. */
  function FlaggedDistance(q: seq<(Enemy, real)>, e: Enemy): real
    decreases |q|
  {
    if q == [] then 0.0
    else FlaggedDistance(q[..|q| - 1], e) + (if q[|q| - 1].0 == e then q[|q| - 1].1 else 0.0)
  }

  /** Teleports of non-negative distances add up: several teleports of one
      enemy in a tick move it back by their total, to no less than 0. */
  lemma {:induction false} TeleportsAddUp(q: seq<(Enemy, real)>, e: Enemy, l: real)
    requires 0.0 <= l
    requires forall k :: 0 <= k < |q| ==> 0.0 <= q[k].1
    ensures TeleportedProgress(q, e, l) == (if l - FlaggedDistance(q, e) < 0.0 then 0.0 else l - FlaggedDistance(q, e))
    decreases |q|
  {
    if q != [] {
      TeleportsAddUp(q[..|q| - 1], e, l);
    }
  }

  /** An enemy that no entry of `q` names keeps its progress. */
  lemma {:induction false} UnflaggedKeepsProgress(q: seq<(Enemy, real)>, e: Enemy, l: real)
    requires !Flagged(q, e)
    ensures TeleportedProgress(q, e, l) == l && FlaggedDistance(q, e) == 0.0
    decreases |q|
  {
    if q != [] {
      UnflaggedKeepsProgress(q[..|q| - 1], e, l);
    }
  }

  /** An enemy is flagged in `q` exactly when some entry names it. */
  lemma {:induction false} FlaggedIffNamed(q: seq<(Enemy, real)>, e: Enemy)
    ensures Flagged(q, e) <==> exists k :: 0 <= k < |q| && q[k].0 == e
    decreases |q|
  {
    if q != [] {
      var p := q[..|q| - 1];
      FlaggedIffNamed(p, e);
      if Flagged(p, e) {
        var k :| 0 <= k < |p| && p[k].0 == e;
        assert q[k].0 == e;
      }
      if exists k :: 0 <= k < |q| && q[k].0 == e {
        var k :| 0 <= k < |q| && q[k].0 == e;
        if k < |p| {
          assert p[k].0 == e;
        }
      }
    }
  }

  /** The pose of enemy `e`, in pose `p` before the teleports, once the
      teleports flagged in `q` have run in order: each entry for `e`
      teleports it from the pose the earlier entries left it in, and the
      others leave it. */
  function TeleportedPose(q: seq<(Enemy, real)>, e: Enemy, p: Pose, path: seq<Cell>): Pose
    decreases |q|
  {
    if q == [] then p
    else
      var before := TeleportedPose(q[..|q| - 1], e, p, path);
      if q[|q| - 1].0 == e then TeleportPose(before, q[|q| - 1].1, path) else before
  }

  /** One more entry of the queue teleports its own enemy and leaves the
      others. */
  lemma TeleportedPoseStep(q: seq<(Enemy, real)>, i: nat, e: Enemy, p: Pose, path: seq<Cell>)
    requires i < |q|
    ensures TeleportedPose(q[..i + 1], e, p, path) ==
      (if q[i].0 == e then TeleportPose(TeleportedPose(q[..i], e, p, path), q[i].1, path)
       else TeleportedPose(q[..i], e, p, path))
  {
    assert q[..i + 1][..i] == q[..i];
  }

  /** An enemy moves back by the flagged distances, folded in order, and an
      enemy no entry names keeps its pose. */
  lemma {:induction false} TeleportedPoseKeep(q: seq<(Enemy, real)>, e: Enemy, p: Pose, path: seq<Cell>)
    ensures TeleportedPose(q, e, p, path).l == TeleportedProgress(q, e, p.l)
    ensures !Flagged(q, e) ==> TeleportedPose(q, e, p, path) == p
    decreases |q|
  {
    if q != [] {
      TeleportedPoseKeep(q[..|q| - 1], e, p, path);
    }
  }

  /** An enemy some entry names ends up teleporting, its tick counter reset,
      and placed on the path wherever its final progress lies on it. */
  lemma {:induction false} TeleportedPoseFlagged(q: seq<(Enemy, real)>, e: Enemy, p: Pose, path: seq<Cell>)
    requires Flagged(q, e)
    ensures var r := TeleportedPose(q, e, p, path);
      && r.teleporting && r.hasBeenTeleported && r.t == 0
      && (PathPosition(path, r.l).Some? ==> Some(Point(r.x, r.y)) == PathPosition(path, r.l))
    decreases |q|
  {
    if q[|q| - 1].0 != e {
      TeleportedPoseFlagged(q[..|q| - 1], e, p, path);
    }
  }

  /** The index of the first turret with the given id, -1 when there is none. */
  function TurretIndex(turrets: seq<Turret>, id: real): (i: int)
    ensures -1 <= i < |turrets|
    ensures i == -1 <==> forall k :: 0 <= k < |turrets| ==> turrets[k].id as real != id
    ensures i >= 0 ==> turrets[i].id as real == id && forall k :: 0 <= k < i ==> turrets[k].id as real != id
  {
    if turrets == [] then -1
    else if turrets[0].id as real == id then 0
    else
      var j := TurretIndex(turrets[1..], id);
      if j == -1 then -1 else j + 1
  }

  /** getTurretById: the first turret with the given id, if any. */
  function FindTurret(turrets: seq<Turret>, id: real): Option<Turret>
  {
    var i := TurretIndex(turrets, id);
    if i == -1 then None else Some(turrets[i])
  }

  /** The copy loop of newWave: the template followed by `extraWaves` copies,
      each copy's ticks moved past the last tick so far plus 2 (no copy for a
      non-positive count). The result is copies 0 to extraWaves, copy j being
      the template shifted by j periods. */
  method ExpandTemplate(template: seq<WaveEntry>, extraWaves: int) returns (r: seq<WaveEntry>)
    requires |template| > 0
    ensures r == Copies(template, Max(0, extraWaves))
  {
    r := template;
    assert r == Copies(template, 0) by { assert Offset(template, 0) == 0; }
    var i: nat := 0;
    while i < extraWaves
      invariant i <= Max(0, extraWaves)
      invariant r == Copies(template, i)
    {
      CopiesNext(template, i);
      r := AppendCopy(template, r);
      i := i + 1;
    }
  }

  /** One pass of newWave's copy loop: the template, shifted past the last
      tick so far plus 2, is appended. */
  method AppendCopy(template: seq<WaveEntry>, r: seq<WaveEntry>) returns (r': seq<WaveEntry>)
    requires |r| > 0
    ensures r' == r + Shift(template, r[|r| - 1].t + 2)
  {
    var lastTickValue := r[|r| - 1].t;
    var next := ShiftEntries(template, lastTickValue + 2);
    r' := r + next;
  }

  /** The inner loop of newWave's copy loop: every tick of the entries moved by `d`. */
  method ShiftEntries(entries: seq<WaveEntry>, d: int) returns (r: seq<WaveEntry>)
    ensures r == Shift(entries, d)
  {
    r := entries;
    var j := 0;
    while j < |r|
      invariant 0 <= j <= |r| == |entries|
      invariant forall k :: 0 <= k < j ==> r[k] == WaveEntry(entries[k].enemyType, entries[k].t + d)
      invariant forall k :: j <= k < |r| ==> r[k] == entries[k]
    {
      r := r[j := WaveEntry(r[j].enemyType, r[j].t + d)];
      j := j + 1;
    }
    assert r == Shift(entries, d);
  }

  /** The loop of newWave that turns relative ticks into absolute ones. */
  method ToAbsolute(entries: seq<WaveEntry>, delta: int, now: int) returns (r: seq<WaveEntry>)
    ensures r == Absolute(entries, delta, now)
  {
    r := entries;
    var i := 0;
    while i < |r|
      invariant 0 <= i <= |r| == |entries|
      invariant forall k :: 0 <= k < i ==> r[k] == WaveEntry(entries[k].enemyType, IntMul(entries[k].t, delta) + now + 1)
      invariant forall k :: i <= k < |r| ==> r[k] == entries[k]
    {
      r := r[i := WaveEntry(r[i].enemyType, IntMul(r[i].t, delta) + now + 1)];
      i := i + 1;
    }
    assert r == Absolute(entries, delta, now);
  }

  /** The loop of newWave that adds up the life and the rounded reward of every
      scheduled enemy. */
  method SumWave(entries: seq<WaveEntry>, enemyData: EnemyType -> EnemyAttributes, modifier: real)
    returns (health: real, reward: int)
    ensures health == TotalHealth(entries, enemyData)
    ensures reward == TotalReward(entries, enemyData, modifier)
  {
    health, reward := 0.0, 0;
    var i := 0;
    while i < |entries|
      invariant 0 <= i <= |entries|
      invariant health == TotalHealth(entries[..i], enemyData)
      invariant reward == TotalReward(entries[..i], enemyData, modifier)
    {
      assert entries[..i + 1][..i] == entries[..i];
      health := health + enemyData(entries[i].enemyType).life;
      reward := reward + Round(Mul(modifier, enemyData(entries[i].enemyType).value as real));
      i := i + 1;
    }
    assert entries[..i] == entries;
  }

  class Engine {
    const enemySpawningDeltaTicks: int
    const boardSize: Cell
    const path: Path
    const plateaus: seq<Cell>
    const enemyData: EnemyType -> EnemyAttributes
    const turretPrice: TurretType -> nat
    const table: TurretTable
    const waves: Templates
    const rules: Rules
    const geometry: Geometry
    const spawner: Spawner

    var credits: nat
    var creditsEarned: nat
    var score: nat
    var lifes: int
    var gameOver: bool
    var round: nat
    var ticksCounter: int
    var lastWaveTick: int
    var bonus: nat
    var waveReward: nat
    var remainingReward: int
    var waveDefaultHealth: real
    var enemyHealthModifier: real
    var enemyRewardModifier: real
    var waveActivated: bool
    var canLaunchNextWave: bool
    var noEnemiesOnStage: bool
    var allEnemiesSpawned: bool
    var enemiesSpawned: int
    var waveEnemiesLength: int
    var turretId: int
    var enemyId: int
    var bulletId: int
    var mortarId: int

    var turrets: seq<Turret>
    var enemies: seq<Enemy>
    var glueBullets: seq<GlueBullet>
    var mortars: seq<Mortar>
    var glueBulletsColliding: seq<GlueBullet>
    var mortarsImpacting: seq<Mortar>
    var teleportedEnemies: seq<(Enemy, real)>
    var waveEnemies: seq<WaveEntry>

    /** Every entity the engine has created, on stage or not: a glue bullet may
        still point at an enemy that has left the stage, and a mortar at a
        turret that has been sold. */
    ghost var allEnemies: set<Enemy>
    ghost var allTurrets: set<Turret>
    ghost var allGlueBullets: set<GlueBullet>
    ghost var allMortars: set<Mortar>

    /** The engine's invariant: its lists are consistent and every entity it
        created keeps its own invariant. */
    ghost predicate Valid()
      reads this`enemies, this`teleportedEnemies, this`turrets, this`glueBullets, this`glueBulletsColliding,
        this`mortars, this`mortarsImpacting, this`allEnemies, this`allTurrets, this`allGlueBullets, this`allMortars
      reads allEnemies, allTurrets, allGlueBullets, allMortars
    {
      Consistent() && EnemiesOk() && TurretsOk() && MortarsOk() && BulletsOk()
    }

    /** Every list holds entities the engine created, and no enemy, turret,
        glue bullet or mortar is on stage twice. */
    ghost predicate Consistent()
      reads this`enemies, this`teleportedEnemies, this`turrets, this`glueBullets, this`glueBulletsColliding,
        this`mortars, this`mortarsImpacting, this`allEnemies, this`allTurrets, this`allGlueBullets, this`allMortars
    {
      StageLists(enemies, teleportedEnemies, turrets, glueBullets, glueBulletsColliding, mortars, mortarsImpacting,
                 allEnemies, allTurrets, allGlueBullets, allMortars)
    }

    /** Every enemy the engine created keeps its invariant. */
    ghost predicate EnemiesOk()
      reads this`allEnemies, allEnemies
    {
      EnemiesValid(allEnemies)
    }

    /** Every turret the engine created keeps its invariant. */
    ghost predicate TurretsOk()
      reads this`allTurrets, allTurrets
    {
      TurretsValid(allTurrets)
    }

    /** Every mortar the engine created keeps its invariant and belongs to a
        turret the engine created. */
    ghost predicate MortarsOk()
      reads this`allTurrets, this`allMortars, allMortars
    {
      MortarsValid(allMortars, allTurrets)
    }

    /** Every glue bullet the engine created slows down and is assigned, if at
        all, to an enemy the engine created. */
    ghost predicate BulletsOk()
      reads this`allEnemies, this`allGlueBullets, allGlueBullets
    {
      GlueBulletsValid(allGlueBullets, allEnemies)
    }

    /** A game at tick 0: the configured credits and lives, nothing on stage,
        no wave launched and the first wave allowed. */
    constructor (config: GameConfig, enemyData: EnemyType -> EnemyAttributes, turretPrice: TurretType -> nat,
                 table: TurretTable, waves: seq<WaveAttributes>, rules: Rules, geometry: Geometry, spawner: Spawner)
      requires |config.enemiesPathCells| > 0 && Playable(waves)
      ensures Valid()
      ensures credits == config.credits && lifes == config.lifes && score == 0 && creditsEarned == 0
      ensures path == config.enemiesPathCells && plateaus == config.plateausCells && boardSize == config.boardSize
      ensures enemySpawningDeltaTicks == config.enemySpawningDeltaTicks
      ensures this.enemyData == enemyData && this.turretPrice == turretPrice && this.table == table
      ensures this.waves == waves && this.rules == rules && this.geometry == geometry && this.spawner == spawner
      ensures ticksCounter == 0 && lastWaveTick == 0 && round == 0 && bonus == 0 && remainingReward == 0
      ensures !gameOver && !waveActivated && canLaunchNextWave && noEnemiesOnStage && !allEnemiesSpawned
      ensures enemiesSpawned == 0 && waveEnemiesLength == 0
      ensures turretId == 0 && enemyId == 0 && bulletId == 0 && mortarId == 0
      ensures turrets == [] && enemies == [] && glueBullets == [] && mortars == [] && waveEnemies == []
      ensures glueBulletsColliding == [] && mortarsImpacting == [] && teleportedEnemies == []
      ensures enemyHealthModifier == 1.0 && enemyRewardModifier == 1.0
      ensures allEnemies == {} && allTurrets == {} && allGlueBullets == {} && allMortars == {}
    {
      turretId := 0;
      enemyId := 0;
      bulletId := 0;
      mortarId := 0;
      enemySpawningDeltaTicks := config.enemySpawningDeltaTicks;
      boardSize := config.boardSize;
      credits := config.credits;
      lifes := config.lifes;
      path := config.enemiesPathCells;
      plateaus := config.plateausCells;
      this.enemyData := enemyData;
      this.turretPrice := turretPrice;
      this.table := table;
      this.waves := waves;
      this.rules := rules;
      this.geometry := geometry;
      this.spawner := spawner;
      score := 0;
      gameOver := false;
      round := 0;
      bonus := 0;
      creditsEarned := 0;
      enemyHealthModifier := 1.0;
      enemyRewardModifier := 1.0;
      waveActivated := false;
      ticksCounter := 0;
      lastWaveTick := 0;
      turrets := [];
      waveEnemies := [];
      canLaunchNextWave := true;
      enemies := [];
      glueBullets := [];
      mortars := [];
      glueBulletsColliding := [];
      mortarsImpacting := [];
      teleportedEnemies := [];
      noEnemiesOnStage := true;
      allEnemiesSpawned := false;
      enemiesSpawned := 0;
      waveEnemiesLength := 0;
      remainingReward := 0;
      waveReward := 0;
      waveDefaultHealth := 0.0;
      allEnemies := {};
      allTurrets := {};
      allGlueBullets := {};
      allMortars := {};
    }

    /** Whether a turret may be placed on cell `p`: inside the board, off the
        enemies' path, not on another turret, and on a plateau when the level
        has any. */
    predicate PositionFree(p: Cell)
      reads this
    {
      && 0.0 <= p.r < boardSize.r && 0.0 <= p.c < boardSize.c
      && p !in path
      && (forall i :: 0 <= i < |turrets| ==> turrets[i].position != p)
      && (plateaus == [] || p in plateaus)
    }

    /** The scan of getTurretById. */
    method GetTurretById(id: real) returns (t: Option<Turret>)
      ensures t == FindTurret(turrets, id)
    {
      t := None;
      var i := 0;
      while i < |turrets|
        invariant 0 <= i <= |turrets|
        invariant forall k :: 0 <= k < i ==> turrets[k].id as real != id
      {
        if turrets[i].id as real == id {
          t := Some(turrets[i]);
          return;
        }
        i := i + 1;
      }
    }

    /** The checks of addTurret on the position, path cell by path cell, turret
        by turret and plateau by plateau. */
    method CheckPosition(p: Cell) returns (free: bool)
      ensures free == PositionFree(p)
    {
      if p.r < 0.0 || p.c < 0.0 || p.r >= boardSize.r || p.c >= boardSize.c {
        return false;
      }
      var i := 0;
      while i < |path|
        invariant 0 <= i <= |path|
        invariant p !in path[..i]
      {
        if p.c == path[i].c && p.r == path[i].r {
          return false;
        }
        assert path[..i + 1] == path[..i] + [path[i]];
        i := i + 1;
      }
      assert path[..i] == path;
      i := 0;
      while i < |turrets|
        invariant 0 <= i <= |turrets|
        invariant forall k :: 0 <= k < i ==> turrets[k].position != p
      {
        if p.c == turrets[i].position.c && p.r == turrets[i].position.r {
          return false;
        }
        i := i + 1;
      }
      var isOnPlateau := false;
      if |plateaus| != 0 {
        i := 0;
        while i < |plateaus|
          invariant 0 <= i <= |plateaus|
          invariant p !in plateaus[..i]
        {
          if plateaus[i].c == p.c && plateaus[i].r == p.r {
            isOnPlateau := true;
            break;
          }
          assert plateaus[..i + 1] == plateaus[..i] + [plateaus[i]];
          i := i + 1;
        }
        if !isOnPlateau {
          assert plateaus[..i] == plateaus;
        }
      } else {
        isOnPlateau := true;
      }
      return isOnPlateau;
    }

    /** addTurret: rejected, in this order, for a missing type or position, a
        position that is not free, an unknown type name, or too few credits;
        otherwise a new turret with the next id joins the end of the list and
        its price is paid. Only the credit failure leaves a trace: the turret
        had already been built, so its id is used up. */
    method AddTurret(turretType: Option<string>, p: Option<Cell>) returns (res: CommandResult, turret: Option<Turret>)
      requires Valid()
      modifies this`turretId, this`turrets, this`allTurrets, this`credits
      ensures Valid()
      ensures turretType.None? || p.None? ==> res == Rejected(ActionValue)
      ensures turretType.Some? && p.Some? && !old(PositionFree(p.value)) ==> res == Rejected(AddTurretPosition)
      ensures turretType.Some? && p.Some? && old(PositionFree(p.value)) && ParseTurretType(turretType.value).None? ==>
        res == Rejected(AddTurretName(turretType.value))
      ensures turretType.Some? && p.Some? && old(PositionFree(p.value)) && ParseTurretType(turretType.value).Some? ==>
        var tt := ParseTurretType(turretType.value).value;
        res == (if old(credits) < turretPrice(tt) then Rejected(Credits) else Done)
      ensures res.Rejected? ==> turret.None? && credits == old(credits) && turrets == old(turrets)
      ensures res.Rejected? && res.error != Credits ==> turretId == old(turretId)
      ensures res == Rejected(Credits) ==> turretId == old(turretId) + 1
      ensures res == Done ==>
        && turret.Some? && fresh(turret.value) && turrets == old(turrets) + [turret.value]
        && turret.value.turretType == ParseTurretType(turretType.value).value && turret.value.position == p.value
        && turret.value.id == old(turretId) && turretId == old(turretId) + 1
        && turret.value.value == turretPrice(turret.value.turretType)
        && credits == old(credits) - turret.value.value
      ensures forall t :: t in allTurrets && t !in old(allTurrets) ==> fresh(t)
    {
      turret := None;
      if turretType.None? || p.None? {
        res := Rejected(ActionValue);
      } else {
        var free := CheckPosition(p.value);
        var tt := ParseTurretType(turretType.value);
        if !free {
          res := Rejected(AddTurretPosition);
        } else if tt.None? {
          res := Rejected(AddTurretName(turretType.value));
        } else {
          res, turret := BuildTurret(tt.value, p.value);
        }
      }
    }

    /** The part of addTurret after the checks on the input: a turret of the
        given type is built with the next id, then placed if the credits cover
        its price. */
    method BuildTurret(tt: TurretType, p: Cell) returns (res: CommandResult, turret: Option<Turret>)
      requires Valid()
      modifies this`turretId, this`turrets, this`allTurrets, this`credits
      ensures Valid()
      ensures turretId == old(turretId) + 1
      ensures res == (if old(credits) < turretPrice(tt) then Rejected(Credits) else Done)
      ensures res.Rejected? ==> turret.None? && credits == old(credits) && turrets == old(turrets)
      ensures res == Done ==>
        && turret.Some? && fresh(turret.value) && turrets == old(turrets) + [turret.value]
        && turret.value.turretType == tt && turret.value.position == p && turret.value.id == old(turretId)
        && turret.value.value == turretPrice(tt) && credits == old(credits) - turretPrice(tt)
      ensures forall t :: t in allTurrets && t !in old(allTurrets) ==> fresh(t)
    {
      var t := new Turret(tt, p, turretId, ticksCounter, turretPrice(tt), table, rules.reloadBaseTicks);
      turretId := turretId + 1;
      if credits < t.value {
        res, turret := Rejected(Credits), None;
      } else {
        PlaceTurret(t);
        res, turret := Done, Some(t);
      }
    }

    /** The end of a successful addTurret: the new turret joins the list and
        its price is paid. */
    method PlaceTurret(t: Turret)
      requires Valid() && t.Valid() && t !in allTurrets && t.value <= credits
      modifies this`turrets, this`allTurrets, this`credits
      ensures Valid()
      ensures turrets == old(turrets) + [t] && allTurrets == old(allTurrets) + {t}
      ensures credits == old(credits) - t.value
    {
      Enlist(t);
      credits := credits - t.value;
    }

    /** A new turret joins the board and the turrets the engine created. */
    method Enlist(t: Turret)
      requires Valid() && t.Valid() && t !in allTurrets
      modifies this`turrets, this`allTurrets
      ensures Valid()
      ensures turrets == old(turrets) + [t] && allTurrets == old(allTurrets) + {t}
    {
      assert t !in turrets;
      turrets := turrets + [t];
      allTurrets := allTurrets + {t};
    }

    /** sellTurret: rejected for a missing id or one no turret has; otherwise
        the first turret with that id leaves the list and its sell value is
        credited. */
    method SellTurret(id: Option<real>) returns (res: CommandResult)
      requires Valid()
      modifies this`turrets, this`credits
      ensures Valid()
      ensures id.None? ==> res == Rejected(ActionValue)
      ensures id.Some? && old(FindTurret(turrets, id.value)).None? ==> res == Rejected(TurretNotFound(id.value))
      ensures res.Rejected? ==> credits == old(credits) && turrets == old(turrets)
      ensures id.Some? && old(FindTurret(turrets, id.value)).Some? ==>
        var t := old(FindTurret(turrets, id.value)).value;
        && res == Done
        && turrets == RemoveFirst(old(turrets), t)
        && multiset(turrets) == multiset(old(turrets)) - multiset{t} && t !in turrets
        && |turrets| == |old(turrets)| - 1
        && credits == old(credits) + t.sellValue
    {
      if id.None? {
        res := Rejected(ActionValue);
      } else {
        var found := GetTurretById(id.value);
        if found.None? {
          res := Rejected(TurretNotFound(id.value));
        } else {
          RemoveTurret(found.value);
          res := Done;
        }
      }
    }

    /** The removal of a sold turret: it leaves the list, which keeps the
        other turrets, and its sell value is credited. */
    method RemoveTurret(t: Turret)
      requires Valid() && t in turrets
      modifies this`turrets, this`credits
      ensures Valid()
      ensures turrets == RemoveFirst(old(turrets), t) && credits == old(credits) + t.sellValue
      ensures multiset(turrets) == multiset(old(turrets)) - multiset{t} && t !in turrets
      ensures |turrets| == |old(turrets)| - 1
    {
      RemoveFirstDistinct(turrets, t);
      RemoveFirstWithin(turrets, t, allTurrets);
      assert t in allTurrets && t.Valid();
      turrets := RemoveFirst(turrets, t);
      credits := credits + t.sellValue;
    }

    /** improveTurret: rejected for a missing id, a missing turret, a turret
        already at its maximum level, or too few credits; otherwise the
        improvement price is paid and the turret goes up one level. */
    method ImproveTurret(id: Option<real>) returns (res: CommandResult)
      requires Valid()
      modifies this`credits, allTurrets`value, allTurrets`sellValue, allTurrets`level, allTurrets`damage,
        allTurrets`reload, allTurrets`range, allTurrets`priceImprovement, allTurrets`priceUpgrade,
        allTurrets`reloadTicks, allTurrets`squaredRange
      ensures Valid()
      ensures id.None? ==> res == Rejected(ActionValue)
      ensures id.Some? ==> var found := old(FindTurret(turrets, id.value));
        && (found.None? ==> res == Rejected(TurretNotFound(id.value)))
        && (found.Some? && old(found.value.level >= found.value.maxLevel) ==> res == Rejected(LevelUp(id.value)))
        && (found.Some? && old(found.value.level < found.value.maxLevel) ==>
              res == (if old(credits < found.value.priceImprovement) then Rejected(Credits) else Done))
        && (res == Done ==>
              && credits == old(credits) - old(found.value.priceImprovement)
              && found.value.level == old(found.value.level) + 1
              && found.value.value == old(found.value.value + found.value.priceImprovement)
              && found.value.sellValue == old(found.value.sellValue) + Round(old(found.value.priceImprovement) as real * 0.8)
              && found.value.ParametersMatch()
              && forall t :: t in allTurrets && t != found.value ==> unchanged(t))
      ensures res.Rejected? ==> credits == old(credits) && unchanged(allTurrets)
    {
      if id.None? {
        res := Rejected(ActionValue);
      } else {
        var found := GetTurretById(id.value);
        if found.None? {
          res := Rejected(TurretNotFound(id.value));
        } else if found.value.level >= found.value.maxLevel {
          res := Rejected(LevelUp(id.value));
        } else if credits < found.value.priceImprovement {
          res := Rejected(Credits);
        } else {
          PayImprove(found.value);
          res := Done;
        }
      }
    }

    /** upgradeTurret: rejected for a missing id, a missing turret, a turret
        already at grade 3, or too few credits; otherwise the upgrade price is
        paid and the turret goes up one grade. */
    method UpgradeTurret(id: Option<real>) returns (res: CommandResult)
      requires Valid()
      modifies this`credits, allTurrets`value, allTurrets`sellValue, allTurrets`grade, allTurrets`level,
        allTurrets`maxLevel, allTurrets`f, allTurrets`damage, allTurrets`reload, allTurrets`range,
        allTurrets`priceImprovement, allTurrets`priceUpgrade, allTurrets`reloadTicks, allTurrets`squaredRange
      ensures Valid()
      ensures id.None? ==> res == Rejected(ActionValue)
      ensures id.Some? ==> var found := old(FindTurret(turrets, id.value));
        && (found.None? ==> res == Rejected(TurretNotFound(id.value)))
        && (found.Some? && old(found.value.grade >= 3) ==> res == Rejected(Upgrade(id.value)))
        && (found.Some? && old(found.value.grade < 3) ==>
              res == (if old(credits < found.value.priceUpgrade) then Rejected(Credits) else Done))
        && (res == Done ==>
              && credits == old(credits) - old(found.value.priceUpgrade)
              && found.value.grade == old(found.value.grade) + 1 && found.value.level == 1 && found.value.f == 0
              && found.value.maxLevel == MaxLevelFor(found.value.turretType, found.value.grade)
              && found.value.value == old(found.value.value + found.value.priceUpgrade)
              && found.value.sellValue == old(found.value.sellValue) + Round(old(found.value.priceUpgrade) as real * 0.8)
              && found.value.ParametersMatch()
              && forall t :: t in allTurrets && t != found.value ==> unchanged(t))
      ensures res.Rejected? ==> credits == old(credits) && unchanged(allTurrets)
    {
      if id.None? {
        res := Rejected(ActionValue);
      } else {
        var found := GetTurretById(id.value);
        if found.None? {
          res := Rejected(TurretNotFound(id.value));
        } else if found.value.grade >= 3 {
          res := Rejected(Upgrade(id.value));
        } else if credits < found.value.priceUpgrade {
          res := Rejected(Credits);
        } else {
          PayUpgrade(found.value);
          res := Done;
        }
      }
    }

    /** The end of a successful improveTurret. */
    method PayImprove(t: Turret)
      requires Valid() && t in turrets && t.priceImprovement <= credits
      modifies this`credits, t`value, t`sellValue, t`level, t`damage, t`reload, t`range, t`priceImprovement,
        t`priceUpgrade, t`reloadTicks, t`squaredRange
      ensures Valid() && t.Valid()
      ensures credits == old(credits) - old(t.priceImprovement)
      ensures t.level == old(t.level) + 1 && t.value == old(t.value + t.priceImprovement)
      ensures t.sellValue == old(t.sellValue) + Round(old(t.priceImprovement) as real * 0.8)
    {
      assert t in allTurrets;
      credits := credits - t.priceImprovement;
      t.Improve();
    }

    /** The end of a successful upgradeTurret. */
    method PayUpgrade(t: Turret)
      requires Valid() && t in turrets && t.priceUpgrade <= credits
      modifies this`credits, t`value, t`sellValue, t`grade, t`level, t`maxLevel, t`f, t`damage, t`reload, t`range,
        t`priceImprovement, t`priceUpgrade, t`reloadTicks, t`squaredRange
      ensures Valid() && t.Valid()
      ensures credits == old(credits) - old(t.priceUpgrade)
      ensures t.grade == old(t.grade) + 1 && t.level == 1 && t.f == 0 && t.value == old(t.value + t.priceUpgrade)
      ensures t.sellValue == old(t.sellValue) + Round(old(t.priceUpgrade) as real * 0.8)
    {
      assert t in allTurrets;
      credits := credits - t.priceUpgrade;
      t.Upgrade();
    }

    /** setNextStrategy: rejected for a missing id or turret; otherwise the
        turret moves on to its next targeting strategy. */
    method SetNextStrategy(id: Option<real>) returns (res: CommandResult)
      requires Valid()
      modifies allTurrets`strategyIndex, allTurrets`strategy
      ensures Valid()
      ensures id.None? ==> res == Rejected(ActionValue) && unchanged(allTurrets)
      ensures id.Some? ==> var found := old(FindTurret(turrets, id.value));
        && (found.None? ==> res == Rejected(TurretNotFound(id.value)) && unchanged(allTurrets))
        && (found.Some? ==>
              && res == Done && found.value.strategyIndex == NextStrategyIndex(old(found.value.strategyIndex))
              && found.value.Valid() && found.value.strategy == Strategies[found.value.strategyIndex]
              && forall t :: t in allTurrets && t != found.value ==> unchanged(t))
    {
      if id.None? {
        res := Rejected(ActionValue);
      } else {
        var found := GetTurretById(id.value);
        if found.None? {
          res := Rejected(TurretNotFound(id.value));
        } else {
          assert found.value in allTurrets;
          found.value.SetNextStrategy();
          res := Done;
        }
      }
    }

    /** setFixedTarget: rejected for a missing id or turret; otherwise the
        turret's fixed-target mode is switched. */
    method SetFixedTarget(id: Option<real>) returns (res: CommandResult)
      requires Valid()
      modifies allTurrets`fixedTarget
      ensures Valid()
      ensures id.None? ==> res == Rejected(ActionValue) && unchanged(allTurrets)
      ensures id.Some? ==> var found := old(FindTurret(turrets, id.value));
        && (found.None? ==> res == Rejected(TurretNotFound(id.value)) && unchanged(allTurrets))
        && (found.Some? ==>
              && res == Done && found.value.fixedTarget == !old(found.value.fixedTarget)
              && forall t :: t in allTurrets && t != found.value ==> unchanged(t))
    {
      if id.None? {
        res := Rejected(ActionValue);
      } else {
        var found := GetTurretById(id.value);
        if found.None? {
          res := Rejected(TurretNotFound(id.value));
        } else {
          assert found.value in allTurrets;
          found.value.SetFixedTarget();
          res := Done;
        }
      }
    }

    /** The player's accounts as one value. */
    function Accounts(): Ledger
      reads this`credits, this`creditsEarned, this`score, this`lifes, this`bonus, this`remainingReward,
        this`noEnemiesOnStage
    {
      Ledger(credits, creditsEarned, score, lifes, bonus, remainingReward, noEnemiesOnStage)
    }

    /** onNoEnemiesOnStage: the stage is marked empty and the wave's bonus is
        paid out. */
    method OnNoEnemiesOnStage()
      modifies this`noEnemiesOnStage, this`credits, this`creditsEarned, this`bonus
      ensures Accounts() == PayOut(old(Accounts()))
    {
      noEnemiesOnStage := true;
      credits := credits + bonus;
      creditsEarned := creditsEarned + bonus;
      bonus := 0;
    }

    /** Whether the last enemy of a fully spawned wave has just left the stage. */
    predicate StageCleared()
      reads this`enemies, this`allEnemiesSpawned
    {
      enemies == [] && allEnemiesSpawned
    }

    /** The stage-cleared test that follows every departure from the stage: the bonus is
        paid out exactly when the stage has been cleared. */
    method CheckStageCleared()
      modifies this`noEnemiesOnStage, this`credits, this`creditsEarned, this`bonus
      ensures Accounts() == CheckCleared(old(Accounts()), StageCleared())
    {
      if |enemies| == 0 && allEnemiesSpawned {
        OnNoEnemiesOnStage();
      }
    }

    /** Takes an enemy off the stage list, where it appears at most once. */
    method RemoveEnemy(enemy: Enemy)
      requires Consistent()
      modifies this`enemies
      ensures Consistent()
      ensures enemies == RemoveFirst(old(enemies), enemy) && enemy !in enemies
    {
      if enemy in enemies {
        RemoveFirstDistinct(enemies, enemy);
      }
      RemoveFirstWithin(enemies, enemy, allEnemies);
      enemies := RemoveFirst(enemies, enemy);
    }

    /** The accounting steps of onEnemyKilled before the stage-cleared test. */
    method CreditKill(value: nat)
      modifies this`credits, this`creditsEarned, this`remainingReward, this`score, this`bonus
      ensures Accounts() == SettleKill(old(Accounts()), value, gameOver, waveReward, rules)
    {
      credits := credits + value;
      creditsEarned := creditsEarned + value;
      remainingReward := remainingReward - value;
      if !gameOver {
        score := score + value;
      }
      bonus := Bonus(rules, waveReward, remainingReward);
    }

    /** The accounting steps of onEnemyReachedExit before the stage-cleared test. */
    method ChargeExit(value: nat)
      modifies this`remainingReward, this`score, this`lifes, this`bonus
      ensures Accounts() == SettleExit(old(Accounts()), value, gameOver, waveReward, rules)
    {
      if !gameOver {
        score := score + value;
      }
      remainingReward := remainingReward - value;
      lifes := lifes - 1;
      bonus := Bonus(rules, waveReward, remainingReward);
    }

    /** onEnemyKilled: the enemy leaves the stage and its value is settled as a
        kill; the bonus is paid out when this was the last enemy of a fully
        spawned wave. */
    method OnEnemyKilled(enemy: Enemy)
      requires Consistent()
      modifies this`enemies, this`credits, this`creditsEarned, this`remainingReward, this`score, this`bonus,
        this`noEnemiesOnStage
      ensures Consistent()
      ensures enemies == RemoveFirst(old(enemies), enemy) && enemy !in enemies
      ensures Accounts() == Killed(old(Accounts()), enemy.value, gameOver, waveReward, rules, StageCleared())
    {
      RemoveEnemy(enemy);
      SettleKillAndCheck(enemy.value);
    }

    /** The accounting of onEnemyKilled once the enemy is off the stage. */
    method SettleKillAndCheck(value: nat)
      requires Consistent()
      ensures Consistent()
      modifies this`credits, this`creditsEarned, this`remainingReward, this`score, this`bonus,
        this`noEnemiesOnStage
      ensures Accounts() == Killed(old(Accounts()), value, gameOver, waveReward, rules, StageCleared())
    {
      CreditKill(value);
      CheckStageCleared();
    }

    /** onEnemyReachedExit: the enemy leaves the stage and is settled as an
        exit, costing a life; the bonus is paid out when this was the last
        enemy of a fully spawned wave. */
    method OnEnemyReachedExit(enemy: Enemy)
      requires Consistent()
      modifies this`enemies, this`credits, this`creditsEarned, this`remainingReward, this`score, this`bonus,
        this`noEnemiesOnStage, this`lifes
      ensures Consistent()
      ensures enemies == RemoveFirst(old(enemies), enemy) && enemy !in enemies
      ensures Accounts() == Exited(old(Accounts()), enemy.value, gameOver, waveReward, rules, StageCleared())
    {
      RemoveEnemy(enemy);
      SettleExitAndCheck(enemy.value);
    }

    /** The accounting of onEnemyReachedExit once the enemy is off the stage. */
    method SettleExitAndCheck(value: nat)
      requires Consistent()
      ensures Consistent()
      modifies this`credits, this`creditsEarned, this`remainingReward, this`score, this`bonus,
        this`noEnemiesOnStage, this`lifes
      ensures Accounts() == Exited(old(Accounts()), value, gameOver, waveReward, rules, StageCleared())
    {
      ChargeExit(value);
      CheckStageCleared();
    }

    /** What launching a wave does: the pending bonus is paid, the cooldown
        starts, the template of this round (cycling through the templates) is
        expanded into absolute ticks and merged into the schedule (see
        MergedSchedule), the round advances, and the
        wave's reward, the total life and reward of the whole schedule, the
        difficulty and the bonus are computed. */
    twostate predicate WaveLaunched()
      reads this
    {
      var added := NewWaveEntries(waves, old(round), enemySpawningDeltaTicks, ticksCounter);
      && credits == old(credits) + old(bonus) && creditsEarned == old(creditsEarned) + old(bonus)
      && !canLaunchNextWave && !noEnemiesOnStage && !allEnemiesSpawned && waveActivated
      && round == old(round) + 1 && lastWaveTick == ticksCounter
      && waveEnemies == MergeSort(old(waveEnemies) + added, Tick)
      && waveReward == waves[old(round) % |waves|].waveReward
      && waveEnemiesLength == old(waveEnemiesLength) + |added|
      && waveDefaultHealth == TotalHealth(waveEnemies, enemyData)
      && remainingReward == old(remainingReward) + TotalReward(waveEnemies, enemyData, old(enemyRewardModifier))
      && (enemyHealthModifier, enemyRewardModifier) == rules.difficulty(creditsEarned, waveDefaultHealth)
      && bonus == Bonus(rules, waveReward, remainingReward)
    }

    /** newWave: refused, with nothing changed, while the cooldown runs;
        otherwise the wave is launched. */
    method NewWave() returns (launched: bool)
      modifies this`credits, this`creditsEarned, this`canLaunchNextWave, this`noEnemiesOnStage,
        this`allEnemiesSpawned, this`round, this`waveEnemies, this`lastWaveTick, this`waveReward,
        this`waveActivated, this`waveEnemiesLength, this`waveDefaultHealth, this`remainingReward,
        this`enemyHealthModifier, this`enemyRewardModifier, this`bonus
      ensures launched == old(canLaunchNextWave)
      ensures !launched ==> unchanged(this)
      ensures launched ==> WaveLaunched()
    {
      launched := canLaunchNextWave;
      if launched {
        LaunchWave();
      }
    }

    /** The launching part of newWave, once the cooldown is over. */
    method LaunchWave()
      modifies this`credits, this`creditsEarned, this`canLaunchNextWave, this`noEnemiesOnStage,
        this`allEnemiesSpawned, this`round, this`waveEnemies, this`lastWaveTick, this`waveReward,
        this`waveActivated, this`waveEnemiesLength, this`waveDefaultHealth, this`remainingReward,
        this`enemyHealthModifier, this`enemyRewardModifier, this`bonus
      ensures WaveLaunched()
    {
      PayBonusAndOpen();
      ScheduleAndPrice();
    }

    /** The rest of newWave after the payout: the wave is scheduled, then
        priced. */
    method ScheduleAndPrice()
      modifies this`round, this`waveEnemies, this`lastWaveTick, this`waveReward, this`waveActivated,
        this`waveEnemiesLength, this`waveDefaultHealth, this`remainingReward, this`enemyHealthModifier,
        this`enemyRewardModifier, this`bonus
      ensures var added := NewWaveEntries(waves, old(round), enemySpawningDeltaTicks, ticksCounter);
        && round == old(round) + 1 && lastWaveTick == ticksCounter && waveActivated
        && waveEnemies == MergeSort(old(waveEnemies) + added, Tick)
        && waveReward == waves[old(round) % |waves|].waveReward
        && waveEnemiesLength == old(waveEnemiesLength) + |added|
        && waveDefaultHealth == TotalHealth(waveEnemies, enemyData)
        && remainingReward == old(remainingReward) + TotalReward(waveEnemies, enemyData, old(enemyRewardModifier))
        && (enemyHealthModifier, enemyRewardModifier) == rules.difficulty(creditsEarned, waveDefaultHealth)
        && bonus == Bonus(rules, waveReward, remainingReward)
    {
      ScheduleWave();
      PriceWave();
    }

    /** The first steps of newWave: the pending bonus is paid and the wave
        flags are reset. */
    method PayBonusAndOpen()
      modifies this`credits, this`creditsEarned, this`canLaunchNextWave, this`noEnemiesOnStage,
        this`allEnemiesSpawned
      ensures credits == old(credits) + bonus && creditsEarned == old(creditsEarned) + bonus
      ensures !canLaunchNextWave && !noEnemiesOnStage && !allEnemiesSpawned
    {
      credits := credits + bonus;
      creditsEarned := creditsEarned + bonus;
      canLaunchNextWave := false;
      noEnemiesOnStage := false;
      allEnemiesSpawned := false;
    }

    /** The scheduling part of newWave: this round's template is expanded and
        merged into the schedule, and the round advances. */
    method ScheduleWave()
      modifies this`round, this`waveEnemies, this`lastWaveTick, this`waveReward, this`waveActivated,
        this`waveEnemiesLength
      ensures var added := NewWaveEntries(waves, old(round), enemySpawningDeltaTicks, ticksCounter);
        && waveEnemies == MergeSort(old(waveEnemies) + added, Tick)
        && waveEnemiesLength == old(waveEnemiesLength) + |added|
      ensures round == old(round) + 1 && lastWaveTick == ticksCounter && waveActivated
      ensures waveReward == waves[old(round) % |waves|].waveReward
    {
      var newWaveEnemies := WaveEntries();
      round := round + 1;
      waveEnemies := MergeSort(waveEnemies + newWaveEnemies, Tick);
      lastWaveTick := ticksCounter;
      waveReward := waves[(round - 1) % |waves|].waveReward;
      waveActivated := true;
      waveEnemiesLength := waveEnemiesLength + |newWaveEnemies|;
    }

    /** The entries this round's template adds: the copy loop, then the
        conversion to absolute ticks. */
    method WaveEntries() returns (entries: seq<WaveEntry>)
      ensures entries == NewWaveEntries(waves, round, enemySpawningDeltaTicks, ticksCounter)
    {
      var waveData := waves[round % |waves|];
      assert waveData in waves;
      var extend := round / |waves|;
      var extraWaves := Min(IntMul(extend, waveData.extend), waveData.maxExtend);
      entries := ExpandTemplate(waveData.enemies, extraWaves);
      entries := ToAbsolute(entries, enemySpawningDeltaTicks, ticksCounter);
    }

    /** The pricing part of newWave: the total life and reward of the whole
        schedule, the difficulty they give, and the bonus. */
    method PriceWave()
      modifies this`waveDefaultHealth, this`remainingReward, this`enemyHealthModifier, this`enemyRewardModifier,
        this`bonus
      ensures waveDefaultHealth == TotalHealth(waveEnemies, enemyData)
      ensures remainingReward == old(remainingReward) + TotalReward(waveEnemies, enemyData, old(enemyRewardModifier))
      ensures (enemyHealthModifier, enemyRewardModifier) == rules.difficulty(creditsEarned, waveDefaultHealth)
      ensures bonus == Bonus(rules, waveReward, remainingReward)
    {
      var health, reward := SumWave(waveEnemies, enemyData, enemyRewardModifier);
      waveDefaultHealth := health;
      remainingReward := remainingReward + reward;
      var modifiers := rules.difficulty(creditsEarned, waveDefaultHealth);
      enemyHealthModifier := modifiers.0;
      enemyRewardModifier := modifiers.1;
      bonus := Bonus(rules, waveReward, remainingReward);
    }

    /** Whether the wave is over: the stage is clear, the whole schedule has
        been spawned and nothing is left in flight. */
    predicate WaveOver()
      reads this`noEnemiesOnStage, this`allEnemiesSpawned, this`glueBullets, this`mortars
    {
      noEnemiesOnStage && allEnemiesSpawned && glueBullets == [] && mortars == []
    }

    /** Whether the cooldown after the last wave launch has run out. */
    predicate CooldownOver()
      reads this`ticksCounter, this`lastWaveTick
    {
      ticksCounter - lastWaveTick >= IntMul(rules.initialTicksWave, enemySpawningDeltaTicks)
    }

    /** update: one tick of the game. The game is over once the lives are
        spent; an ended wave is closed and its turrets aged; the cooldown is
        checked; hits are settled, flagged enemies teleported, collisions
        found, enemies spawned and every entity stepped; the tick counter
        advances by exactly one. Over the tick credits and score never fall,
        lives never rise, every credit gained is earned, and after game over
        the score is frozen. */
    method Update()
      requires Valid()
      modifies this`glueBullets, this`glueBulletsColliding, this`mortars, this`mortarsImpacting, this`enemies,
        this`credits, this`creditsEarned, this`remainingReward, this`score, this`bonus, this`noEnemiesOnStage,
        this`lifes, this`teleportedEnemies, this`waveEnemies, this`enemyId, this`enemiesSpawned,
        this`allEnemiesSpawned, this`waveEnemiesLength, this`allEnemies, this`ticksCounter,
        this`gameOver, this`waveActivated, this`canLaunchNextWave
      modifies allEnemies, allTurrets, allGlueBullets, allMortars
      ensures Valid()
      ensures ticksCounter == old(ticksCounter) + 1
      ensures round == old(round) && lastWaveTick == old(lastWaveTick)
      ensures gameOver == (old(gameOver) || old(lifes) <= 0)
      ensures Progressed(old(Accounts()), Accounts(), gameOver)
      ensures waveActivated ==> old(waveActivated)
      ensures canLaunchNextWave == (old(canLaunchNextWave) || old(CooldownOver()))
      ensures forall e :: e in allEnemies && e !in old(allEnemies) ==> fresh(e)
    {
      StartTick();
      PlayAndCount();
    }

    /** The tick after its checks, ending with the tick counter moving on by
        one. */
    method PlayAndCount()
      requires Valid()
      modifies this`glueBullets, this`glueBulletsColliding, this`mortars, this`mortarsImpacting, this`enemies,
        this`credits, this`creditsEarned, this`remainingReward, this`score, this`bonus, this`noEnemiesOnStage,
        this`lifes, this`teleportedEnemies, this`waveEnemies, this`enemyId, this`enemiesSpawned,
        this`allEnemiesSpawned, this`waveEnemiesLength, this`allEnemies, this`ticksCounter
      modifies allEnemies, allTurrets, allGlueBullets, allMortars
      ensures Valid()
      ensures ticksCounter == old(ticksCounter) + 1
      ensures Progressed(old(Accounts()), Accounts(), gameOver)
      ensures forall e :: e in allEnemies && e !in old(allEnemies) ==> fresh(e)
    {
      PlayTick();
      ticksCounter := ticksCounter + 1;
    }

    /** The checks at the start of a tick: game over, end of wave, cooldown. */
    method StartTick()
      requires Valid()
      modifies this`gameOver, this`waveActivated, this`canLaunchNextWave, allTurrets`sellValue
      ensures Valid()
      ensures gameOver == (old(gameOver) || lifes <= 0)
      ensures waveActivated == (old(waveActivated) && !WaveOver())
      ensures canLaunchNextWave == (old(canLaunchNextWave) || CooldownOver())
    {
      if lifes <= 0 && !gameOver {
        gameOver := true;
      }
      CloseWaveAndCooldown();
    }

    /** The end of an ended wave, then the cooldown check. */
    method CloseWaveAndCooldown()
      requires Valid()
      modifies this`waveActivated, this`canLaunchNextWave, allTurrets`sellValue
      ensures Valid()
      ensures waveActivated == (old(waveActivated) && !WaveOver())
      ensures canLaunchNextWave == (old(canLaunchNextWave) || CooldownOver())
    {
      CloseWave();
      if CooldownOver() && !canLaunchNextWave {
        canLaunchNextWave := true;
      }
    }

    /** When the wave is over it is deactivated and every turret on the board
        ages. */
    method CloseWave()
      requires Valid()
      modifies this`waveActivated, allTurrets`sellValue
      ensures Valid()
      ensures waveActivated == (old(waveActivated) && !WaveOver())
      ensures WaveOver() ==> forall k :: 0 <= k < |turrets| ==>
        turrets[k].sellValue == AgedSellValue(old(turrets[k].sellValue), turrets[k].value)
    {
      if WaveOver() {
        waveActivated := false;
        AgeTurrets();
      }
    }

    /** ageTurrets: every turret on the board ages once. */
    method AgeTurrets()
      requires Valid()
      modifies allTurrets`sellValue
      ensures Valid()
      ensures forall k :: 0 <= k < |turrets| ==>
        turrets[k].sellValue == AgedSellValue(old(turrets[k].sellValue), turrets[k].value)
    {
      var i := 0;
      while i < |turrets|
        invariant 0 <= i <= |turrets|
        invariant Valid()
        invariant forall k :: 0 <= k < i ==>
          turrets[k].sellValue == AgedSellValue(old(turrets[k].sellValue), turrets[k].value)
        invariant forall k :: i <= k < |turrets| ==> turrets[k].sellValue == old(turrets[k].sellValue)
      {
        var t := turrets[i];
        assert t in allTurrets;
        assert forall k :: 0 <= k < |turrets| && k != i ==> turrets[k] != t;
        t.AgeTurret();
        i := i + 1;
      }
    }

    /** The rest of the tick once the checks are done: hits are settled and
        enemies teleported, then everything moves. */
    method PlayTick()
      requires Valid()
      modifies this`glueBullets, this`glueBulletsColliding, this`mortars, this`mortarsImpacting, this`enemies,
        this`credits, this`creditsEarned, this`remainingReward, this`score, this`bonus, this`noEnemiesOnStage,
        this`lifes, this`teleportedEnemies, this`waveEnemies, this`enemyId, this`enemiesSpawned,
        this`allEnemiesSpawned, this`waveEnemiesLength, this`allEnemies
      modifies allEnemies, allTurrets, allGlueBullets, allMortars
      ensures Valid()
      ensures Progressed(old(Accounts()), Accounts(), gameOver)
      ensures forall e :: e in allEnemies && e !in old(allEnemies) ==> fresh(e)
    {
      Resolve();
      Move();
    }

    /** The settling part of the tick: while a wave is active the queued hits
        are settled, then the flagged enemies are teleported. */
    method Resolve()
      requires Valid()
      modifies this`glueBullets, this`glueBulletsColliding, this`mortars, this`mortarsImpacting, this`enemies,
        this`credits, this`creditsEarned, this`remainingReward, this`score, this`bonus, this`noEnemiesOnStage,
        this`teleportedEnemies
      modifies allEnemies`life, allEnemies`glueTicksCounter, allEnemies`affectedByGlueBullet,
        allEnemies`glueBulletIntensity, allEnemies`glueBulletDurationTicks, allEnemies`hasBeenTeleported,
        allEnemies`teleporting, allEnemies`t, allEnemies`l, allEnemies`x, allEnemies`y
      modifies allTurrets`inflicted, allGlueBullets`assignedEnemy
      ensures Valid()
      ensures Progressed(old(Accounts()), Accounts(), gameOver)
      ensures old(waveActivated) ==>
        && glueBulletsColliding == [] && glueBullets == SpliceAll(old(glueBullets), old(glueBulletsColliding))
        && mortarsImpacting == [] && mortars == SpliceAll(old(mortars), old(mortarsImpacting))
      ensures !old(waveActivated) ==>
        && glueBullets == old(glueBullets) && glueBulletsColliding == old(glueBulletsColliding)
        && mortars == old(mortars) && mortarsImpacting == old(mortarsImpacting)
        && enemies == old(enemies) && Accounts() == old(Accounts())
      ensures teleportedEnemies == []
      ensures forall e :: e in allEnemies ==> e.PoseOf() == TeleportedPose(old(teleportedEnemies), e, old(e.PoseOf()), path)
    {
      Settle();
      TeleportFlagged();
    }

    /** The queued hits are settled while a wave is active, and left queued
        otherwise. */
    method Settle()
      requires Valid()
      modifies this`glueBullets, this`glueBulletsColliding, this`mortars, this`mortarsImpacting, this`enemies,
        this`credits, this`creditsEarned, this`remainingReward, this`score, this`bonus, this`noEnemiesOnStage
      modifies allEnemies`life, allEnemies`glueTicksCounter, allEnemies`affectedByGlueBullet,
        allEnemies`glueBulletIntensity, allEnemies`glueBulletDurationTicks, allTurrets`inflicted
      ensures Valid()
      ensures Progressed(old(Accounts()), Accounts(), gameOver)
      ensures old(waveActivated) ==>
        && glueBulletsColliding == [] && glueBullets == SpliceAll(old(glueBullets), old(glueBulletsColliding))
        && mortarsImpacting == [] && mortars == SpliceAll(old(mortars), old(mortarsImpacting))
      ensures !old(waveActivated) ==>
        && glueBullets == old(glueBullets) && glueBulletsColliding == old(glueBulletsColliding)
        && mortars == old(mortars) && mortarsImpacting == old(mortarsImpacting)
        && enemies == old(enemies) && Accounts() == old(Accounts())
      ensures forall e :: e in allEnemies ==> e.PoseOf() == old(e.PoseOf())
    {
      if waveActivated {
        RemoveProjectilesAndAccountDamage();
      }
    }

    /** removeProjectilesAndAccountDamage: the colliding glue bullets, then
        the impacting mortars, are settled and taken out of flight, and both
        queues are emptied. */
    method RemoveProjectilesAndAccountDamage()
      requires Valid()
      modifies this`glueBullets, this`glueBulletsColliding, this`mortars, this`mortarsImpacting, this`enemies,
        this`credits, this`creditsEarned, this`remainingReward, this`score, this`bonus, this`noEnemiesOnStage
      modifies allEnemies`life, allEnemies`glueTicksCounter, allEnemies`affectedByGlueBullet,
        allEnemies`glueBulletIntensity, allEnemies`glueBulletDurationTicks, allTurrets`inflicted
      ensures Valid()
      ensures glueBulletsColliding == [] && glueBullets == SpliceAll(old(glueBullets), old(glueBulletsColliding))
      ensures mortarsImpacting == [] && mortars == SpliceAll(old(mortars), old(mortarsImpacting))
      ensures Progressed(old(Accounts()), Accounts(), gameOver)
    {
      DrainGlueBullets();
      DrainMortars();
    }

    /** The glue-bullet queue: a bullet still on the board whose enemy is alive
        slows that enemy down; every queued bullet leaves the list of bullets
        in flight (by `splice(indexOf(b), 1)`), and the queue is emptied. */
    method DrainGlueBullets()
      requires Valid()
      modifies this`glueBullets, this`glueBulletsColliding
      modifies allEnemies`glueTicksCounter, allEnemies`affectedByGlueBullet, allEnemies`glueBulletIntensity,
        allEnemies`glueBulletDurationTicks
      ensures Valid()
      ensures glueBulletsColliding == [] && glueBullets == SpliceAll(old(glueBullets), old(glueBulletsColliding))
    {
      var i := 0;
      while i < |glueBulletsColliding|
        invariant 0 <= i <= |glueBulletsColliding|
        invariant Valid()
        invariant glueBullets == SpliceAll(old(glueBullets), glueBulletsColliding[..i])
        invariant glueBulletsColliding == old(glueBulletsColliding)
      {
        StickAt(i, old(glueBullets));
        i := i + 1;
      }
      assert glueBulletsColliding[..i] == glueBulletsColliding;
      glueBulletsColliding := [];
    }

    /** The step of the glue bullet queue at index `i`. */
    method StickAt(i: nat, ghost start: seq<GlueBullet>)
      requires Valid() && i < |glueBulletsColliding| && glueBullets == SpliceAll(start, glueBulletsColliding[..i])
      modifies this`glueBullets
      modifies allEnemies`glueTicksCounter, allEnemies`affectedByGlueBullet, allEnemies`glueBulletIntensity,
        allEnemies`glueBulletDurationTicks
      ensures Valid() && glueBulletsColliding == old(glueBulletsColliding)
      ensures glueBullets == SpliceAll(start, glueBulletsColliding[..i + 1])
    {
      assert glueBulletsColliding[i] in allGlueBullets;
      SpliceAllStep(start, glueBulletsColliding, i);
      Stick(glueBulletsColliding[i]);
    }

    /** Whether a queued glue bullet slows its enemy down: it is still on the
        board and its enemy is alive. */
    predicate Sticks(glueBullet: GlueBullet)
      reads glueBullet
      reads if glueBullet.assignedEnemy.Some? then {glueBullet.assignedEnemy.value} else {}
    {
      !glueBullet.outOfStageBoundaries && glueBullet.assignedEnemy.Some? && glueBullet.assignedEnemy.value.life != 0.0
    }

    /** One queued glue bullet: when still on the board it slows down the
        living enemy it is assigned to; then it leaves the bullets in flight. */
    method Stick(glueBullet: GlueBullet)
      requires Valid() && glueBullet in allGlueBullets
      modifies this`glueBullets
      modifies allEnemies`glueTicksCounter, allEnemies`affectedByGlueBullet, allEnemies`glueBulletIntensity,
        allEnemies`glueBulletDurationTicks
      ensures Valid()
      ensures glueBullets == SpliceIndexOf(old(glueBullets), glueBullet)
      ensures Sticks(glueBullet) ==>
        var enemy := glueBullet.assignedEnemy.value;
        enemy.affectedByGlueBullet && enemy.glueTicksCounter == 0
        && enemy.glueBulletIntensity == glueBullet.intensity && enemy.glueBulletDurationTicks == glueBullet.durationTicks
      ensures !Sticks(glueBullet) ==> unchanged(allEnemies)
    {
      if !glueBullet.outOfStageBoundaries && glueBullet.assignedEnemy.Some? {
        var enemy := glueBullet.assignedEnemy.value;
        if enemy.life != 0.0 {
          enemy.HitByGlueBullet(glueBullet.intensity, glueBullet.durationTicks);
        }
      }
      SpliceIndexOfWithin(glueBullets, glueBullet, allGlueBullets);
      SpliceIndexOfDistinct(glueBullets, glueBullet);
      glueBullets := SpliceIndexOf(glueBullets, glueBullet);
    }

    /** The mortar queue: every impacting mortar explodes on the enemies it
        reaches and leaves the list of mortars in flight (by
        `splice(indexOf(m), 1)`), and the queue is emptied. The explosions
        are taken first and the splices after, which changes nothing since an
        explosion does not look at the list of mortars in flight. */
    method DrainMortars()
      requires Valid()
      modifies this`mortars, this`mortarsImpacting, this`enemies,
        this`credits, this`creditsEarned, this`remainingReward, this`score, this`bonus, this`noEnemiesOnStage
      modifies allEnemies`life, allTurrets`inflicted
      ensures Valid()
      ensures mortarsImpacting == [] && mortars == SpliceAll(old(mortars), old(mortarsImpacting))
      ensures Progressed(old(Accounts()), Accounts(), gameOver)
    {
      ExplodeImpacting();
      SpliceImpacting();
    }

    /** Every queued mortar explodes, in queue order. */
    method ExplodeImpacting()
      requires Valid()
      modifies this`enemies, this`credits, this`creditsEarned, this`remainingReward, this`score, this`bonus,
        this`noEnemiesOnStage
      modifies allEnemies`life, allTurrets`inflicted
      ensures Valid()
      ensures Progressed(old(Accounts()), Accounts(), gameOver)
    {
      var i := 0;
      while i < |mortarsImpacting|
        invariant 0 <= i <= |mortarsImpacting|
        invariant Valid()
        invariant Progressed(old(Accounts()), Accounts(), gameOver)
      {
        assert mortarsImpacting[i] in allMortars;
        ghost var before := Accounts();
        Explode(mortarsImpacting[i]);
        ProgressedTransitive(old(Accounts()), before, Accounts(), gameOver);
        i := i + 1;
      }
    }

    /** The queued mortars leave the list in flight, and the queue is emptied. */
    method SpliceImpacting()
      requires Valid()
      modifies this`mortars, this`mortarsImpacting
      ensures Valid()
      ensures mortarsImpacting == [] && mortars == SpliceAll(old(mortars), old(mortarsImpacting))
    {
      SpliceAllWithin(mortars, mortarsImpacting, allMortars);
      SpliceAllDistinct(mortars, mortarsImpacting);
      mortars := SpliceAll(mortars, mortarsImpacting);
      mortarsImpacting := [];
    }

    /** The explosion of one mortar: every enemy within its range that is
        still alive is hit by the damage its distance gives, the mortar's
        turret is credited with it, and a kill is settled on the spot. */
    method Explode(mortar: Mortar)
      requires Valid() && mortar in allMortars
      modifies this`enemies, this`credits, this`creditsEarned, this`remainingReward, this`score, this`bonus,
        this`noEnemiesOnStage
      modifies allEnemies`life, allTurrets`inflicted
      ensures Valid()
      ensures Progressed(old(Accounts()), Accounts(), gameOver)
    {
      var hits, turret := Blast(mortar);
      var j := 0;
      while j < |hits|
        invariant 0 <= j <= |hits|
        invariant Valid()
        invariant Progressed(old(Accounts()), Accounts(), gameOver)
      {
        var enemy := hits[j].0;
        if enemy.life > 0.0 {
          ghost var before := Accounts();
          HitByMortar(enemy, hits[j].1, turret);
          ProgressedTransitive(old(Accounts()), before, Accounts(), gameOver);
        }
        j := j + 1;
      }
    }

    /** What an explosion reaches: exactly the enemies on stage within its
        range, each with the damage its distance gives, and the turret that
        fired it. */
    method Blast(mortar: Mortar) returns (hits: seq<(Enemy, real)>, turret: Turret)
      requires Valid() && mortar in allMortars
      ensures hits == ExplosionHits(enemies, geometry, mortar.x, mortar.y, mortar.explosionRange, mortar.damage)
      ensures forall k :: 0 <= k < |hits| ==> hits[k].0 in allEnemies
      ensures turret == mortar.turret && turret in allTurrets
    {
      hits := mortar.GetEnemiesWithinExplosionRange(enemies, geometry);
      ExplosionHitsExactly(enemies, geometry, mortar.x, mortar.y, mortar.explosionRange, mortar.damage);
      turret := mortar.turret;
      assert mortar.Valid();
      forall k | 0 <= k < |hits| ensures hits[k].0 in allEnemies {
        assert hits[k] in hits;
      }
    }

    /** One enemy hit by an explosion: the hit, the turret's statistics and,
        on a kill, onEnemyKilled. */
    method HitByMortar(enemy: Enemy, damage: real, turret: Turret)
      requires Valid() && enemy in allEnemies && turret in allTurrets
      modifies this`enemies, this`credits, this`creditsEarned, this`remainingReward, this`score, this`bonus,
        this`noEnemiesOnStage
      modifies enemy`life, turret`inflicted
      ensures Valid()
      ensures Progressed(old(Accounts()), Accounts(), gameOver)
    {
      var killed := Strike(enemy, damage, turret);
      if killed {
        Retire(enemy);
      }
    }

    /** onEnemyKilled within a valid engine: the invariant holds afterwards
        and the accounts progress. */
    method Retire(enemy: Enemy)
      requires Valid() && enemy in allEnemies
      modifies this`enemies, this`credits, this`creditsEarned, this`remainingReward, this`score, this`bonus,
        this`noEnemiesOnStage
      ensures Valid()
      ensures enemy !in enemies
      ensures Progressed(old(Accounts()), Accounts(), gameOver)
    {
      OnEnemyKilled(enemy);
    }

    /** The hit itself: a living enemy takes the damage and the turret is
        credited with it rounded; `killed` tells whether the hit killed. */
    method Strike(enemy: Enemy, damage: real, turret: Turret) returns (killed: bool)
      requires Valid() && enemy in allEnemies && turret in allTurrets
      modifies enemy`life, turret`inflicted
      ensures Valid()
      ensures killed <==> old(enemy.life) > 0.0 && enemy.life == 0.0
      ensures turret.inflicted == old(turret.inflicted) + (if old(enemy.life) > 0.0 then Round(damage) else 0)
    {
      var landed, inflicted;
      landed, killed, inflicted := enemy.Hit(damage, ByMortar, rules);
      turret.inflicted := turret.inflicted + inflicted;
    }

    /** teleport: every flagged enemy is teleported back by its distance and
        no glue bullet in flight stays assigned to an enemy with its id; the
        flags are cleared. */
    method TeleportFlagged()
      requires Valid()
      modifies this`teleportedEnemies
      modifies allEnemies`hasBeenTeleported, allEnemies`teleporting, allEnemies`t, allEnemies`l, allEnemies`x,
        allEnemies`y, allGlueBullets`assignedEnemy
      ensures Valid()
      ensures teleportedEnemies == []
      ensures forall e :: e in allEnemies ==> e.PoseOf() == TeleportedPose(old(teleportedEnemies), e, old(e.PoseOf()), path)
      ensures forall k, i :: 0 <= k < |old(teleportedEnemies)| && 0 <= i < |glueBullets| && glueBullets[i].assignedEnemy.Some? ==>
        glueBullets[i].assignedEnemy.value.id != old(teleportedEnemies)[k].0.id
      ensures forall g :: g in allGlueBullets ==> g.assignedEnemy == old(g.assignedEnemy) || g.assignedEnemy.None?
    {
      ghost var start := map e | e in allEnemies :: e.PoseOf();
      TeleportAll(start);
      teleportedEnemies := [];
    }

    /** The teleport loop: every flagged enemy in order, each from the pose
        the earlier entries left it in. */
    method TeleportAll(ghost start: map<Enemy, Pose>)
      requires Valid() && Folded([], start)
      modifies allEnemies`hasBeenTeleported, allEnemies`teleporting, allEnemies`t, allEnemies`l, allEnemies`x,
        allEnemies`y, allGlueBullets`assignedEnemy
      ensures Valid() && Folded(teleportedEnemies, start)
      ensures forall k, i :: 0 <= k < |teleportedEnemies| && 0 <= i < |glueBullets| && glueBullets[i].assignedEnemy.Some? ==>
        glueBullets[i].assignedEnemy.value.id != teleportedEnemies[k].0.id
      ensures forall g :: g in allGlueBullets ==> g.assignedEnemy == old(g.assignedEnemy) || g.assignedEnemy.None?
    {
      var i := 0;
      while i < |teleportedEnemies|
        invariant 0 <= i <= |teleportedEnemies|
        invariant Valid()
        invariant Folded(teleportedEnemies[..i], start)
        invariant forall k, j :: 0 <= k < i && 0 <= j < |glueBullets| && glueBullets[j].assignedEnemy.Some? ==>
          glueBullets[j].assignedEnemy.value.id != teleportedEnemies[k].0.id
        invariant forall g :: g in allGlueBullets ==> g.assignedEnemy == old(g.assignedEnemy) || g.assignedEnemy.None?
      {
        TeleportAt(i, start);
        i := i + 1;
      }
      assert teleportedEnemies[..i] == teleportedEnemies;
    }

    /** Every enemy the engine created is in the pose the teleports in `q`
        leave it in, starting from its pose in `start`. */
    ghost predicate Folded(q: seq<(Enemy, real)>, start: map<Enemy, Pose>)
      reads this`allEnemies, allEnemies
    {
      forall e :: e in allEnemies ==> e in start && e.PoseOf() == TeleportedPose(q, e, start[e], path)
    }

    /** The flagged enemy at index `i` is teleported and no glue bullet in
        flight stays assigned to an enemy with its id; an enemy already
        teleported stays so, and a bullet only ever loses its assignment. */
    method TeleportAt(i: nat, ghost start: map<Enemy, Pose>)
      requires Valid() && i < |teleportedEnemies| && Folded(teleportedEnemies[..i], start)
      modifies allEnemies`hasBeenTeleported, allEnemies`teleporting, allEnemies`t, allEnemies`l, allEnemies`x,
        allEnemies`y, allGlueBullets`assignedEnemy
      ensures Valid() && Folded(teleportedEnemies[..i + 1], start)
      ensures forall j :: 0 <= j < |glueBullets| && glueBullets[j].assignedEnemy.Some? ==>
        glueBullets[j].assignedEnemy.value.id != teleportedEnemies[i].0.id
      ensures forall g :: g in allGlueBullets ==> g.assignedEnemy == old(g.assignedEnemy) || g.assignedEnemy.None?
    {
      var enemy := teleportedEnemies[i].0;
      assert enemy in allEnemies;
      enemy.Teleport(teleportedEnemies[i].1, path);
      Unassign(enemy.id);
      forall e | e in allEnemies
        ensures e.PoseOf() == TeleportedPose(teleportedEnemies[..i + 1], e, start[e], path)
      {
        TeleportedPoseStep(teleportedEnemies, i, e, start[e], path);
      }
    }

    /** Every glue bullet in flight assigned to an enemy with the given id loses
        its assignment; no other assignment changes. */
    method Unassign(id: int)
      requires Valid()
      modifies allGlueBullets`assignedEnemy
      ensures Valid()
      ensures forall j :: 0 <= j < |glueBullets| && glueBullets[j].assignedEnemy.Some? ==>
        glueBullets[j].assignedEnemy.value.id != id
      ensures forall g :: g in allGlueBullets ==> g.assignedEnemy == old(g.assignedEnemy) || g.assignedEnemy.None?
    {
      var i := 0;
      while i < |glueBullets|
        invariant 0 <= i <= |glueBullets|
        invariant Valid()
        invariant forall j :: 0 <= j < i && glueBullets[j].assignedEnemy.Some? ==> glueBullets[j].assignedEnemy.value.id != id
        invariant forall g :: g in allGlueBullets ==> g.assignedEnemy == old(g.assignedEnemy) || g.assignedEnemy.None?
      {
        var glueBullet := glueBullets[i];
        assert glueBullet in allGlueBullets;
        if glueBullet.assignedEnemy.Some? && glueBullet.assignedEnemy.value.id == id {
          glueBullet.assignedEnemy := None;
        }
        i := i + 1;
      }
    }

    /** The moving part of the tick: collisions are found and due enemies
        spawned, then every entity is stepped. */
    method Move()
      requires Valid()
      modifies this`glueBulletsColliding, this`mortarsImpacting, this`enemies, this`credits, this`creditsEarned,
        this`remainingReward, this`score, this`bonus, this`noEnemiesOnStage, this`lifes, this`waveEnemies,
        this`enemyId, this`enemiesSpawned, this`allEnemiesSpawned, this`waveEnemiesLength, this`allEnemies
      modifies allEnemies, allTurrets, allGlueBullets, allMortars
      ensures Valid()
      ensures Progressed(old(Accounts()), Accounts(), gameOver)
      ensures forall e :: e in allEnemies && e !in old(allEnemies) ==> fresh(e)
    {
      CollideAndSpawn();
      StepEntities();
    }

    /** checkCollisions, then spawnEnemies. */
    method CollideAndSpawn()
      requires Valid()
      modifies this`glueBulletsColliding, this`mortarsImpacting, this`enemies, this`waveEnemies, this`enemyId,
        this`enemiesSpawned, this`allEnemiesSpawned, this`waveEnemiesLength, this`allEnemies
      modifies allEnemies`affectedByGlue, allGlueBullets`assignedEnemy
      ensures Valid()
      ensures forall e :: e in allEnemies && e !in old(allEnemies) ==> fresh(e)
    {
      CheckCollisions();
      SpawnEnemies();
    }

    /** checkCollisions: the glue bullets that hit an enemy or left the board are
        queued, the mortars set to detonate are queued, and the glue-puddle
        slow-down is recomputed. */
    method CheckCollisions()
      requires Valid()
      modifies this`glueBulletsColliding, this`mortarsImpacting, allEnemies`affectedByGlue, allGlueBullets`assignedEnemy
      ensures Valid()
      ensures forall i :: 0 <= i < |glueBullets| && glueBullets[i].outOfStageBoundaries ==> glueBullets[i] in glueBulletsColliding
      ensures mortarsImpacting == old(mortarsImpacting) + Detonated(mortars)
      ensures forall i :: 0 <= i < |enemies| && enemies[i].enemyType != Flier ==> !enemies[i].affectedByGlue
    {
      CollideGlueBullets();
      QueueImpactsAndUnglue();
    }

    /** The mortars, then the puddle pass of checkCollisions. */
    method QueueImpactsAndUnglue()
      requires Valid()
      modifies this`mortarsImpacting, allEnemies`affectedByGlue
      ensures Valid()
      ensures mortarsImpacting == old(mortarsImpacting) + Detonated(mortars)
      ensures forall i :: 0 <= i < |enemies| && enemies[i].enemyType != Flier ==> !enemies[i].affectedByGlue
    {
      QueueDetonated();
      Unglue();
    }

    /** The glue-bullet pass of checkCollisions. A bullet off the board is
        queued. A bullet with an enemy is queued when its next step crosses
        that enemy's bounding circle, 1.65 times larger for a dead enemy. A
        bullet without one takes the first enemy on stage whose circle, 1.25
        times larger, its next step crosses, and is queued. */
    method CollideGlueBullets()
      requires Valid()
      modifies this`glueBulletsColliding, allGlueBullets`assignedEnemy
      ensures Valid()
      ensures old(glueBulletsColliding) <= glueBulletsColliding
      ensures forall i :: 0 <= i < |glueBullets| && glueBullets[i].outOfStageBoundaries ==> glueBullets[i] in glueBulletsColliding
    {
      var i := 0;
      while i < |glueBullets|
        invariant 0 <= i <= |glueBullets|
        invariant Valid()
        invariant old(glueBulletsColliding) <= glueBulletsColliding
        invariant forall k :: 0 <= k < i && glueBullets[k].outOfStageBoundaries ==> glueBullets[k] in glueBulletsColliding
      {
        var glueBullet := glueBullets[i];
        assert glueBullet in allGlueBullets;
        var hit := Collides(glueBullet);
        if hit {
          glueBulletsColliding := glueBulletsColliding + [glueBullet];
        }
        i := i + 1;
      }
    }

    /** Whether the glue bullet's step this tick, from its position to the one
        after its next update, crosses the circle of radius `r` around the
        enemy. */
    ghost predicate Crosses(glueBullet: GlueBullet, enemy: Enemy, r: real)
      reads glueBullet`x, glueBullet`y, enemy`x, enemy`y
    {
      geometry.segmentHitsCircle(Point(glueBullet.x, glueBullet.y), glueBullet.PositionNextTick(), Point(enemy.x, enemy.y), r)
    }

    /** Whether a glue bullet collides this tick. A bullet off the board
        always does; a bullet with an enemy does when its step crosses that
        enemy's bounding circle (1.65 times as wide once the enemy has no
        life left); a bullet without one does when its step crosses 1.25
        times the bounding circle of some enemy on stage, and is assigned the
        first such enemy. */
    method Collides(glueBullet: GlueBullet) returns (hit: bool)
      requires Valid() && glueBullet in allGlueBullets
      modifies glueBullet`assignedEnemy
      ensures Valid()
      ensures glueBullet.outOfStageBoundaries ==> hit && unchanged(glueBullet)
      ensures old(glueBullet.assignedEnemy).Some? ==> unchanged(glueBullet)
      ensures !glueBullet.outOfStageBoundaries && glueBullet.assignedEnemy.Some? && old(glueBullet.assignedEnemy).Some? ==>
        var enemy := glueBullet.assignedEnemy.value;
        hit == Crosses(glueBullet, enemy, if enemy.life > 0.0 then enemy.boundingRadius else 1.65 * enemy.boundingRadius)
      ensures !glueBullet.outOfStageBoundaries && old(glueBullet.assignedEnemy).None? ==>
        && (hit <==> exists j :: 0 <= j < |enemies| && Crosses(glueBullet, enemies[j], 1.25 * enemies[j].boundingRadius))
        && (!hit ==> glueBullet.assignedEnemy.None?)
        && (hit ==> exists j :: (0 <= j < |enemies| && glueBullet.assignedEnemy == Some(enemies[j])
                                 && Crosses(glueBullet, enemies[j], 1.25 * enemies[j].boundingRadius)
                                 && forall k :: 0 <= k < j ==> !Crosses(glueBullet, enemies[k], 1.25 * enemies[k].boundingRadius)))
      ensures glueBullet.assignedEnemy.Some? ==> glueBullet.assignedEnemy.value in allEnemies
    {
      if glueBullet.outOfStageBoundaries {
        return true;
      }
      var bp1 := Point(glueBullet.x, glueBullet.y);
      var bp2 := glueBullet.PositionNextTick();
      if glueBullet.assignedEnemy.Some? {
        var enemy := glueBullet.assignedEnemy.value;
        var boundingRadius := if enemy.life > 0.0 then enemy.boundingRadius else 1.65 * enemy.boundingRadius;
        hit := geometry.segmentHitsCircle(bp1, bp2, Point(enemy.x, enemy.y), boundingRadius);
      } else {
        hit := false;
        var j := 0;
        while j < |enemies|
          invariant 0 <= j <= |enemies|
          invariant unchanged(glueBullet)
          invariant forall k :: 0 <= k < j ==> !Crosses(glueBullet, enemies[k], 1.25 * enemies[k].boundingRadius)
        {
          var enemy := enemies[j];
          if geometry.segmentHitsCircle(bp1, bp2, Point(enemy.x, enemy.y), 1.25 * enemy.boundingRadius) {
            assert enemy in allEnemies;
            glueBullet.assignedEnemy := Some(enemy);
            hit := true;
            assert Crosses(glueBullet, enemies[j], 1.25 * enemies[j].boundingRadius);
            break;
          }
          j := j + 1;
        }
      }
    }

    /** The mortar pass of checkCollisions: every mortar set to detonate is
        queued, in list order. */
    method QueueDetonated()
      modifies this`mortarsImpacting
      ensures mortarsImpacting == old(mortarsImpacting) + Detonated(mortars)
    {
      var i := 0;
      while i < |mortars|
        invariant 0 <= i <= |mortars|
        invariant mortarsImpacting == old(mortarsImpacting) + Detonated(mortars[..i])
      {
        DetonatedStep(mortars, i);
        ghost var queued := Detonated(mortars[..i]);
        if mortars[i].detonate {
          mortarsImpacting := mortarsImpacting + [mortars[i]];
          assert mortarsImpacting == old(mortarsImpacting) + (queued + [mortars[i]]);
        }
        i := i + 1;
      }
      assert mortars[..i] == mortars;
    }

    /** The puddle pass of checkCollisions: every enemy on stage that does not
        fly leaves the glue, and with no puddles on the board none gets it
        back. */
    method Unglue()
      requires Valid()
      modifies allEnemies`affectedByGlue
      ensures Valid()
      ensures forall i :: 0 <= i < |enemies| && enemies[i].enemyType != Flier ==> !enemies[i].affectedByGlue
    {
      var i := 0;
      while i < |enemies|
        invariant 0 <= i <= |enemies|
        invariant Valid()
        invariant forall k :: 0 <= k < i && enemies[k].enemyType != Flier ==> !enemies[k].affectedByGlue
      {
        var enemy := enemies[i];
        assert enemy in allEnemies && enemy.Valid();
        if enemy.enemyType != Flier {
          enemy.affectedByGlue := false;
        }
        i := i + 1;
      }
    }

    /** spawnEnemies: the enemies the spawner hands out this tick join the
        stage in order, each a new enemy with the next id; the spawned count
        marks the wave fully spawned, and is reset, when it reaches the number
        of enemies the launched waves added. */
    method SpawnEnemies()
      requires Valid()
      modifies this`enemies, this`waveEnemies, this`enemyId, this`enemiesSpawned, this`allEnemiesSpawned,
        this`waveEnemiesLength, this`allEnemies
      ensures Valid()
      ensures var step := old(spawner(waveEnemies, ticksCounter, enemyHealthModifier, enemyRewardModifier));
        && waveEnemies == step.pending
        && |enemies| == old(|enemies|) + |step.due| && enemies[..old(|enemies|)] == old(enemies)
        && enemyId == old(enemyId) + |step.due|
        && forall k :: 0 <= k < |step.due| ==> SpawnedAs(enemies[old(|enemies|) + k], step.due[k], old(enemyId) + k)
      ensures old(allEnemiesSpawned) ==> allEnemiesSpawned
      ensures forall e :: e in allEnemies && e !in old(allEnemies) ==> fresh(e)
    {
      var due := TakeDue();
      SpawnDue(due);
    }

    /** The spawner's step at this tick: the enemies due leave the schedule. */
    method TakeDue() returns (due: seq<(EnemyType, EnemyAttributes)>)
      modifies this`waveEnemies
      ensures var step := old(spawner(waveEnemies, ticksCounter, enemyHealthModifier, enemyRewardModifier));
        waveEnemies == step.pending && due == step.due
    {
      var step := spawner(waveEnemies, ticksCounter, enemyHealthModifier, enemyRewardModifier);
      waveEnemies := step.pending;
      due := step.due;
    }

    /** The enemies due are spawned in order. */
    method SpawnDue(due: seq<(EnemyType, EnemyAttributes)>)
      requires Valid()
      modifies this`enemies, this`enemyId, this`enemiesSpawned, this`allEnemiesSpawned, this`waveEnemiesLength,
        this`allEnemies
      ensures Valid()
      ensures |enemies| == old(|enemies|) + |due| && enemies[..old(|enemies|)] == old(enemies)
      ensures enemyId == old(enemyId) + |due|
      ensures forall k :: 0 <= k < |due| ==> SpawnedAs(enemies[old(|enemies|) + k], due[k], old(enemyId) + k)
      ensures old(allEnemiesSpawned) ==> allEnemiesSpawned
      ensures forall e :: e in allEnemies && e !in old(allEnemies) ==> fresh(e)
    {
      assert enemies[..|enemies|] == enemies;
      var i := 0;
      while i < |due|
        invariant SpawnedUpTo(i, due, old(enemies), old(enemyId))
        invariant forall e :: e in allEnemies && e !in old(allEnemies) ==> fresh(e)
        invariant old(allEnemiesSpawned) ==> allEnemiesSpawned
      {
        SpawnAt(i, due, old(enemies), old(enemyId));
        i := i + 1;
      }
    }

    /** The state of the spawning loop before index `i`: the first i due
        enemies have been appended to the stage, with consecutive ids. */
    ghost predicate SpawnedUpTo(i: int, due: seq<(EnemyType, EnemyAttributes)>, before: seq<Enemy>, firstId: int)
      reads this, allEnemies, allTurrets, allGlueBullets, allMortars
    {
      && Valid() && 0 <= i <= |due|
      && |enemies| == |before| + i && enemies[..|before|] == before && enemyId == firstId + i
      && forall k :: 0 <= k < i ==> SpawnedAs(enemies[|before| + k], due[k], firstId + k)
    }

    /** The step of the spawning loop at index `i`. */
    method SpawnAt(i: int, due: seq<(EnemyType, EnemyAttributes)>, ghost before: seq<Enemy>, ghost firstId: int)
      requires SpawnedUpTo(i, due, before, firstId) && i < |due|
      modifies this`enemies, this`enemyId, this`enemiesSpawned, this`allEnemiesSpawned, this`waveEnemiesLength,
        this`allEnemies
      ensures SpawnedUpTo(i + 1, due, before, firstId)
      ensures forall e :: e in allEnemies && e !in old(allEnemies) ==> fresh(e)
      ensures old(allEnemiesSpawned) ==> allEnemiesSpawned
    {
      SpawnEnemy(due[i].0, due[i].1);
      assert enemies[..|before|] == old(enemies)[..|before|];
    }

    ghost predicate SpawnedAs(e: Enemy, due: (EnemyType, EnemyAttributes), id: int)
      reads e
    {
      e.enemyType == due.0 && e.id == id && e.life == e.maxLife == due.1.life && e.value == due.1.value && e.l == 0.0
    }

    /** One enemy of spawnEnemies: it is created with the next id, counted, and
        put on stage. */
    method SpawnEnemy(enemyType: EnemyType, data: EnemyAttributes)
      requires Valid()
      modifies this`enemies, this`enemyId, this`enemiesSpawned, this`allEnemiesSpawned, this`waveEnemiesLength,
        this`allEnemies
      ensures Valid()
      ensures |enemies| == old(|enemies|) + 1 && enemies[..old(|enemies|)] == old(enemies)
      ensures fresh(enemies[|enemies| - 1]) && SpawnedAs(enemies[|enemies| - 1], (enemyType, data), old(enemyId))
      ensures enemyId == old(enemyId) + 1 && allEnemies == old(allEnemies) + {enemies[|enemies| - 1]}
      ensures old(enemiesSpawned) + 1 == old(waveEnemiesLength) ==>
        allEnemiesSpawned && enemiesSpawned == 0 && waveEnemiesLength == 0
      ensures old(enemiesSpawned) + 1 != old(waveEnemiesLength) ==>
        allEnemiesSpawned == old(allEnemiesSpawned) && enemiesSpawned == old(enemiesSpawned) + 1
        && waveEnemiesLength == old(waveEnemiesLength)
    {
      var enemy := NewEnemy(enemyType, data);
      CountSpawn();
      Enroll(enemy);
    }

    /** A new enemy with the next id. */
    method NewEnemy(enemyType: EnemyType, data: EnemyAttributes) returns (enemy: Enemy)
      modifies this`enemyId
      ensures fresh(enemy) && enemy.Valid() && SpawnedAs(enemy, (enemyType, data), old(enemyId))
      ensures enemyId == old(enemyId) + 1
    {
      enemy := new Enemy(enemyType, ticksCounter, enemyId, data, path);
      enemyId := enemyId + 1;
    }

    /** The spawn is counted; the last enemy of the wave marks it spawned and
        resets the counters. */
    method CountSpawn()
      modifies this`enemiesSpawned, this`allEnemiesSpawned, this`waveEnemiesLength
      ensures old(enemiesSpawned) + 1 == old(waveEnemiesLength) ==>
        allEnemiesSpawned && enemiesSpawned == 0 && waveEnemiesLength == 0
      ensures old(enemiesSpawned) + 1 != old(waveEnemiesLength) ==>
        allEnemiesSpawned == old(allEnemiesSpawned) && enemiesSpawned == old(enemiesSpawned) + 1
        && waveEnemiesLength == old(waveEnemiesLength)
    {
      enemiesSpawned := enemiesSpawned + 1;
      if enemiesSpawned == waveEnemiesLength {
        allEnemiesSpawned := true;
        enemiesSpawned := 0;
        waveEnemiesLength := 0;
      }
    }

    /** A valid enemy the engine did not know is put on stage. */
    method Enroll(enemy: Enemy)
      requires Valid() && enemy.Valid() && enemy !in allEnemies
      modifies this`enemies, this`allEnemies
      ensures Valid()
      ensures enemies == old(enemies) + [enemy] && allEnemies == old(allEnemies) + {enemy}
    {
      enemies := enemies + [enemy];
      allEnemies := allEnemies + {enemy};
    }

    /** The entity updates of the tick: enemies, then turrets, then glue
        bullets and mortars. */
    method StepEntities()
      requires Valid()
      modifies this`enemies, this`credits, this`creditsEarned, this`remainingReward, this`score, this`bonus,
        this`noEnemiesOnStage, this`lifes
      modifies allEnemies, allTurrets, allGlueBullets, allMortars
      ensures Valid()
      ensures Progressed(old(Accounts()), Accounts(), gameOver)
    {
      UpdateEnemies();
      StepTurretsAndProjectiles();
    }

    /** The enemies' forEach: each enemy at the index reached is stepped and,
        when it reaches the exit, settled by onEnemyReachedExit, which takes it
        out of the list; the enemy that moves up into its place is skipped this
        tick, as JavaScript's forEach does. Every life lost is an enemy gone. */
    method UpdateEnemies()
      requires Valid()
      modifies this`enemies, this`credits, this`creditsEarned, this`remainingReward, this`score, this`bonus,
        this`noEnemiesOnStage, this`lifes
      modifies allEnemies`t, allEnemies`teleporting, allEnemies`glueTicksCounter, allEnemies`affectedByGlueBullet,
        allEnemies`l, allEnemies`x, allEnemies`y, allEnemies`prevX, allEnemies`prevY
      ensures Valid()
      ensures Progressed(old(Accounts()), Accounts(), gameOver)
      ensures old(lifes) - lifes == old(|enemies|) - |enemies|
      ensures forall k :: 0 <= k < |enemies| ==> enemies[k] in old(enemies)
    {
      var n := |enemies|;
      var i := 0;
      while i < n
        invariant 0 <= i <= n
        invariant Stepped(old(Accounts()), old(enemies))
      {
        if i < |enemies| {
          StepEnemyAt(i, old(Accounts()), old(enemies));
        }
        i := i + 1;
      }
    }

    /** The state of the enemies' forEach: since the start every life lost
        is an enemy gone, the accounts have progressed, and every enemy on
        stage was there at the start. */
    ghost predicate Stepped(start: Ledger, before: seq<Enemy>)
      reads this, allEnemies, allTurrets, allGlueBullets, allMortars
    {
      && Valid() && Progressed(start, Accounts(), gameOver)
      && start.lifes - lifes == |before| - |enemies|
      && forall k :: 0 <= k < |enemies| ==> enemies[k] in before
    }

    /** The step of the enemies' forEach at index `i`. */
    method StepEnemyAt(i: int, ghost start: Ledger, ghost before: seq<Enemy>)
      requires Stepped(start, before) && 0 <= i < |enemies|
      modifies this`enemies, this`credits, this`creditsEarned, this`remainingReward, this`score, this`bonus,
        this`noEnemiesOnStage, this`lifes
      modifies allEnemies`t, allEnemies`teleporting, allEnemies`glueTicksCounter, allEnemies`affectedByGlueBullet,
        allEnemies`l, allEnemies`x, allEnemies`y, allEnemies`prevX, allEnemies`prevY
      ensures Stepped(start, before)
    {
      ghost var ledger := Accounts();
      ghost var stage := enemies;
      StepEnemy(i);
      ProgressedTransitive(start, ledger, Accounts(), gameOver);
      if enemies != stage {
        forall k | 0 <= k < |enemies| ensures enemies[k] in before {
          assert enemies[k] == stage[if k < i then k else k + 1];
        }
      }
    }

    /** The enemy at index `i` is stepped and, on reaching the exit, settled;
        either it stays on stage, or it leaves and costs exactly one life. */
    method StepEnemy(i: int)
      requires Valid() && 0 <= i < |enemies|
      modifies this`enemies, this`credits, this`creditsEarned, this`remainingReward, this`score, this`bonus,
        this`noEnemiesOnStage, this`lifes
      modifies allEnemies`t, allEnemies`teleporting, allEnemies`glueTicksCounter, allEnemies`affectedByGlueBullet,
        allEnemies`l, allEnemies`x, allEnemies`y, allEnemies`prevX, allEnemies`prevY
      ensures Valid()
      ensures Progressed(old(Accounts()), Accounts(), gameOver)
      ensures var enemy := old(enemies[i]);
        var reached := !old(enemy.teleporting) && enemy.l >= |path| as real - 1.0;
        && (!old(enemy.teleporting) ==> enemy.l == Fix(old(enemy.l) + old(enemy.CurrentSpeed())))
        && (old(enemy.teleporting) ==> enemy.l == old(enemy.l) && enemy.t == old(enemy.t) + 1)
        && (reached ==> (enemies == RemoveAt(old(enemies), i)
                         && Accounts() == Exited(old(Accounts()), enemy.value, gameOver, waveReward, rules, StageCleared())))
        && (!reached ==> enemies == old(enemies) && Accounts() == old(Accounts()))
        && forall e :: e in allEnemies && e != enemy ==> unchanged(e)
    {
      var enemy := enemies[i];
      var reachedExit := UpdateEnemy(enemy);
      if reachedExit {
        assert IndexOf(enemies, enemy) == i by {
          assert forall k :: 0 <= k < i ==> enemies[k] != enemy;
        }
        OnEnemyReachedExit(enemy);
      }
    }

    /** enemy.update() on an enemy the engine created. */
    method UpdateEnemy(enemy: Enemy) returns (reachedExit: bool)
      requires Valid() && enemy in allEnemies
      modifies enemy`t, enemy`teleporting, enemy`glueTicksCounter, enemy`affectedByGlueBullet, enemy`l, enemy`x,
        enemy`y, enemy`prevX, enemy`prevY
      ensures Valid()
      ensures reachedExit == (!old(enemy.teleporting) && enemy.l >= |path| as real - 1.0)
      ensures !old(enemy.teleporting) ==> enemy.l == Fix(old(enemy.l) + old(enemy.CurrentSpeed()))
      ensures old(enemy.teleporting) ==> enemy.l == old(enemy.l) && enemy.t == old(enemy.t) + 1
    {
      reachedExit := enemy.Update(path);
    }

    /** The turrets' forEach, then the projectiles'. */
    method StepTurretsAndProjectiles()
      requires Valid()
      modifies allTurrets`enemiesWithinRange, allTurrets`followedEnemy, allTurrets`readyToShoot, allTurrets`f
      modifies allGlueBullets`x, allGlueBullets`y, allGlueBullets`outOfStageBoundaries
      modifies allMortars`x, allMortars`y, allMortars`f, allMortars`detonate
      ensures Valid()
    {
      UpdateTurrets();
      UpdateProjectiles();
    }

    /** The turrets' forEach: every turret on the board takes its tick. */
    method UpdateTurrets()
      requires Valid()
      modifies allTurrets`enemiesWithinRange, allTurrets`followedEnemy, allTurrets`readyToShoot, allTurrets`f
      ensures Valid()
    {
      var i := 0;
      while i < |turrets|
        invariant 0 <= i <= |turrets|
        invariant Valid()
      {
        var turret := turrets[i];
        assert turret in allTurrets;
        var shot := turret.Update(enemies, |path|);
        i := i + 1;
      }
    }

    /** The glue bullets' forEach, then the mortars'. */
    method UpdateProjectiles()
      requires Valid()
      modifies allGlueBullets`x, allGlueBullets`y, allGlueBullets`outOfStageBoundaries
      modifies allMortars`x, allMortars`y, allMortars`f, allMortars`detonate
      ensures Valid()
    {
      UpdateGlueBullets();
      UpdateMortars();
    }

    /** The glue bullets' forEach: every bullet in flight moves one step and
        is flagged once it is off the board; no other bullet changes. */
    method UpdateGlueBullets()
      requires Valid()
      modifies allGlueBullets`x, allGlueBullets`y, allGlueBullets`outOfStageBoundaries
      ensures Valid()
      ensures forall g :: g in glueBullets ==>
        && Point(g.x, g.y) == old(g.PositionNextTick())
        && g.outOfStageBoundaries == (old(g.outOfStageBoundaries) || OutOfBoard(Point(g.x, g.y), boardSize))
      ensures forall g :: g in allGlueBullets && g !in glueBullets ==> unchanged(g)
    {
      var i := 0;
      while i < |glueBullets|
        invariant 0 <= i <= |glueBullets|
        invariant Valid()
        invariant forall k :: 0 <= k < i ==> var g := glueBullets[k];
          && Point(g.x, g.y) == old(g.PositionNextTick())
          && g.outOfStageBoundaries == (old(g.outOfStageBoundaries) || OutOfBoard(Point(g.x, g.y), boardSize))
        invariant forall g :: g in allGlueBullets && g !in glueBullets[..i] ==> unchanged(g)
      {
        var glueBullet := glueBullets[i];
        assert glueBullet in allGlueBullets && glueBullet !in glueBullets[..i];
        glueBullet.Update(boardSize);
        assert glueBullets[..i + 1] == glueBullets[..i] + [glueBullet];
        i := i + 1;
      }
      assert glueBullets[..i] == glueBullets;
    }

    /** The mortars' forEach: every mortar in flight moves one step and counts
        one more tick, and is set to detonate once its tick of impact comes;
        no other mortar changes. */
    method UpdateMortars()
      requires Valid()
      modifies allMortars`x, allMortars`y, allMortars`f, allMortars`detonate
      ensures Valid()
      ensures forall m :: m in mortars ==>
        && m.x == Fix(old(m.x) + m.vx) && m.y == Fix(old(m.y) + m.vy) && m.f == old(m.f) + 1
        && m.detonate == (old(m.detonate) || m.f == m.ticksToImpact)
      ensures forall m :: m in allMortars && m !in mortars ==> unchanged(m)
    {
      var i := 0;
      while i < |mortars|
        invariant 0 <= i <= |mortars|
        invariant Valid()
        invariant forall k :: 0 <= k < i ==> var m := mortars[k];
          && m.x == Fix(old(m.x) + m.vx) && m.y == Fix(old(m.y) + m.vy) && m.f == old(m.f) + 1
          && m.detonate == (old(m.detonate) || m.f == m.ticksToImpact)
        invariant forall m :: m in allMortars && m !in mortars[..i] ==> unchanged(m)
      {
        var mortar := mortars[i];
        assert mortar in allMortars && mortar !in mortars[..i];
        mortar.Update();
        assert mortars[..i + 1] == mortars[..i] + [mortar];
        i := i + 1;
      }
      assert mortars[..i] == mortars;
    }

    /** addGlueBullet: a bullet joins the bullets in flight. */
    method AddGlueBullet(glueBullet: GlueBullet)
      requires Valid() && glueBullet !in allGlueBullets && glueBullet.intensity > 0.0
      requires glueBullet.assignedEnemy.Some? ==> glueBullet.assignedEnemy.value in allEnemies
      modifies this`glueBullets, this`allGlueBullets
      ensures Valid()
      ensures glueBullets == old(glueBullets) + [glueBullet]
    {
      glueBullets := glueBullets + [glueBullet];
      allGlueBullets := allGlueBullets + {glueBullet};
    }

    /** A glue turret's shot as the engine sees it: a new glue bullet from cell
        `p` with the next bullet id, which then joins the bullets in flight. */
    method ShootGlueBullet(p: Cell, cos: real, sin: real, target: Option<Enemy>, intensity: real, durationTicks: int)
      returns (glueBullet: GlueBullet)
      requires Valid() && intensity > 0.0 && (target.Some? ==> target.value in enemies)
      modifies this`glueBullets, this`allGlueBullets, this`bulletId
      ensures Valid()
      ensures fresh(glueBullet) && glueBullets == old(glueBullets) + [glueBullet]
      ensures glueBullet.id == old(bulletId) && bulletId == old(bulletId) + 1
      ensures glueBullet.assignedEnemy == target && !glueBullet.outOfStageBoundaries
    {
      glueBullet := new GlueBullet(p, cos, sin, target, intensity, durationTicks, bulletId, rules.bulletSpeed);
      bulletId := bulletId + 1;
      AddGlueBullet(glueBullet);
    }

    /** addMortar: a mortar joins the mortars in flight. */
    method AddMortar(mortar: Mortar)
      requires Valid() && mortar !in allMortars && mortar.Valid() && mortar.turret in allTurrets
      modifies this`mortars, this`allMortars
      ensures Valid()
      ensures mortars == old(mortars) + [mortar]
    {
      mortars := mortars + [mortar];
      allMortars := allMortars + {mortar};
    }

    /** A launch turret's shot as the engine sees it: a new mortar from the
        turret's cell with the next mortar id, created this tick, which then
        joins the mortars in flight. */
    method LaunchMortar(turret: Turret, cos: real, sin: real, projectileSpeed: real, ticksToImpact: int,
                        explosionRange: real, damage: real)
      returns (mortar: Mortar)
      requires Valid() && turret in turrets
      modifies this`mortars, this`allMortars, this`mortarId
      ensures Valid()
      ensures fresh(mortar) && mortars == old(mortars) + [mortar]
      ensures mortar.id == old(mortarId) && mortarId == old(mortarId) + 1 && mortar.creationTick == ticksCounter
      ensures mortar.turret == turret && mortar.x == turret.position.c + 0.5 && mortar.y == turret.position.r + 0.5
      ensures !mortar.detonate && mortar.f == 0
    {
      mortar := new Mortar(turret.position, cos, sin, projectileSpeed, ticksToImpact, explosionRange, damage,
                           turret.grade, turret, mortarId, ticksCounter);
      mortarId := mortarId + 1;
      assert turret in allTurrets;
      AddMortar(mortar);
    }

    /** flagEnemyToTeleport: the enemy is queued to be teleported back by the
        glue turret's teleport distance at the start of the next tick. */
    method FlagEnemyToTeleport(enemy: Enemy, teleportDistance: real)
      requires Valid() && enemy in enemies
      modifies this`teleportedEnemies
      ensures Valid()
      ensures teleportedEnemies == old(teleportedEnemies) + [(enemy, teleportDistance)]
    {
      teleportedEnemies := teleportedEnemies + [(enemy, teleportDistance)];
    }
  }
}
