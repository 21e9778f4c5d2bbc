/** Values shared by the engine and its entities: board geometry, the entity
    kinds, the level data tables, the game constants and the error kinds the
    commands report. */
module GameTypes {

  datatype Option<T> = None | Some(value: T)

  type NonNegReal = r: real | r >= 0.0

  /** A board cell or a position given in rows and columns, `{ r, c }`. */
  datatype Cell = Cell(r: real, c: real)

  /** A point in board coordinates, `{ x, y }`: x runs along columns, y along rows. */
  datatype Point = Point(x: real, y: real)

  /** The enemies' path of a playable level: at least one cell. */
  type Path = p: seq<Cell> | |p| > 0 witness [Cell(0.0, 0.0)]

  datatype EnemyType = Soldier | Runner | Healer | Blob | Flier

  datatype TurretType = Projectile | Laser | Launch | Glue

  /** The turret type named by a command, by the names of the turret table. */
  function ParseTurretType(name: string): (t: Option<TurretType>)
    ensures t == Some(Projectile) <==> name == "projectile"
    ensures t == Some(Laser) <==> name == "laser"
    ensures t == Some(Launch) <==> name == "launch"
    ensures t == Some(Glue) <==> name == "glue"
  {
    if name == "projectile" then Some(Projectile)
    else if name == "laser" then Some(Laser)
    else if name == "launch" then Some(Launch)
    else if name == "glue" then Some(Glue)
    else None
  }

  /** The targeting strategies: furthest along the path first, least along the
      path first, nearest, weakest and strongest. */
  datatype Strategy = ShootFirst | ShootLast | ShootClosest | ShootWeakest | ShootStrongest

  /** The strategies in the order in which a turret cycles through them. */
  const Strategies: seq<Strategy> := [ShootFirst, ShootLast, ShootClosest, ShootWeakest, ShootStrongest]

  /** One entry of a wave schedule: an enemy type and the tick it is due. */
  datatype WaveEntry = WaveEntry(enemyType: EnemyType, t: int)

  /** The sort key of a schedule entry. */
  function Tick(e: WaveEntry): int { e.t }

  /** A wave template: reward, growth per cycle through the templates, growth
      cap and the relative schedule. */
  datatype WaveAttributes = WaveAttributes(waveReward: nat, extend: int, maxExtend: int, enemies: seq<WaveEntry>)

  /** The enemy table entry of one enemy type. */
  datatype EnemyAttributes = EnemyAttributes(life: NonNegReal, speed: NonNegReal, value: nat)

  /** What a turret of a given type, grade and level shoots with and costs. */
  datatype LevelAttributes = LevelAttributes(damage: real, reload: real, range: real, priceImprovement: nat, priceUpgrade: nat)

  /** The per-(type, grade, level) turret attribute table. */
  type TurretTable = (TurretType, int, int) -> LevelAttributes

  /** The game configuration of a level. */
  datatype GameConfig = GameConfig(
    enemySpawningDeltaTicks: int,
    credits: nat,
    lifes: int,
    boardSize: Cell,
    enemiesPathCells: seq<Cell>,
    plateausCells: seq<Cell>)

  /** The game constants and the closed-form formulas of the engine.
      `earlyBonus(x)` is round(EARLY_BONUS_MODIFIER * x ^ EARLY_BONUS_EXPONENT) for
      a non-negative remaining reward `x`; `difficulty(creditsEarned, health)` is the
      pair (health modifier, reward modifier) computed when a wave is launched. */
  datatype Rules = Rules(
    version: string,
    initialTicksWave: int,
    reloadBaseTicks: real,
    weakModifier: real,
    strongModifier: real,
    bulletSpeed: real,
    earlyBonus: nat -> nat,
    difficulty: (int, real) -> (real, real))

  /** The floating-point geometry the engine consults: the square root, and
      whether a segment from the first to the second point crosses the circle
      of the given centre and radius. */
  datatype Geometry = Geometry(sqrt: real -> NonNegReal, segmentHitsCircle: (Point, Point, Point, real) -> bool)

  /** What the enemy spawner hands out in one tick: the enemies to put on
      stage, each with its type and the attributes it gets (life and value
      already scaled by the wave's modifiers), and the schedule that remains
      pending. */
  datatype SpawnStep = SpawnStep(due: seq<(EnemyType, EnemyAttributes)>, pending: seq<WaveEntry>)

  /** A spawner: from the pending schedule, the current tick and the health
      and reward modifiers to the enemies due. */
  type Spawner = (seq<WaveEntry>, int, real, real) -> SpawnStep

  /** The error kinds commands and the replay runner report, with their info. */
  datatype ErrorKind =
    | ActionValue
    | AddTurretPosition
    | AddTurretName(name: string)
    | Credits
    | TurretNotFound(id: real)
    | LevelUp(id: real)
    | Upgrade(id: real)
    | NextWave
    | ActionType(actionName: string)
    | Ticks
    | ActionArray
    | VersionMismatch(engineVersion: string, logsVersion: string)
    | NoGameOver
    | TickBudgetExhausted

  /** The outcome of an engine command, `{ success, error }`. */
  datatype CommandResult = Done | Rejected(error: ErrorKind)

  function Max(a: int, b: int): (m: int)
    ensures m >= a && m >= b && (m == a || m == b)
  {
    if a >= b then a else b
  }

  function Min(a: int, b: int): (m: int)
    ensures m <= a && m <= b && (m == a || m == b)
  {
    if a <= b then a else b
  }
}
