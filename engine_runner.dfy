/** The replay runner: it builds an engine for a level, plays a logged list of
    player actions on it tick by tick, rejects a malformed log, and accepts a
    replay only when it ends the game; the result is the final score. */
module Runners {
  import opened GameTypes
  import opened Waves
  import opened Accounting
  import opened Engines

  /** The kinds of logged action; any other type name is kept as it was
      written. */
  datatype ActionType =
    | NextWaveAction
    | AddTurretAction
    | SellTurretAction
    | UpgradeTurretAction
    | LevelUpTurretAction
    | ChangeStrategyAction
    | ChangeFixedTargetAction
    | UnknownAction(name: string)

  /** One logged action: its kind, the tick it is due (None when the log does
      not give a number) and its optional payload. */
  datatype Action = Action(kind: ActionType, tick: Option<int>, turretType: Option<string>, id: Option<real>,
                           position: Option<Cell>)

  /** A level as the log names it: the engine version it was recorded with,
      the game configuration and the data tables. */
  datatype Level = Level(engineVersion: string, config: GameConfig, enemyData: EnemyType -> EnemyAttributes,
                         turretPrice: TurretType -> nat, table: TurretTable, waves: seq<WaveAttributes>)

  /** The fixed collaborators the engine is built with: the game constants,
      the floating-point geometry and the enemy spawner. */
  datatype Host = Host(rules: Rules, geometry: Geometry, spawner: Spawner)

  /** What the progress callback is handed: the tick, the tick of the last
      logged action, and the score, lives, round and credits. */
  datatype Progress = Progress(ticksCounter: int, lastActionTick: Option<int>, score: nat, lifes: int, round: nat,
                               credits: nat)

  /** The outcome of a replay: the final score, or the reason it was refused. */
  datatype RunResult = Success(score: nat) | Failure(error: ErrorKind)

  /** The errors an engine command can report, as opposed to those of the
      runner's own checks. */
  predicate CommandError(e: ErrorKind)
  {
    || e.ActionValue? || e.AddTurretPosition? || e.AddTurretName? || e.Credits? || e.TurretNotFound?
    || e.LevelUp? || e.Upgrade? || e.NextWave? || e.ActionType?
  }

  /** Progress is reported on every tick that is a multiple of this. */
  const ProgressIncrement: int := 100

  /** The tick check of action k, in a replay that has got that far: the tick
      is a number and is not below the engine's tick counter, which stands at
      0 before the first action and at the previous action's tick after it. */
  predicate TickAcceptedAt(actions: seq<Action>, k: nat)
    requires k < |actions|
  {
    && actions[k].tick.Some?
    && if k == 0 then 0 <= actions[k].tick.value
       else actions[k - 1].tick.Some? && actions[k - 1].tick.value <= actions[k].tick.value
  }

  /** The first n actions all pass the tick check. */
  predicate TicksAccepted(actions: seq<Action>, n: nat)
  {
    n <= |actions| && forall k :: 0 <= k < n ==> TickAcceptedAt(actions, k)
  }

  /** The ticks of the first n actions are numbers, none negative, and they
      never decrease. */
  predicate TicksOrdered(actions: seq<Action>, n: nat)
  {
    && n <= |actions|
    && (forall k :: 0 <= k < n ==> actions[k].tick.Some? && 0 <= actions[k].tick.value)
    && (forall i, j :: 0 <= i <= j < n ==> actions[i].tick.value <= actions[j].tick.value)
  }

  /** The tick check accepts exactly the logs whose ticks are numbers that
      start at 0 or later and never decrease. */
  lemma {:induction false} TicksAcceptedOrdered(actions: seq<Action>, n: nat)
    requires n <= |actions|
    ensures TicksAccepted(actions, n) <==> TicksOrdered(actions, n)
    decreases n
  {
    if n > 0 {
      TicksAcceptedOrdered(actions, n - 1);
      if TicksAccepted(actions, n) {
        assert TicksAccepted(actions, n - 1);
        assert TickAcceptedAt(actions, n - 1);
        forall i, j | 0 <= i <= j < n
          ensures actions[i].tick.value <= actions[j].tick.value
        {
          if j == n - 1 && i < j {
            assert actions[i].tick.value <= actions[n - 2].tick.value;
          }
        }
      }
      if TicksOrdered(actions, n) {
        assert TicksOrdered(actions, n - 1);
        assert TickAcceptedAt(actions, n - 1) by {
          if n > 1 {
            assert actions[n - 2].tick.value <= actions[n - 1].tick.value;
          }
        }
      }
    }
  }

  /** Progress reports come in strictly increasing tick order. */
  predicate Chronological(ps: seq<Progress>)
  {
    forall k :: 0 < k < |ps| ==> ps[k - 1].ticksCounter < ps[k].ticksCounter
  }

  /** Reports in order from one neighbour to the next are in order throughout. */
  lemma {:induction false} ChronologicalPairwise(ps: seq<Progress>)
    requires Chronological(ps)
    ensures forall i, j :: 0 <= i < j < |ps| ==> ps[i].ticksCounter < ps[j].ticksCounter
    decreases |ps|
  {
    if |ps| > 1 {
      var front := ps[..|ps| - 1];
      assert Chronological(front) by {
        forall k | 0 < k < |front|
          ensures front[k - 1].ticksCounter < front[k].ticksCounter
        {
          assert front[k - 1] == ps[k - 1] && front[k] == ps[k];
        }
      }
      ChronologicalPairwise(front);
      forall i, j | 0 <= i < j < |ps|
        ensures ps[i].ticksCounter < ps[j].ticksCounter
      {
        if j < |ps| - 1 {
          assert ps[i] == front[i] && ps[j] == front[j];
        } else if i < j - 1 {
          assert ps[i] == front[i] && ps[j - 1] == front[j - 1];
        }
      }
    }
  }

  /** Every report was taken on a tick that is a multiple of the increment,
      after `from` and no later than `to`, knowing the last action's tick. */
  predicate ReportsWithin(ps: seq<Progress>, from: int, to: int, lastActionTick: Option<int>)
  {
    forall k :: 0 <= k < |ps| ==>
      && ps[k].ticksCounter % ProgressIncrement == 0 && from < ps[k].ticksCounter <= to
      && ps[k].lastActionTick == lastActionTick
  }

  /** Reports of two consecutive stretches of ticks, concatenated, are in order
      and cover both stretches. */
  lemma ReportsAppend(ps: seq<Progress>, qs: seq<Progress>, a: int, b: int, c: int, lastActionTick: Option<int>)
    requires a <= b <= c
    requires Chronological(ps) && ReportsWithin(ps, a, b, lastActionTick)
    requires Chronological(qs) && ReportsWithin(qs, b, c, lastActionTick)
    ensures Chronological(ps + qs) && ReportsWithin(ps + qs, a, c, lastActionTick)
  {
    var r := ps + qs;
    forall k | 0 < k < |r|
      ensures r[k - 1].ticksCounter < r[k].ticksCounter
    {
      if k < |ps| {
        assert r[k - 1] == ps[k - 1] && r[k] == ps[k];
      } else if k == |ps| {
        assert r[k - 1] == ps[k - 1] && r[k] == qs[0];
      } else {
        assert r[k - 1] == qs[k - 1 - |ps|] && r[k] == qs[k - |ps|];
      }
    }
    forall k | 0 <= k < |r|
      ensures r[k].ticksCounter % ProgressIncrement == 0 && a < r[k].ticksCounter <= c
      ensures r[k].lastActionTick == lastActionTick
    {
      if k < |ps| {
        assert r[k] == ps[k];
      } else {
        assert r[k] == qs[k - |ps|];
      }
    }
  }

  /** The snapshot the progress callback receives. */
  function Snapshot(engine: Engine, lastActionTick: Option<int>): (p: Progress)
    reads engine
    ensures p.ticksCounter == engine.ticksCounter && p.lastActionTick == lastActionTick
    ensures p.score == engine.score && p.lifes == engine.lifes && p.round == engine.round
    ensures p.credits == engine.credits
  {
    Progress(engine.ticksCounter, lastActionTick, engine.score, engine.lifes, engine.round, engine.credits)
  }

  /** One tick of the engine, reported when a callback is given and the new
      tick is a multiple of the increment. */
  method Tick(engine: Engine, report: bool, lastActionTick: Option<int>) returns (reports: seq<Progress>)
    requires engine.Valid()
    modifies engine, engine.allEnemies, engine.allTurrets, engine.allGlueBullets, engine.allMortars
    ensures engine.Valid()
    ensures engine.ticksCounter == old(engine.ticksCounter) + 1
    ensures engine.waveActivated ==> old(engine.waveActivated)
    ensures Progressed(old(engine.Accounts()), engine.Accounts(), false)
    ensures engine.allTurrets == old(engine.allTurrets) && engine.allGlueBullets == old(engine.allGlueBullets)
    ensures engine.allMortars == old(engine.allMortars)
    ensures forall e :: e in engine.allEnemies && e !in old(engine.allEnemies) ==> fresh(e)
    ensures reports == (if report && engine.ticksCounter % ProgressIncrement == 0
                        then [Snapshot(engine, lastActionTick)] else [])
  {
    engine.Update();
    reports := [];
    if report && engine.ticksCounter % ProgressIncrement == 0 {
      reports := [Snapshot(engine, lastActionTick)];
    }
  }

  /** The inner loop of run: the engine is advanced until it stands at `tick`
      or the lives are spent, reporting progress on the way. */
  method AdvanceTo(engine: Engine, tick: int, report: bool, lastActionTick: Option<int>)
    returns (reports: seq<Progress>)
    requires engine.Valid() && engine.ticksCounter <= tick
    modifies engine, engine.allEnemies, engine.allTurrets, engine.allGlueBullets, engine.allMortars
    ensures engine.Valid()
    ensures old(engine.ticksCounter) <= engine.ticksCounter <= tick
    ensures engine.ticksCounter < tick ==> engine.lifes <= 0
    ensures Progressed(old(engine.Accounts()), engine.Accounts(), false)
    ensures engine.allTurrets == old(engine.allTurrets) && engine.allGlueBullets == old(engine.allGlueBullets)
    ensures engine.allMortars == old(engine.allMortars)
    ensures forall e :: e in engine.allEnemies && e !in old(engine.allEnemies) ==> fresh(e)
    ensures Chronological(reports) && ReportsWithin(reports, old(engine.ticksCounter), engine.ticksCounter, lastActionTick)
    ensures !report ==> reports == []
  {
    reports := [];
    while engine.ticksCounter < tick && engine.lifes > 0
      invariant engine.Valid()
      invariant old(engine.ticksCounter) <= engine.ticksCounter <= tick
      invariant Progressed(old(engine.Accounts()), engine.Accounts(), false)
      invariant engine.allTurrets == old(engine.allTurrets) && engine.allGlueBullets == old(engine.allGlueBullets)
      invariant engine.allMortars == old(engine.allMortars)
      invariant forall e :: e in engine.allEnemies && e !in old(engine.allEnemies) ==> fresh(e)
      invariant Chronological(reports) && ReportsWithin(reports, old(engine.ticksCounter), engine.ticksCounter, lastActionTick)
      invariant !report ==> reports == []
      decreases tick - engine.ticksCounter
    {
      ghost var before := engine.Accounts();
      ghost var at := engine.ticksCounter;
      var more := Tick(engine, report, lastActionTick);
      ProgressedTransitive(old(engine.Accounts()), before, engine.Accounts(), false);
      ReportsAppend(reports, more, old(engine.ticksCounter), at, engine.ticksCounter, lastActionTick);
      reports := reports + more;
    }
  }

  /** The dispatch of run: the action goes to the engine command of its kind;
      a wave refused by newWave is reported as NextWave, an unknown kind as
      ActionType. No command moves the tick counter or touches the lives. */
  method Dispatch(engine: Engine, action: Action) returns (res: CommandResult)
    requires engine.Valid()
    modifies engine`credits, engine`creditsEarned, engine`canLaunchNextWave, engine`noEnemiesOnStage,
      engine`allEnemiesSpawned, engine`round, engine`waveEnemies, engine`lastWaveTick, engine`waveReward,
      engine`waveActivated, engine`waveEnemiesLength, engine`waveDefaultHealth, engine`remainingReward,
      engine`enemyHealthModifier, engine`enemyRewardModifier, engine`bonus, engine`turretId, engine`turrets,
      engine`allTurrets, engine.allTurrets
    ensures engine.Valid()
    ensures engine.ticksCounter == old(engine.ticksCounter) && engine.lifes == old(engine.lifes)
    ensures forall t :: t in engine.allTurrets && t !in old(engine.allTurrets) ==> fresh(t)
    ensures res.Rejected? ==> CommandError(res.error)
    ensures action.kind.UnknownAction? ==> res == Rejected(ActionType(action.kind.name))
    ensures action.kind == NextWaveAction ==> res == (if old(engine.canLaunchNextWave) then Done else Rejected(NextWave))
    ensures action.kind == AddTurretAction && (action.turretType.None? || action.position.None?) ==>
      res == Rejected(ActionValue)
    ensures IdCommand(action.kind) && action.id.None? ==> res == Rejected(ActionValue)
  {
    match action.kind {
      case NextWaveAction =>
        res := LaunchNextWave(engine);
      case AddTurretAction =>
        res := Build(engine, action.turretType, action.position);
      case UnknownAction(name) =>
        res := Rejected(ActionType(name));
      case _ =>
        res := DispatchOnTurret(engine, action.kind, action.id);
    }
  }

  /** newWave, refused as NextWave while the cooldown runs. */
  method LaunchNextWave(engine: Engine) returns (res: CommandResult)
    modifies engine`credits, engine`creditsEarned, engine`canLaunchNextWave, engine`noEnemiesOnStage,
      engine`allEnemiesSpawned, engine`round, engine`waveEnemies, engine`lastWaveTick, engine`waveReward,
      engine`waveActivated, engine`waveEnemiesLength, engine`waveDefaultHealth, engine`remainingReward,
      engine`enemyHealthModifier, engine`enemyRewardModifier, engine`bonus
    ensures res == (if old(engine.canLaunchNextWave) then Done else Rejected(NextWave))
  {
    var launched := engine.NewWave();
    res := if launched then Done else Rejected(NextWave);
  }

  /** addTurret, without the turret it returns. */
  method Build(engine: Engine, turretType: Option<string>, p: Option<Cell>) returns (res: CommandResult)
    requires engine.Valid()
    modifies engine`turretId, engine`turrets, engine`allTurrets, engine`credits
    ensures engine.Valid()
    ensures forall t :: t in engine.allTurrets && t !in old(engine.allTurrets) ==> fresh(t)
    ensures res.Rejected? ==> CommandError(res.error)
    ensures turretType.None? || p.None? ==> res == Rejected(ActionValue)
  {
    var turret;
    res, turret := engine.AddTurret(turretType, p);
  }

  /** The commands that name a turret by its id. */
  predicate IdCommand(kind: ActionType)
  {
    || kind == SellTurretAction || kind == UpgradeTurretAction || kind == LevelUpTurretAction
    || kind == ChangeStrategyAction || kind == ChangeFixedTargetAction
  }

  /** The dispatch of the commands that name a turret: each reports a
      missing id as ActionValue. */
  method DispatchOnTurret(engine: Engine, kind: ActionType, id: Option<real>) returns (res: CommandResult)
    requires engine.Valid() && IdCommand(kind)
    modifies engine`credits, engine`turrets, engine.allTurrets
    ensures engine.Valid()
    ensures res.Rejected? ==> CommandError(res.error)
    ensures id.None? ==> res == Rejected(ActionValue)
  {
    if kind == SellTurretAction {
      res := engine.SellTurret(id);
    } else if kind == UpgradeTurretAction || kind == LevelUpTurretAction {
      res := Improve(engine, kind == UpgradeTurretAction, id);
    } else if kind == ChangeStrategyAction {
      res := engine.SetNextStrategy(id);
    } else {
      res := engine.SetFixedTarget(id);
    }
  }

  /** upgradeTurret or improveTurret (the level-up command). */
  method Improve(engine: Engine, upgrade: bool, id: Option<real>) returns (res: CommandResult)
    requires engine.Valid()
    modifies engine`credits, engine.allTurrets
    ensures engine.Valid()
    ensures res.Rejected? ==> CommandError(res.error)
    ensures id.None? ==> res == Rejected(ActionValue)
  {
    if upgrade {
      res := engine.UpgradeTurret(id);
    } else {
      res := engine.ImproveTurret(id);
    }
  }

  /** One action of the main loop of run, once the action list has been
      checked: the tick check, the advance to the action's tick, then the
      dispatch. */
  method PlayAction(engine: Engine, action: Action, report: bool, lastActionTick: Option<int>)
    returns (failure: Option<ErrorKind>, reports: seq<Progress>)
    requires engine.Valid()
    modifies engine, engine.allEnemies, engine.allTurrets, engine.allGlueBullets, engine.allMortars
    ensures engine.Valid()
    ensures action.tick.None? || action.tick.value < old(engine.ticksCounter) ==>
      failure == Some(Ticks) && reports == [] && engine.ticksCounter == old(engine.ticksCounter)
    ensures action.tick.Some? && old(engine.ticksCounter) <= action.tick.value ==>
      && failure != Some(Ticks)
      && old(engine.ticksCounter) <= engine.ticksCounter <= action.tick.value
      && (engine.ticksCounter < action.tick.value ==> engine.lifes <= 0)
      && (failure.Some? ==> CommandError(failure.value))
      && (action.kind.UnknownAction? ==> failure == Some(ActionType(action.kind.name)))
    ensures engine.allGlueBullets == old(engine.allGlueBullets) && engine.allMortars == old(engine.allMortars)
    ensures forall e :: e in engine.allEnemies && e !in old(engine.allEnemies) ==> fresh(e)
    ensures forall t :: t in engine.allTurrets && t !in old(engine.allTurrets) ==> fresh(t)
    ensures Chronological(reports) && ReportsWithin(reports, old(engine.ticksCounter), engine.ticksCounter, lastActionTick)
    ensures !report ==> reports == []
  {
    if action.tick.None? || action.tick.value < engine.ticksCounter {
      return Some(Ticks), [];
    }
    reports := AdvanceTo(engine, action.tick.value, report, lastActionTick);
    var res := Dispatch(engine, action);
    failure := if res.Rejected? then Some(res.error) else None;
  }

  /** The main loop of run: the actions are played in log order until one is
      refused, the lives are spent or the log is exhausted. `processed` counts
      the actions that were dispatched; a refused action is not counted. */
  method Replay(engine: Engine, actions: seq<Action>, report: bool)
    returns (failure: Option<ErrorKind>, processed: nat, progress: seq<Progress>)
    requires engine.Valid() && engine.ticksCounter == 0 && |actions| > 0
    modifies engine, engine.allEnemies, engine.allTurrets, engine.allGlueBullets, engine.allMortars
    ensures engine.Valid()
    ensures processed <= |actions| && TicksAccepted(actions, processed)
    ensures failure == Some(Ticks) ==> processed < |actions| && !TickAcceptedAt(actions, processed)
    ensures failure.Some? && failure.value != Ticks ==>
      && processed < |actions| && TickAcceptedAt(actions, processed) && CommandError(failure.value)
      && (actions[processed].kind.UnknownAction? ==> failure.value == ActionType(actions[processed].kind.name))
    ensures failure.None? ==> 0 < processed && (processed < |actions| ==> engine.lifes <= 0)
    ensures failure.None? && engine.lifes > 0 ==>
      actions[|actions| - 1].tick.Some? && engine.ticksCounter == actions[|actions| - 1].tick.value
    ensures forall e :: e in engine.allEnemies && e !in old(engine.allEnemies) ==> fresh(e)
    ensures forall t :: t in engine.allTurrets && t !in old(engine.allTurrets) ==> fresh(t)
    ensures engine.allGlueBullets == old(engine.allGlueBullets) && engine.allMortars == old(engine.allMortars)
    ensures Chronological(progress) && ReportsWithin(progress, 0, engine.ticksCounter, actions[|actions| - 1].tick)
    ensures !report ==> progress == []
  {
    var lastActionTick := actions[|actions| - 1].tick;
    progress := [];
    var i := 0;
    while i < |actions|
      invariant 0 <= i <= |actions|
      invariant engine.Valid()
      invariant TicksAccepted(actions, i)
      invariant 0 <= engine.ticksCounter
      invariant i == 0 ==> engine.ticksCounter == 0
      invariant i > 0 ==> actions[i - 1].tick.Some? && engine.ticksCounter == actions[i - 1].tick.value
      invariant forall e :: e in engine.allEnemies && e !in old(engine.allEnemies) ==> fresh(e)
      invariant forall t :: t in engine.allTurrets && t !in old(engine.allTurrets) ==> fresh(t)
      invariant engine.allGlueBullets == old(engine.allGlueBullets) && engine.allMortars == old(engine.allMortars)
      invariant Chronological(progress) && ReportsWithin(progress, 0, engine.ticksCounter, lastActionTick)
      invariant !report ==> progress == []
    {
      ghost var at := engine.ticksCounter;
      var failed, reports := PlayAction(engine, actions[i], report, lastActionTick);
      ReportsAppend(progress, reports, 0, at, engine.ticksCounter, lastActionTick);
      progress := progress + reports;
      if failed.Some? {
        return failed, i, progress;
      }
      if engine.lifes <= 0 {
        return None, i + 1, progress;
      }
      i := i + 1;
    }
    return None, i, progress;
  }

  /** The final loop of run: with the log exhausted the engine keeps ticking
      while the wave is active and lives remain, for at most `budget` ticks.
      A replay succeeds exactly when the lives are spent; otherwise it fails
      with NoGameOver, or with TickBudgetExhausted when the budget ran out
      before the wave ended. */
  method Finish(engine: Engine, budget: nat) returns (r: RunResult)
    requires engine.Valid()
    modifies engine, engine.allEnemies, engine.allTurrets, engine.allGlueBullets, engine.allMortars
    ensures engine.Valid()
    ensures r.Success? <==> engine.lifes <= 0
    ensures r.Success? ==> r.score == engine.score
    ensures r == Failure(NoGameOver) <==> engine.lifes > 0 && !engine.waveActivated
    ensures r == Failure(TickBudgetExhausted) <==> engine.lifes > 0 && engine.waveActivated
    ensures old(engine.ticksCounter) <= engine.ticksCounter <= old(engine.ticksCounter) + budget
    ensures engine.ticksCounter < old(engine.ticksCounter) + budget ==> !engine.waveActivated || engine.lifes <= 0
    ensures Progressed(old(engine.Accounts()), engine.Accounts(), false)
    ensures forall e :: e in engine.allEnemies && e !in old(engine.allEnemies) ==> fresh(e)
    ensures engine.allTurrets == old(engine.allTurrets) && engine.allGlueBullets == old(engine.allGlueBullets)
    ensures engine.allMortars == old(engine.allMortars)
  {
    var fuel: nat := budget;
    while engine.waveActivated && engine.lifes > 0 && fuel > 0
      invariant engine.Valid()
      invariant fuel <= budget && engine.ticksCounter == old(engine.ticksCounter) + (budget - fuel)
      invariant Progressed(old(engine.Accounts()), engine.Accounts(), false)
      invariant forall e :: e in engine.allEnemies && e !in old(engine.allEnemies) ==> fresh(e)
      invariant engine.allTurrets == old(engine.allTurrets) && engine.allGlueBullets == old(engine.allGlueBullets)
      invariant engine.allMortars == old(engine.allMortars)
    {
      ghost var before := engine.Accounts();
      var ignored := Tick(engine, false, None);
      ProgressedTransitive(old(engine.Accounts()), before, engine.Accounts(), false);
      fuel := fuel - 1;
    }
    if engine.lifes > 0 {
      r := if engine.waveActivated then Failure(TickBudgetExhausted) else Failure(NoGameOver);
    } else {
      r := Success(engine.score);
    }
  }

  class EngineRunner {
    const level: Level
    const host: Host

    constructor (level: Level, host: Host)
      ensures this.level == level && this.host == host
    {
      this.level := level;
      this.host := host;
    }

    /** run: a fresh engine for the level; the log is refused for a version
        mismatch, for an empty action list, for an action whose tick is not a
        number or lies before the engine's tick, and for any refused command.
        Otherwise the actions are played, the engine runs on while the wave
        is active, and the replay succeeds with the final score exactly when
        the lives are spent. */
    method Run(actions: seq<Action>, report: bool, budget: nat)
      returns (r: RunResult, engine: Engine, progress: seq<Progress>)
      requires |level.config.enemiesPathCells| > 0 && Playable(level.waves)
      ensures fresh(engine) && engine.Valid()
      ensures level.engineVersion != host.rules.version ==>
        r == Failure(VersionMismatch(host.rules.version, level.engineVersion))
      ensures level.engineVersion == host.rules.version && actions == [] ==> r == Failure(ActionArray)
      ensures r.Success? ==> engine.lifes <= 0 && r.score == engine.score
      ensures r == Failure(NoGameOver) ==> engine.lifes > 0 && !engine.waveActivated
      ensures r.Success? || r == Failure(NoGameOver) || r == Failure(TickBudgetExhausted) ==>
        exists n :: 0 < n <= |actions| && TicksAccepted(actions, n) && (n < |actions| ==> engine.lifes <= 0)
      ensures r == Failure(Ticks) ==> exists n :: 0 <= n < |actions| && TicksAccepted(actions, n) && !TickAcceptedAt(actions, n)
      ensures !report ==> progress == []
      ensures Chronological(progress)
      ensures |actions| > 0 ==> ReportsWithin(progress, 0, engine.ticksCounter, actions[|actions| - 1].tick)
    {
      engine := new Engine(level.config, level.enemyData, level.turretPrice, level.table, level.waves,
                           host.rules, host.geometry, host.spawner);
      progress := [];
      if level.engineVersion != engine.rules.version {
        return Failure(VersionMismatch(engine.rules.version, level.engineVersion)), engine, progress;
      }
      if |actions| == 0 {
        return Failure(ActionArray), engine, progress;
      }
      var failure, processed;
      failure, processed, progress := Replay(engine, actions, report);
      if failure.Some? {
        return Failure(failure.value), engine, progress;
      }
      assert TicksAccepted(actions, processed);
      r := Finish(engine, budget);
    }
  }
}
