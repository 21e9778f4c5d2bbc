# creepts engine — a Dafny model

Creepts is a tower-defense game. Its engine is a deterministic, tick-stepped state machine:

- Enemies walk a path of board cells towards the exit.
- The player's turrets, each standing on a plateau cell, shoot at the enemies in range.
- Each enemy killed earns credits and score. Each enemy that reaches the exit costs a life.
- Waves are launched on the player's command. Each wave's enemies are scheduled from a template of the level, and an early launch earns a bonus.
- A replay runner rebuilds a game from a level and a log of player actions.
  - It checks the log.
  - It plays each action on the tick the log gives for it.
  - It accepts the replay only when the game ends. The replay's result is the final score.

The model keeps the source's own shape:

- Every object the engine updates in place is a Dafny `class` with the same fields: `Engine`, `Turret`, `Enemy`, `Mortar` and `GlueBullet`. Their methods carry `modifies` clauses, stated field by field.
- The engine's entity lists are `seq` fields that the methods reassign. The sets `allEnemies`, `allTurrets`, `allGlueBullets` and `allMortars` are the heap footprint of those lists.
- Pure computations are functions, with lemmas about them. These are the rounding helpers, merge sort, the path position, the wave templates, the turret target order, the explosion damage and the accounting.
- Every loop of the source is a `while` loop with its invariants. Examples are the copy loop of `newWave`, the merge of `jointLists`, the searches by id, the `forEach` over the entities and the action loop of `run`. Each such method is proved equal to a specification function, or is proved to keep the engine's invariant `Valid()`.

Modelling choices:

- **Numbers.**
  - JavaScript numbers are `real` where they carry fractions: positions, progress along the path, life, damage, ranges and modifiers.
  - They are `int` or `nat` for money, ids and ticks.
  - `MathUtils.fixNumber` (rounding to five decimals, NaN to 0) is `FixNumber`.
  - `Math.round` is `Round`, which is floor(x + 0.5).
- **Callbacks.** The calls from an object back into the engine are return values that the engine handles right after the call. Examples are `enemy.hit` reporting a kill and `enemy.update` reporting an exit.
- **Collaborators.** Code the core calls, but which is not part of this model, is a parameter of the engine:
  - the game constants and their closed-form formulas become `Rules`;
  - the square root and the segment/circle test become `Geometry`;
  - the enemy spawner becomes `Spawner`;
  - the turret attribute generator becomes the table `TurretTable`;
  - the enemy data becomes `EnemyType -> EnemyAttributes`.
- **Errors.** An engine command returns `Done` or `Rejected(kind)`. An `ErrorKind` names each error the source throws. The runner returns `Success(score)` or `Failure(kind)`.

Files, one Dafny module each:

| file | module | contents |
|---|---|---|
| `game_types.dfy` | GameTypes | shared data types, constants, error kinds |
| `math_utils.dfy` | MathUtils | rounding, `mergeSort`/`splitList`/`jointLists` |
| `sequences.dfy` | Sequences | JavaScript `indexOf`/`splice` on sequences |
| `board.dfy` | Board | the position on the path |
| `enemy.dfy` | Enemies | the `Enemy` class |
| `targeting.dfy` | Targeting | the turret's candidate filter and target order |
| `turret.dfy` | Turrets | the `Turret` class |
| `mortar.dfy` | Mortars | the `Mortar` class and explosion damage |
| `glue_bullet.dfy` | GlueBullets | the `GlueBullet` class |
| `registry.dfy` | Registry | the validity of the engine's entity lists |
| `accounting.dfy` | Accounting | the accounts as a value and each change to them |
| `waves.dfy` | Waves | the wave schedule |
| `engine.dfy` | Engines | the `Engine` class |
| `engine_runner.dfy` | Runners | the replay runner |

## Model

| member | source | states |
|---|---|---|
| `MathUtils.Round` | src/lib/turrets/Turret.ts:122 | Math.round: the result is the integer r with r - 0.5 <= x < r + 0.5 |
| `MathUtils.Fix` | src/lib/utils/MathUtils.ts:16-19 | the result has at most five decimals and lies within 5e-6 of the input |
| `MathUtils.FixNumber` | src/lib/utils/MathUtils.ts:16-19 | NaN becomes 0; a finite number is rounded to five decimals |
| `MathUtils.FixOfFixed` | src/lib/utils/MathUtils.ts:16-19 | a number that already has five decimals is left unchanged |
| `MathUtils.FixIdempotent` | src/lib/utils/MathUtils.ts:16-19 | rounding twice is rounding once |
| `MathUtils.FixMonotone` | src/lib/utils/MathUtils.ts:16-19 | rounding preserves the order of its inputs |
| `MathUtils.FixNonNegative` | src/lib/utils/MathUtils.ts:16-19 | a non-negative number stays non-negative |
| `MathUtils.SplitList` | src/lib/utils/MathUtils.ts:105-118 | the two halves concatenate to the list; the left has n/2 elements, the right the rest |
| `MathUtils.JointPermutation` | src/lib/utils/MathUtils.ts:120-151 | the merge holds exactly the elements of both lists (as multisets) |
| `MathUtils.JointSorted` | src/lib/utils/MathUtils.ts:120-151 | merging two lists sorted by the key gives a sorted list |
| `MathUtils.JointLists` | src/lib/utils/MathUtils.ts:120-151 | the loop and its tail copies compute the merge; on equal keys the right list's head goes first |
| `MathUtils.MergeSort` | src/lib/utils/MathUtils.ts:86-103 | a list of at most one element is returned as it is |
| `MathUtils.MergeSortPermutation` | src/lib/utils/MathUtils.ts:86-103 | mergeSort returns a permutation of its input |
| `MathUtils.MergeSortSorted` | src/lib/utils/MathUtils.ts:86-103 | mergeSort returns a list sorted by the key |
| `MathUtils.MergeSortSwapsEqualPair` | src/lib/utils/MathUtils.ts:127-140 | two elements with equal keys come out swapped: the sort is not stable |
| `Sequences.IndexOf` | src/lib/Engine.ts:378-386 | indexOf: the first position holding x, or -1 exactly when x is absent |
| `Sequences.RemoveAt` | src/lib/Engine.ts:378-386 | splice(i, 1): the element at i is removed and the others keep their order |
| `Sequences.SpliceIndexOf` | src/lib/Engine.ts:998-1021 | splice(indexOf(x), 1): removes the first x; with x absent, removes the last element |
| `Sequences.RemoveFirstDistinct` | src/lib/Engine.ts:378-386 | on a list without duplicates, removing x takes x out and keeps the list duplicate-free |
| `GameTypes.ParseTurretType` | src/lib/Engine.ts:463-486 | each turret type is chosen exactly for its own name; any other name gives None |
| `Board.PathPosition` | src/lib/Engine.ts:776-807 | a point exists exactly when floor(l) indexes the path; on the last cell it is that cell's corner |
| `Board.PathPositionAtCellCentre` | src/lib/Engine.ts:776-807 | at whole-number progress k short of the last cell, on cells with whole-number coordinates, the point is the centre of cell k |
| `Enemies.ModifiersOf` | src/lib/enemies/Enemy.ts:92-111 | each enemy type's weak/strong table; a soldier has none, and no type reacts to glue |
| `Enemies.DamageModifier` | src/lib/enemies/Enemy.ts:208-228 | the damage factor is 1, the weak modifier or the strong one, by the table entry for the source's turret type |
| `Enemies.LifeAfterHit` | src/lib/enemies/Enemy.ts:230-245 | life never goes negative; it reaches 0 exactly when the damage covers it, and otherwise drops by the damage |
| `Enemies.DeadStaysDead` | src/lib/enemies/Enemy.ts:204-206 | hits on a dead enemy never kill it |
| `Enemies.KilledAtMostOnce` | src/lib/enemies/Enemy.ts:242-245 | over any sequence of hits, an enemy is reported killed at most once |
| `Enemies.Enemy.CurrentSpeed` | src/lib/enemies/Enemy.ts:130-147 | the glue bullet's slowdown takes precedence over the glue puddle's; the speed is never negative |
| `Enemies.Enemy.constructor` | src/lib/enemies/Enemy.ts:53-112 | a new enemy at progress 0, placed at the path position for 0, at full life, with no glue, teleport or debuff |
| `Enemies.Enemy.Update` | src/lib/enemies/Enemy.ts:118-168 | a teleporting enemy only counts ticks, 8 in all. Otherwise progress grows by the current speed, the debuff ages, and the exit is reported exactly when progress reaches the last cell |
| `Enemies.Enemy.Teleport` | src/lib/enemies/Enemy.ts:170-186 | progress moves back by the distance, floored at 0; the teleport starts; the position follows the path where it is defined |
| `Engines.TeleportedPoseKeep` | src/lib/Engine.ts:1113-1118 | after the queue, an enemy's progress is its old progress moved back entry by entry, each step floored at 0; an enemy no entry names keeps its whole pose |
| `Engines.TeleportedPoseFlagged` | src/lib/Engine.ts:1113-1118 | an enemy some entry names ends the queue teleporting, with its tick counter at 0 and its position on the path wherever the path defines one |
| `Engines.TeleportsAddUp` | src/lib/enemies/Enemy.ts:176-180 | repeated teleports of non-negative distances move an enemy back by their total, floored at 0 |
| `Enemies.TeleportStaysOnPath` | src/lib/enemies/Enemy.ts:170-186 | a teleport by a non-negative distance from a point of the path lands on the path again |
| `Engines.UnflaggedKeepsProgress` | src/lib/Engine.ts:1113-1118 | an enemy no entry names keeps its progress and is moved back by a total of 0 |
| `Engines.FlaggedIffNamed` | src/lib/Engine.ts:1113-1118 | an enemy counts as flagged exactly when some queue entry names it |
| `Engines.TeleportedPoseStep` | src/lib/Engine.ts:1113-1118 | one more queue entry teleports its own enemy and leaves every other one |
| `Enemies.Enemy.HitByGlueBullet` | src/lib/enemies/Enemy.ts:188-194 | the bullet debuff starts afresh with the bullet's intensity and duration |
| `Enemies.Enemy.Glue` | src/lib/enemies/Enemy.ts:196-200 | the enemy is glued with the given intensity |
| `Enemies.Enemy.Hit` | src/lib/enemies/Enemy.ts:202-246 | a dead enemy is untouched. Otherwise life follows LifeAfterHit of the rounded damage times the modifier; the inflicted damage is Math.round(damage); a kill is the move from alive to 0 |
| `Enemies.Enemy.RestoreHealth` | src/lib/enemies/Enemy.ts:248-255 | life grows by a twentieth of the maximum, capped at the maximum, and never lowered from a life at or below the maximum (a negative hit can raise life above it, Enemy.ts:202-242) |
| `Targeting.TiesBrokenById` | src/lib/turrets/Turret.ts:210-294 | between candidates equal on progress (and on distance or life where the strategy compares them), the lower id goes first |
| `Targeting.BeforeIrreflexive` | src/lib/turrets/Turret.ts:210-294 | no candidate precedes itself |
| `Targeting.BeforeAsymmetric` | src/lib/turrets/Turret.ts:210-294 | two candidates never precede each other |
| `Targeting.BeforeTotal` | src/lib/turrets/Turret.ts:210-294 | of two candidates with different ids, one precedes the other |
| `Targeting.NotBeforeTransitive` | src/lib/turrets/Turret.ts:210-294 | "not after" is transitive, so the comparator is a valid sort order |
| `Targeting.SortPermutation` | src/lib/turrets/Turret.ts:210-294 | sorting the candidates permutes them |
| `Targeting.SortOrdered` | src/lib/turrets/Turret.ts:210-294 | the sorted candidates are in comparator order |
| `Targeting.OrderedUnique` | src/lib/turrets/Turret.ts:210-294 | two ordered permutations of candidates with distinct ids are equal, so any correct sort gives the same list |
| `Targeting.TargetsSorted` | src/lib/turrets/Turret.ts:210-296 | the targets are the candidates, ordered by the strategy's comparator, and uniquely so when the ids are distinct |
| `Targeting.CandidatesExactly` | src/lib/turrets/Turret.ts:180-208 | a candidate exists exactly for each eligible enemy within range, with its squared distance; nothing else is a candidate |
| `Targeting.CandidatesDistinct` | src/lib/turrets/Turret.ts:180-208 | enemies with distinct ids give candidates with distinct ids |
| `Turrets.AgedSellValueDecays` | src/lib/turrets/Turret.ts:121-123 | ageing keeps the sell value between half the turret's value and where it was, and lowers it strictly while it is above that floor and at least 3 |
| `Turrets.NextStrategyCycles` | src/lib/turrets/Turret.ts:149-157 | the next strategy is (i + 1) mod 5, and five steps come back to the start |
| `Turrets.FollowedAfterTargeting` | src/lib/turrets/Turret.ts:92-105 | with no targets nothing is followed; a fixed-target turret keeps its enemy while that enemy is still a target; otherwise it follows the first target |
| `Turrets.Turret.constructor` | src/lib/turrets/Turret.ts:52-82 | level 1, grade 1, max level 10, first strategy, fixed target, value equal to the price, sell value 80% of it rounded, parameters from the table |
| `Turrets.Turret.CalculateTurretParameters` | src/lib/turrets/Turret.ts:163-168 | the damage, reload, range and prices match the table entry for the grade and level |
| `Turrets.Turret.GetEnemiesWithinRange` | src/lib/turrets/Turret.ts:174-297 | the loop returns the eligible enemies in range, in the order of the turret's strategy |
| `Turrets.Turret.Update` | src/lib/turrets/Turret.ts:88-119 | a ready turret picks its targets, updates the followed enemy and fires iff it has a target. A reloading turret counts one tick and is ready after reloadTicks |
| `Turrets.Turret.AgeTurret` | src/lib/turrets/Turret.ts:121-123 | the sell value becomes max(round(0.8 sell), round(0.5 value)) |
| `Turrets.Turret.Improve` | src/lib/turrets/Turret.ts:125-131 | one level more; the value grows by the improvement price and the sell value by 80% of it, rounded |
| `Turrets.Turret.Upgrade` | src/lib/turrets/Turret.ts:133-147 | one grade more, back to level 1 with the counter reset; the maximum level becomes 15 at grade 3 except for glue turrets |
| `Turrets.Turret.SetNextStrategy` | src/lib/turrets/Turret.ts:149-157 | the strategy index moves to the next one, wrapping round, and the strategy follows it |
| `Turrets.Turret.SetFixedTarget` | src/lib/turrets/Turret.ts:159-161 | the fixed-target mode is switched (so switching twice restores it) |
| `Mortars.ExplosionDamageBounds` | src/lib/turrets/Mortar.ts:103-105 | explosion damage lies between 0 and the rounded full damage |
| `Mortars.ExplosionDamageMonotone` | src/lib/turrets/Mortar.ts:103-105 | an enemy nearer the centre takes at least as much damage |
| `Mortars.ExplosionHitsExactly` | src/lib/turrets/Mortar.ts:87-111 | the blast hits exactly the enemies within range, each with the damage its distance gives |
| `Mortars.Detonated` | src/lib/Engine.ts:927-931 | the mortars set to detonate, all of them and only them |
| `Mortars.Mortar.constructor` | src/lib/turrets/Mortar.ts:36-70 | the shell starts at the centre of the turret's cell with counter 0, not detonating, with a velocity fixed at launch |
| `Mortars.Mortar.Update` | src/lib/turrets/Mortar.ts:76-85 | the shell moves by its velocity and counts a tick; it detonates from the tick its counter reaches ticksToImpact |
| `Mortars.Mortar.GetEnemiesWithinExplosionRange` | src/lib/turrets/Mortar.ts:87-111 | the loop returns ExplosionHits |
| `GlueBullets.GlueBullet.constructor` | src/lib/turrets/GlueBullet.ts:35-54 | the bullet starts at the centre of the turret's cell, aimed at its enemy, on the board |
| `GlueBullets.GlueBullet.PositionNextTick` | src/lib/turrets/GlueBullet.ts:71-74 | the position one velocity step ahead, each coordinate rounded |
| `GlueBullets.GlueBullet.Update` | src/lib/turrets/GlueBullet.ts:60-69 | the bullet moves to exactly the position PositionNextTick predicted; once off the board it stays flagged so |
| `Accounting.ProgressedTransitive` | src/lib/Engine.ts:172-257 | two ticks that each keep the accounts' monotonicity keep it together |
| `Accounting.Bonus` | src/lib/Engine.ts:364-373 | the bonus is at least the wave's reward |
| `Accounting.PayOut` | src/lib/Engine.ts:1186-1196 | the bonus moves into the credits and is counted as earned; the stage is marked empty |
| `Accounting.PayOutOnce` | src/lib/Engine.ts:1186-1196 | a second payout changes nothing |
| `Accounting.CheckCleared` | src/lib/Engine.ts:697-699 | the payout happens exactly when the stage has been cleared |
| `Accounting.SettleKill` | src/lib/Engine.ts:667-696 | the value is credited and earned, scored unless the game is over, and taken off the remaining reward; the bonus follows the new remainder |
| `Accounting.SettleExit` | src/lib/Engine.ts:630-656 | a life is lost; the value is scored unless the game is over and taken off the remaining reward; no credit is earned |
| `Accounting.Killed` | src/lib/Engine.ts:667-702 | the whole account of a kill, including the bonus paid out when the stage is now clear |
| `Accounting.Exited` | src/lib/Engine.ts:630-665 | the whole account of an exit, including the bonus paid out when the stage is now clear |
| `Waves.Shift` | src/lib/Engine.ts:287-298 | every entry keeps its type and has its tick moved by d |
| `Waves.OffsetIsProduct` | src/lib/Engine.ts:287-298 | copy j is shifted by j times (last tick + 2) |
| `Waves.CopiesLength` | src/lib/Engine.ts:287-298 | k + 1 copies hold k + 1 templates' worth of entries |
| `Waves.CopiesNext` | src/lib/Engine.ts:287-298 | one more pass of the copy loop adds exactly the next copy |
| `Waves.Absolute` | src/lib/Engine.ts:300-305 | every relative tick t becomes t * delta + now + 1 |
| `Waves.NewWaveEntriesLength` | src/lib/Engine.ts:272-305 | a wave adds its template's length times (1 + extra copies) entries |
| `Waves.MergedSchedule` | src/lib/Engine.ts:307-316 | the merged schedule holds exactly the old entries and the new ones, sorted by tick |
| `Engines.TurretIndex` | src/lib/Engine.ts:1198-1209 | the first index of a turret with the id, or -1 exactly when none has it |
| `Engines.ExpandTemplate` | src/lib/Engine.ts:287-298 | the copy loop builds Copies(template, max(0, extra)) |
| `Engines.ShiftEntries` | src/lib/Engine.ts:291-296 | the loop equals Shift |
| `Engines.ToAbsolute` | src/lib/Engine.ts:300-305 | the loop equals Absolute |
| `Engines.SumWave` | src/lib/Engine.ts:326-335 | the loop computes the schedule's total life and total reward |
| `Engines.Engine.constructor` | src/lib/Engine.ts:90-153 | the initial state: the level's credits and lives, score 0, all counters and lists empty, a wave may be launched |
| `Engines.Engine.GetTurretById` | src/lib/Engine.ts:1198-1209 | the scan finds the first turret with the id, or none |
| `Engines.Engine.CheckPosition` | src/lib/Engine.ts:404-461 | a cell is accepted exactly when it is on the board, off the path, free of turrets and (when there are plateaus) on one |
| `Engines.Engine.AddTurret` | src/lib/Engine.ts:388-500 | rejections in the source's order: value, position, name, credits. Only the credit failure uses up an id. Success appends a turret of the named type with the next id and pays its price |
| `Engines.Engine.BuildTurret` | src/lib/Engine.ts:463-499 | the id is always consumed; the turret is placed and paid for exactly when the credits cover its price |
| `Engines.Engine.PlaceTurret` | src/lib/Engine.ts:495-499 | the turret joins the end of the list and its price is paid |
| `Engines.Engine.SellTurret` | src/lib/Engine.ts:502-529 | a missing id or turret is rejected with nothing changed; otherwise exactly that turret leaves the list, which keeps the other turrets in their order (the splice at its index), and its sell value is credited |
| `Engines.Engine.RemoveTurret` | src/lib/Engine.ts:512-526 | the turret's one occurrence is removed and its sell value credited |
| `Engines.Engine.ImproveTurret` | src/lib/Engine.ts:704-738 | rejected for a missing id or turret, the maximum level or too few credits, with credits and every turret unchanged; otherwise the price is paid, and that turret gains a level, the price in value and 80% of it, rounded, in sell value, and the parameters of its new level; no other turret changes |
| `Engines.Engine.UpgradeTurret` | src/lib/Engine.ts:740-774 | rejected for a missing id or turret, grade 3 or too few credits, with credits and every turret unchanged; otherwise the price is paid, and that turret gains a grade, restarts at level 1 with its reload counter at 0, takes the maximum level of its new grade, gains the price in value and 80% of it, rounded, in sell value, and the parameters of its new grade; no other turret changes |
| `Engines.Engine.SetNextStrategy` | src/lib/Engine.ts:531-550 | rejected for a missing id or turret with every turret unchanged; otherwise that turret moves to its next strategy, its strategy follows the index, and no other turret changes |
| `Engines.Engine.SetFixedTarget` | src/lib/Engine.ts:552-571 | rejected for a missing id or turret with every turret unchanged; otherwise that turret's fixed-target mode is switched and no other turret changes |
| `Engines.Engine.OnNoEnemiesOnStage` | src/lib/Engine.ts:1186-1196 | the accounts after equal PayOut of the accounts before |
| `Engines.Engine.CheckStageCleared` | src/lib/Engine.ts:697-699 | the accounts after equal CheckCleared of the accounts before |
| `Engines.Engine.RemoveEnemy` | src/lib/Engine.ts:378-386 | the enemy's first occurrence is removed and it is no longer on the stage |
| `Engines.Engine.OnEnemyKilled` | src/lib/Engine.ts:667-702 | the enemy leaves the stage and the accounts follow Killed |
| `Engines.Engine.OnEnemyReachedExit` | src/lib/Engine.ts:630-665 | the enemy leaves the stage and the accounts follow Exited |
| `Engines.Engine.NewWave` | src/lib/Engine.ts:259-376 | refused, with nothing changed, during the cooldown. Otherwise it pays the bonus, schedules this round's entries merged by tick, advances the round, and sets the reward, difficulty and bonus |
| `Engines.Engine.PayBonusAndOpen` | src/lib/Engine.ts:264-270 | the pending bonus is credited and earned, and the cooldown starts |
| `Engines.Engine.ScheduleWave` | src/lib/Engine.ts:272-324 | the new entries are merged into the schedule; the round advances; the wave's reward and the spawn count are set |
| `Engines.Engine.WaveEntries` | src/lib/Engine.ts:272-305 | the loops produce NewWaveEntries for the current round |
| `Engines.Engine.PriceWave` | src/lib/Engine.ts:326-373 | total life and remaining reward of the whole schedule; the difficulty modifiers; the bonus |
| `Engines.Engine.Update` | src/lib/Engine.ts:172-257 | one tick: the counter grows by exactly 1, game over latches once lives run out, credits and score never fall and lives never rise, and after game over the score is frozen |
| `Engines.Engine.StartTick` | src/lib/Engine.ts:186-217 | game over, the end of the wave and the end of the cooldown are each decided by their conditions |
| `Engines.Engine.CloseWave` | src/lib/Engine.ts:191-205 | the wave ends exactly when the stage is clear, all enemies are spawned and nothing is in flight; then every turret is aged |
| `Engines.Engine.AgeTurrets` | src/lib/Engine.ts:1156-1160 | every turret's sell value is aged |
| `Engines.Engine.Resolve` | src/lib/Engine.ts:219-223 | while a wave is active both queues are emptied and their projectiles spliced out of flight; otherwise the projectile lists, the queues, the enemies on stage and the accounts are kept; then every enemy takes the pose the teleport queue folds it to, and the queue is emptied |
| `Engines.Engine.Settle` | src/lib/Engine.ts:219-221 | while a wave is active both queues are emptied and their projectiles spliced out of flight; otherwise the projectile lists, the queues, the enemies on stage and the accounts are kept; no enemy's pose changes |
| `Engines.Engine.RemoveProjectilesAndAccountDamage` | src/lib/Engine.ts:975-1106 | both queues are emptied and each queued projectile is spliced out of flight; the accounts only progress |
| `Engines.Engine.DrainGlueBullets` | src/lib/Engine.ts:998-1021 | every queued glue bullet is spliced out of flight, in queue order, and the queue is emptied |
| `Engines.Engine.Stick` | src/lib/Engine.ts:998-1021 | a bullet still on the board slows its living enemy with its own intensity and duration, and otherwise touches no enemy; then it is spliced out |
| `Engines.Engine.DrainMortars` | src/lib/Engine.ts:1023-1053 | every impacting mortar is spliced out, in queue order, and the queue is emptied; the accounts only progress |
| `Engines.Engine.SpliceImpacting` | src/lib/Engine.ts:1023-1053 | the splices of the impacting mortars, in queue order |
| `Engines.Engine.Blast` | src/lib/Engine.ts:1023-1053 | the hits of a mortar are ExplosionHits over the enemies on stage; the damage is credited to the mortar's turret |
| `Engines.Engine.Strike` | src/lib/Engine.ts:1023-1053 | a kill is reported exactly when the blow takes a living enemy to 0; the turret's inflicted damage grows by the rounded damage when the enemy was alive |
| `Engines.Engine.TeleportFlagged` | src/lib/Engine.ts:1108-1154 | every enemy ends in the pose `TeleportedPose` folds from its old pose over the queue; no glue bullet stays assigned to a teleported enemy, and assignments are only ever dropped; the queue is emptied |
| `Engines.Engine.TeleportAt` | src/lib/Engine.ts:1113-1144 | entry `i` teleports its enemy: every enemy goes from the pose the entries before `i` fold it to, to the pose the entries up to `i` fold it to; glue bullets aimed at that enemy lose their target |
| `Engines.Engine.TeleportAll` | src/lib/Engine.ts:1113-1145 | the teleport loop takes every enemy from its starting pose to the pose the whole queue folds it to, and unassigns the glue bullets of every teleported enemy |
| `Engines.Engine.Unassign` | src/lib/Engine.ts:1135-1144 | no glue bullet in flight stays assigned to the enemy with the id; other assignments are kept |
| `Engines.Engine.CheckCollisions` | src/lib/Engine.ts:821-973 | off-board glue bullets are queued; detonated mortars are queued in list order; every non-flying enemy is unglued |
| `Engines.Engine.CollideGlueBullets` | src/lib/Engine.ts:874-925 | the queue only grows, and every glue bullet off the board is in it |
| `Engines.Engine.Collides` | src/lib/Engine.ts:877-924 | an off-board bullet collides, untouched; an assigned bullet keeps its enemy and collides exactly when its step crosses that enemy's bounding circle, 1.65 times as wide for an enemy with no life left; an unassigned bullet collides exactly when its step crosses 1.25 times the circle of some enemy on stage, and is then assigned the first one |
| `Engines.Engine.QueueDetonated` | src/lib/Engine.ts:927-931 | the queue gains exactly the detonated mortars, in list order |
| `Engines.Engine.Unglue` | src/lib/Engine.ts:945-972 | no enemy except a flier stays glued (no glue puddle is in play) |
| `Engines.Engine.SpawnEnemies` | src/lib/Engine.ts:1162-1184 | the spawner's due enemies join the end of the list in order, with consecutive ids; the pending schedule is what the spawner leaves |
| `Engines.Engine.TakeDue` | src/lib/Engine.ts:1162-1184 | the due enemies are taken from the schedule as the spawner says |
| `Engines.Engine.SpawnDue` | src/lib/Engine.ts:1164-1183 | each due enemy is appended with the next id; once the wave's last enemy spawns this is recorded |
| `Engines.Engine.SpawnEnemy` | src/lib/Engine.ts:1165-1179 | one enemy appended, fresh, with the next id and the counts updated |
| `Engines.Engine.NewEnemy` | src/lib/enemies/Enemy.ts:53-112 | a fresh enemy of the type, with the engine's next enemy id, after which the id grows by 1 |
| `Engines.Engine.CountSpawn` | src/lib/Engine.ts:1166-1172 | the spawn counter grows; at the wave's length every enemy is spawned and both counters restart |
| `Engines.Engine.UpdateEnemies` | src/lib/Engine.ts:228-230 | each life lost is one enemy gone from the stage; no enemy joins; the accounts only progress |
| `Engines.Engine.StepEnemy` | src/lib/Engine.ts:228-230 | the enemy at the index moves on by its current speed, or counts a teleport tick without moving; it reaches the exit exactly when it moved to the last path cell or beyond, and then leaves the list at that index and is settled by `Exited`; otherwise the list and the accounts are kept; no other enemy changes |
| `Engines.Engine.UpdateEnemy` | src/lib/Engine.ts:228-230 | the exit is reported exactly when a non-teleporting enemy moved to the last path cell or beyond; a moving enemy advances by its current speed and a teleporting one counts a tick in place |
| `Engines.Engine.UpdateTurrets` | src/lib/Engine.ts:232-234 | every turret is stepped and the engine stays valid |
| `Engines.Engine.UpdateGlueBullets` | src/lib/Engine.ts:240-242 | every glue bullet in flight moves to the position it announced and is flagged once off the board, a flag set before staying set; no other bullet changes |
| `Engines.Engine.UpdateMortars` | src/lib/Engine.ts:244-246 | every mortar in flight moves one velocity step, counts one more tick and is set to detonate once the tick of impact comes, a flag set before staying set; no other mortar changes |
| `Engines.Engine.ShootGlueBullet` | src/lib/Engine.ts:581-587 | a fresh glue bullet with id bulletId joins the end of the list, and the shared bullet id grows by 1 |
| `Engines.Engine.AddGlueBullet` | src/lib/Engine.ts:581-587 | the bullet joins the end of the list |
| `Engines.Engine.AddMortar` | src/lib/Engine.ts:597-603 | the mortar joins the end of the list |
| `Engines.Engine.LaunchMortar` | src/lib/Engine.ts:597-603 | a fresh mortar with id mortarId and the current tick leaves the turret's cell centre; the mortar id grows by 1 |
| `Engines.Engine.FlagEnemyToTeleport` | src/lib/Engine.ts:626-628 | the enemy and its distance join the end of the teleport queue |
| `Runners.TicksAcceptedOrdered` | src/lib/EngineRunner.ts:93-95 | the per-action tick check passes exactly on logs whose ticks are numbers that start at 0 or later and never decrease |
| `Runners.ChronologicalPairwise` | src/lib/EngineRunner.ts:97-111 | reports in order neighbour by neighbour are in order throughout |
| `Runners.ReportsAppend` | src/lib/EngineRunner.ts:97-111 | reports of two consecutive stretches of ticks form one ordered stretch |
| `Runners.Snapshot` | src/lib/EngineRunner.ts:101-109 | the report carries the engine's tick, score, lives, round and credits |
| `Runners.Tick` | src/lib/EngineRunner.ts:97-111 | one engine tick, reported exactly when a callback is given and the tick is a multiple of 100 |
| `Runners.AdvanceTo` | src/lib/EngineRunner.ts:97-111 | the engine reaches the action's tick unless the lives run out first; reports are ordered multiples of 100 |
| `Runners.Dispatch` | src/lib/EngineRunner.ts:113-138 | each action goes to its command; a refused wave is NextWave, an unknown type is ActionType, a missing payload is ActionValue; neither the tick nor the lives change |
| `Runners.LaunchNextWave` | src/lib/EngineRunner.ts:114-115 | newWave's refusal becomes NextWave |
| `Runners.PlayAction` | src/lib/EngineRunner.ts:88-140 | a non-number or earlier tick fails with Ticks and nothing happens; otherwise the engine advances and the command's refusal is the failure |
| `Runners.Replay` | src/lib/EngineRunner.ts:88-142 | actions play in log order; the prefix played passed the tick check; a failure names the first refused action; without one the log ran out or the lives did |
| `Runners.Finish` | src/lib/EngineRunner.ts:144-154 | success with the score exactly when the lives are spent; otherwise NoGameOver when the wave is over, TickBudgetExhausted when the budget ran out |
| `Runners.EngineRunner.constructor` | src/lib/EngineRunner.ts:32-35 | the runner keeps its level and collaborators |
| `Runners.EngineRunner.Run` | src/lib/EngineRunner.ts:70-155 | a version mismatch or an empty log is refused first. Success means the accepted prefix of the log ended the game, with its score. A Ticks failure names an action rejected by the tick check |

## Left out

- The client-side frame throttle at the top of `update` reads `Date.now`. The model is the server-side engine, for which it is off.
- The event dispatcher and its listeners are left out, as is `enemy.destroy()`. They have no effect on the engine's state.
- The bullet, mine, glue-puddle and laser entities are left out, with their lists, ids, collision branches and settlement branches. Their source files are not part of this model. So in the wave-over test the lists of bullets and glues are always empty.
- The mine and glue-puddle checks of `checkCollisions` are left out. With no glue puddle in play, every non-flying enemy is unglued each tick.
- `addBullet`, `addGlue`, `addMine` and `addLaserRay` are left out, for the same reason.
- The turret subclasses' `shoot` is left out; their files are not part of this model.
  - `Turret.Update` reports that a shot is due, and `UpdateTurrets` takes no further action on it.
  - The engine entry points those subclasses call are modelled on their own: `ShootGlueBullet`, `LaunchMortar` and `FlagEnemyToTeleport`.
- `Enemy.getNextPosition` is left out; it is used only by the turret subclasses.
- The square root and the segment/circle test are given as `Geometry`, and `Math.cos`/`Math.sin` of the aim angle are inputs.
- The game constants, the early-bonus formula and the difficulty formula are given as `Rules`. Their `Math.pow` arithmetic is not modelled.
- The enemy spawner is given as a function from the schedule to the enemies due and the entries left.
- The turret attribute generator is given as the table `TurretTable`.
- `errorMessage` and the text of each thrown error are left out. Each maps to an `ErrorKind` constructor.
- A logged action tick is a whole number or `None`; fractional ticks are left out.
- An action type is a datatype, and an unrecognised type keeps its name.
- The progress callback is a flag, and `Run` returns the reports it would receive. The wall-clock time is left out of a report.
- `Runners.Finish` bounds its loop. The source's final loop runs while the wave is active and lives remain, with no bound. The model adds a tick budget and reports `TickBudgetExhausted` when the budget runs out.
- `Runners.EngineRunner.Run` requires a non-empty path and playable wave templates. The source's level data always has these.
- `Runners.Dispatch` states only the outcomes it decides itself: NextWave, ActionType, and ActionValue for a missing payload. It does not restate the outcomes of the engine commands, which those commands' own contracts state.
- `Runners.Build`, `Runners.DispatchOnTurret` and `Runners.Improve` state only that a rejection is a command error and a missing payload is ActionValue.
- `Engines.Engine.Update` does not restate which entity lists stay as they were.
- `Engines.Engine.UpdateTurrets` states only that the engine stays valid. Each turret's step is stated by `Turrets.Turret.Update`.
- `Engines.Engine.UpdateEnemy` states the engine's invariant, the exit test and the enemy's new progress. The rest of the enemy's step is stated by `Enemies.Enemy.Update`.
- `Engines.Engine.UpdateEnemies` does not state which enemies were stepped. The index-based `forEach` skips the enemy that moves up into the place of one that left. The contract states the lives-to-exits balance, that no enemy joins the stage, and that the accounts only progress. Each step is stated exactly by `Engines.Engine.StepEnemy`.
- `Engines.Engine.CollideGlueBullets` and `Engines.Engine.CheckCollisions` state that the queue only grows and that off-board bullets are queued. They do not restate which on-board bullets collide. That decision, bullet by bullet, is stated by `Engines.Engine.Collides`.
- `Engines.Engine.DrainMortars` and `Engines.Engine.Explode` state the splices and that the accounts only progress. The per-enemy damage is stated by `Engines.Engine.Blast` and `Engines.Engine.Strike`.
- `Engines.Engine.DrainGlueBullets` states the splices only. The effect on each enemy is stated by `Engines.Engine.Stick`.
- `Engines.Engine.DrainMortars` takes every explosion before any splice. This is equivalent, because an explosion does not look at the list of mortars in flight.
- A queued glue bullet without an enemy is skipped. The queue is built after the teleports, so an on-board bullet in it always has an enemy.
- `Engines.Engine.FlagEnemyToTeleport` and `Engines.Engine.TeleportFlagged` capture the teleport distance when the enemy is flagged. The source keeps the glue turret and reads its `teleportDistance` at teleport time, on the next tick. If the player improves or upgrades that turret in between, the source uses the new distance and the model the old one.
- `Enemies.Enemy.Teleport` leaves the position where it was when the new progress is off the path. The source reads the coordinates of the missing path position there and throws. The case does not arise in the game: a teleport moves back by a non-negative distance from a point on the path, and `Enemies.TeleportStaysOnPath` shows that it then lands on the path.
- `Enemies.Enemy.HitByGlueBullet`, `Enemies.Enemy.Glue`, `Engines.Engine.AddGlueBullet` and `Engines.Engine.ShootGlueBullet` require a positive intensity, and the engine's invariant keeps every glue bullet's intensity positive. The source takes any number. It divides the enemy's speed by the intensity in `getSpeed`, so an intensity of 0 would give an infinite speed, which has no counterpart among the reals. The glue turret that supplies the intensity is not part of this model.
- The merge sort is not stable. The model follows the code: on equal ticks the right half's entry goes first, even where a stable order might be expected.
- The JavaScript `Array.sort` of the turret's targets is replaced by an insertion sort. It is proved to give the only list ordered by the comparator when the ids are distinct.
- Numbers are unbounded reals and integers. Floating-point rounding is left out, except where `fixNumber` and `Math.round` make it explicit.
