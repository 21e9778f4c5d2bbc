/** The player's accounts: credits, the credits earned over the game, the
    score, the lives, the bonus of the current wave and the reward its enemies
    still carry, and how each departure of an enemy from the stage changes
    them. Each function is one step of the engine stated on values; the
    engine's methods perform the same step on their fields. */
module Accounting {
  import opened GameTypes

  datatype Ledger = Ledger(credits: nat, creditsEarned: nat, score: nat, lifes: int, bonus: nat,
                           remainingReward: int, noEnemiesOnStage: bool)

  /** How the accounts may change over a tick: credits and score never fall,
      lives never rise, every credit gained is also counted as earned, and
      once the game is over the score stays where it is. */
  predicate Progressed(before: Ledger, after: Ledger, over: bool)
  {
    && before.credits <= after.credits && before.score <= after.score && after.lifes <= before.lifes
    && after.creditsEarned - after.credits == before.creditsEarned - before.credits
    && (over ==> after.score == before.score)
  }

  /** Two steps that each progress make one step that progresses. */
  lemma ProgressedTransitive(a: Ledger, b: Ledger, c: Ledger, over: bool)
    requires Progressed(a, b, over) && Progressed(b, c, over)
    ensures Progressed(a, c, over)
  {
  }

  /** The bonus of the current wave: its reward plus the early bonus of the
      reward still to be earned (a negative remainder counts as 0). */
  function Bonus(rules: Rules, waveReward: nat, remainingReward: int): (b: nat)
    ensures b >= waveReward
  {
    waveReward + rules.earlyBonus(Max(0, remainingReward))
  }

  /** onNoEnemiesOnStage: the stage is marked empty and the pending bonus moves
      into the credits, which also count it as earned. */
  function PayOut(l: Ledger): (r: Ledger)
    ensures r.noEnemiesOnStage && r.bonus == 0
    ensures r.credits + r.bonus == l.credits + l.bonus
    ensures r.creditsEarned - r.credits == l.creditsEarned - l.credits
    ensures r.score == l.score && r.lifes == l.lifes && r.remainingReward == l.remainingReward
  {
    l.(noEnemiesOnStage := true, credits := l.credits + l.bonus, creditsEarned := l.creditsEarned + l.bonus, bonus := 0)
  }

  /** The bonus is paid out once: a second payout changes nothing. */
  lemma PayOutOnce(l: Ledger)
    ensures PayOut(PayOut(l)) == PayOut(l)
  {
  }

  /** The stage-cleared test after an enemy has left the stage: the payout happens exactly
      when the stage has been cleared. */
  function CheckCleared(l: Ledger, cleared: bool): (r: Ledger)
    ensures r.noEnemiesOnStage == (l.noEnemiesOnStage || cleared)
    ensures cleared ==> r == PayOut(l)
    ensures !cleared ==> r == l
  {
    if cleared then PayOut(l) else l
  }

  /** The settlement of a kill before the stage-cleared test: the value is credited and
      earned, taken from the remaining reward and, unless the game is over,
      scored; the bonus is recomputed from the remaining reward. */
  function SettleKill(l: Ledger, value: nat, gameOver: bool, waveReward: nat, rules: Rules): (r: Ledger)
    ensures r.credits == l.credits + value && r.creditsEarned - r.credits == l.creditsEarned - l.credits
    ensures r.remainingReward == l.remainingReward - value
    ensures r.score == l.score + (if gameOver then 0 else value)
    ensures r.bonus == Bonus(rules, waveReward, r.remainingReward)
    ensures r.lifes == l.lifes && r.noEnemiesOnStage == l.noEnemiesOnStage
  {
    var rest := l.remainingReward - value;
    l.(credits := l.credits + value, creditsEarned := l.creditsEarned + value, remainingReward := rest,
       score := if gameOver then l.score else l.score + value, bonus := Bonus(rules, waveReward, rest))
  }

  /** The settlement of an exit before the stage-cleared test: unless the game is over the
      value is scored; it is taken from the remaining reward, a life is lost,
      and the bonus is recomputed. No credit is earned. */
  function SettleExit(l: Ledger, value: nat, gameOver: bool, waveReward: nat, rules: Rules): (r: Ledger)
    ensures r.credits == l.credits && r.creditsEarned == l.creditsEarned
    ensures r.remainingReward == l.remainingReward - value
    ensures r.score == l.score + (if gameOver then 0 else value)
    ensures r.lifes == l.lifes - 1
    ensures r.bonus == Bonus(rules, waveReward, r.remainingReward)
    ensures r.noEnemiesOnStage == l.noEnemiesOnStage
  {
    var rest := l.remainingReward - value;
    l.(score := if gameOver then l.score else l.score + value, remainingReward := rest, lifes := l.lifes - 1,
       bonus := Bonus(rules, waveReward, rest))
  }

  /** onEnemyKilled on the accounts: the enemy's value is credited, earned and
      (unless the game is over) scored, the remaining reward shrinks by it,
      and when the stage is now clear the bonus for the remainder is paid out
      as well; otherwise the bonus follows the remainder. */
  function Killed(l: Ledger, value: nat, gameOver: bool, waveReward: nat, rules: Rules, cleared: bool): (r: Ledger)
    ensures r.credits == l.credits + value + (if cleared then Bonus(rules, waveReward, r.remainingReward) else 0)
    ensures r.creditsEarned - r.credits == l.creditsEarned - l.credits
    ensures r.score == l.score + (if gameOver then 0 else value)
    ensures r.lifes == l.lifes && r.remainingReward == l.remainingReward - value
    ensures r.bonus == (if cleared then 0 else Bonus(rules, waveReward, r.remainingReward))
    ensures r.noEnemiesOnStage == (l.noEnemiesOnStage || cleared)
  {
    CheckCleared(SettleKill(l, value, gameOver, waveReward, rules), cleared)
  }

  /** onEnemyReachedExit on the accounts: a life is lost, the value is scored
      unless the game is over and leaves the remaining reward, and no credit
      is earned except the bonus, paid out when the stage is now clear. */
  function Exited(l: Ledger, value: nat, gameOver: bool, waveReward: nat, rules: Rules, cleared: bool): (r: Ledger)
    ensures r.credits == l.credits + (if cleared then Bonus(rules, waveReward, r.remainingReward) else 0)
    ensures r.creditsEarned - r.credits == l.creditsEarned - l.credits
    ensures r.score == l.score + (if gameOver then 0 else value)
    ensures r.lifes == l.lifes - 1 && r.remainingReward == l.remainingReward - value
    ensures r.bonus == (if cleared then 0 else Bonus(rules, waveReward, r.remainingReward))
    ensures r.noEnemiesOnStage == (l.noEnemiesOnStage || cleared)
  {
    CheckCleared(SettleExit(l, value, gameOver, waveReward, rules), cleared)
  }
}
