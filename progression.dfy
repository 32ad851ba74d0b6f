/** Score, level and state bookkeeping: what one enemy death does to the
    world's counters, the upgrade gate, the difficulty presets applied at
    reset, and the table of state transitions. */
module Progression {
  import opened Entities

  /** The counters a death changes. */
  datatype Progress = Progress(score: int, level: int, killed: int, spawnInterval: real,
                               bossActive: bool, bossSpawned: bool, state: GameState)

  function Max(a: real, b: real): real { if a >= b then a else b }

  /** The spawn interval after a kill-count level-up to `level`. */
  function IntervalForLevel(level: int): (r: real)
    ensures r >= 0.5
    ensures level >= 0 ==> r <= 1.5
    ensures level >= 20 ==> r == 0.5
  {
    Max(0.5, 1.5 - (level as real) * 0.05)
  }

  /** A regular kill raises the level through the kill count when the count
      after the kill is a multiple of 20 and the level before it is not a
      multiple of 10 (a literal 10, not the stage interval). */
  predicate CountLevelUp(p: Progress, isBoss: bool)
  {
    !isBoss && Rem(p.killed + 1, 20) == 0 && Rem(p.level, 10) != 0
  }

  /** The upgrade gate on the level just reached. */
  predicate UpgradeGate(level: int)
  {
    Rem(level, 3) == 1 && level > 1
  }

  /** The stage is regenerated when a level-up lands on the first level of a
      stage interval. */
  predicate RegeneratesOnKill(p: Progress, isBoss: bool)
  {
    (isBoss || CountLevelUp(p, isBoss)) && Rem(p.level + 1, StageInterval) == 1
  }

  /** The counters after one call of the death handler on an enemy whose boss
      flag is `isBoss`. */
  function AfterKill(p: Progress, isBoss: bool): Progress
  {
    if isBoss then
      var level := p.level + 1;
      Progress(p.score + 500, level, p.killed + 1, p.spawnInterval, false, false,
               if UpgradeGate(level) then Upgrade else p.state)
    else if CountLevelUp(p, isBoss) then
      var level := p.level + 1;
      Progress(p.score + 10 * p.level, level, p.killed + 1, IntervalForLevel(level),
               p.bossActive, p.bossSpawned, if UpgradeGate(level) then Upgrade else p.state)
    else
      p.(score := p.score + 10 * p.level, killed := p.killed + 1)
  }

  /** Every death counts once and scores 500 for a boss, ten times the level
      held before the death for any other enemy. */
  lemma KillScores(p: Progress, isBoss: bool)
    ensures AfterKill(p, isBoss).killed == p.killed + 1
    ensures AfterKill(p, isBoss).score == p.score + (if isBoss then 500 else 10 * p.level)
  {
  }

  /** The level rises by one on a boss death or a kill-count level-up, and
      otherwise stays; only a kill-count level-up recomputes the interval. */
  lemma KillLevel(p: Progress, isBoss: bool)
    ensures AfterKill(p, isBoss).level
         == p.level + (if isBoss || CountLevelUp(p, isBoss) then 1 else 0)
    ensures AfterKill(p, isBoss).spawnInterval
         == (if CountLevelUp(p, isBoss) then IntervalForLevel(p.level + 1) else p.spawnInterval)
  {
  }

  /** A boss death clears both boss flags; any other death leaves them. */
  lemma KillBossFlags(p: Progress, isBoss: bool)
    ensures isBoss ==> !AfterKill(p, isBoss).bossActive && !AfterKill(p, isBoss).bossSpawned
    ensures !isBoss ==> (AfterKill(p, isBoss).bossActive == p.bossActive
                         && AfterKill(p, isBoss).bossSpawned == p.bossSpawned)
  {
  }

  /** The Upgrade state is entered exactly when the level rose to a level
      1 more than a multiple of 3 above 1; otherwise the state is kept. */
  lemma KillState(p: Progress, isBoss: bool)
    ensures var q := AfterKill(p, isBoss);
      q.state == (if q.level != p.level && UpgradeGate(q.level) then Upgrade else p.state)
  {
  }

  /** Regular deaths raise the level every 20th kill, except while the level is
      a multiple of 10: at level 10 only the boss moves the game on. */
  lemma CountLevelUpBlockedAtTens(p: Progress)
    requires Rem(p.killed + 1, 20) == 0
    ensures CountLevelUp(p, false) <==> Rem(p.level, 10) != 0
    ensures p.level == 10 ==> AfterKill(p, false).level == 10
    ensures p.level == 9 ==> AfterKill(p, false).level == 10
  {
  }

  /** Level 5 boss: +500, level 6, boss flags cleared, no upgrade, no new
      stage. Level 10 boss: level 11, a new stage, and still no upgrade. */
  lemma BossKillScenarios(p: Progress)
    requires p.state == Playing
    ensures p.level == 5 ==>
      var q := AfterKill(p, true);
      q.score == p.score + 500 && q.level == 6 && !q.bossActive && q.state == Playing
      && !RegeneratesOnKill(p, true)
    ensures p.level == 10 ==>
      var q := AfterKill(p, true);
      q.level == 11 && RegeneratesOnKill(p, true) && q.state == Playing
    ensures p.level == 6 ==> AfterKill(p, true).state == Upgrade
  {
  }

  /** At level 1 a regular death scores exactly 10. */
  lemma FirstKillScenario(p: Progress)
    requires p.level == 1 && p.killed == 0
    ensures AfterKill(p, false).score == p.score + 10
    ensures AfterKill(p, false).killed == 1
    ensures AfterKill(p, false).level == 1
  {
  }

  /** A death that reaches the upgrade gate overwrites GameOver: when a lethal
      contact and such a death happen in the same tick, the game goes to the
      Upgrade screen instead of ending. */
  lemma KillOverridesGameOver(p: Progress)
    requires p.state == GameOver && p.level == 6
    ensures AfterKill(p, true).state == Upgrade
  {
  }

  /** The starting maximum health for a difficulty: 150 easy, 75 hard, 100 for
      normal and any other setting. */
  function StartHealth(difficulty: int): (h: int)
    ensures difficulty == 0 ==> h == 150
    ensures difficulty == 1 ==> h == 100
    ensures difficulty == 2 ==> h == 75
  {
    if difficulty == 0 then 150 else if difficulty == 2 then 75 else 100
  }

  /** The starting spawn interval: 2.0 easy, 1.0 hard, 1.5 otherwise. */
  function StartInterval(difficulty: int): (r: real)
    ensures difficulty == 0 ==> r == 2.0
    ensures difficulty == 1 ==> r == 1.5
    ensures difficulty == 2 ==> r == 1.0
  {
    if difficulty == 0 then 2.0 else if difficulty == 2 then 1.0 else 1.5
  }

  /** Harder settings start with less health and faster spawning. */
  lemma DifficultyOrdered()
    ensures StartHealth(0) > StartHealth(1) > StartHealth(2)
    ensures StartInterval(0) > StartInterval(1) > StartInterval(2)
  {
  }

  /** The state changes one tick may make. */
  predicate Allowed(from: GameState, to: GameState)
  {
    from == to ||
    match from
    case Menu => to == Playing || to == Settings
    case Settings => to == Menu
    case Playing => to == Paused || to == Upgrade || to == GameOver
    case Paused => to == Playing || to == Menu
    case Upgrade => to == Playing
    case GameOver => to == Playing || to == Menu
  }
}
