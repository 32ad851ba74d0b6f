/** The world object: every pool is a fixed array updated in place, the
    counters are fields, and each operation of the game loop is a method
    proved against the pure rules of the other modules. Random draws, key
    presses and per-player control intents are parameters. */
module Simulation {
  import opened Entities
  import opened Pools
  import opened Geometry
  import opened Stages
  import opened Progression
  import opened Combat
  import opened Spawning

  /** The keys the state machine reacts to. */
  datatype Key = KeyP | KeyEscape | KeyR | KeyUp | KeyDown | KeyLeft | KeyRight
               | KeyEnter | KeySpace | KeyOne | KeyTwo | KeyThree | KeyFour | KeyFive

  /** One attempted shot: its direction and the roll in [0, 1) that
      decides a critical hit. */
  datatype Aim = Aim(dir: Vec, critRoll: real)

  /** What one player's controls ask for in one tick: a movement step with
      each component in {-1, 0, 1}, the shots attempted in order, and the
      skills whose keys were pressed. */
  datatype Intent = Intent(step: Vec, shots: seq<Aim>, skills: set<nat>)

  /** The values one tick takes from outside the model: the random draws
      (hazard points, boss position, spawn candidates, per-slot power-up
      drops), the twelve fixed radial directions, computed with cosine and
      sine, and the position each enemy's steering asks for. */
  datatype Draws = Draws(hazards: seq<Vec>, bossAt: Vec, spawns: seq<SpawnDraw>,
                         drops: seq<Option<int>>, radial: seq<Vec>, steer: seq<Vec>)

  predicate DrawsOk(d: Draws)
  {
    && |d.hazards| == 10 && |d.spawns| == MaxEnemies && |d.drops| == MaxEnemies
    && |d.radial| == 12 && |d.steer| == MaxEnemies
  }

  /** Ten placeholder hazard points; only read on a hazard stage, which a
      reset (level 1) never selects. */
  const NoHazards: seq<Vec> := seq(10, _ => Vec(0.0, 0.0))

  /** The settings screen's values: sound and music switches, the two
      volumes, and the difficulty (0 easy, 1 normal, 2 hard). */
  datatype Prefs = Prefs(soundEnabled: bool, musicEnabled: bool, soundVolume: real,
                         musicVolume: real, difficulty: int)

  /** Volumes stay in [0, 1] and the difficulty in 0..2. */
  predicate PrefsOk(s: Prefs)
  {
    0.0 <= s.soundVolume <= 1.0 && 0.0 <= s.musicVolume <= 1.0 && 0 <= s.difficulty <= 2
  }

  /** Enter or Space confirms a menu entry. */
  predicate Confirm(keys: set<Key>)
  {
    KeyEnter in keys || KeySpace in keys
  }

  /** A menu cursor after Up and then Down, each wrapping within 0..last. */
  function Cycle(sel: int, keys: set<Key>, last: int): int
  {
    var a := if KeyUp in keys then (if sel - 1 < 0 then last else sel - 1) else sel;
    if KeyDown in keys then (if a + 1 > last then 0 else a + 1) else a
  }

  /** The cursor stays on the menu, wraps at both ends, and Up with Down in
      the same tick cancel out. */
  lemma CycleSpec(sel: int, keys: set<Key>, last: int)
    requires 0 <= sel <= last
    ensures 0 <= Cycle(sel, keys, last) <= last
    ensures KeyUp in keys && KeyDown !in keys ==> Cycle(sel, keys, last) == (if sel == 0 then last else sel - 1)
    ensures KeyDown in keys && KeyUp !in keys ==> Cycle(sel, keys, last) == (if sel == last then 0 else sel + 1)
    ensures KeyUp in keys && KeyDown in keys ==> Cycle(sel, keys, last) == sel
    ensures KeyUp !in keys && KeyDown !in keys ==> Cycle(sel, keys, last) == sel
  {
  }

  /** Left or Right on settings row `sel`: rows 0 and 1 toggle a switch,
      rows 2 and 3 move a volume by 0.1 within [0, 1], row 4 moves the
      difficulty by one within 0..2; other rows change nothing. */
  function Adjusted(s: Prefs, sel: int, right: bool): Prefs
  {
    if sel == 0 then s.(soundEnabled := !s.soundEnabled)
    else if sel == 1 then s.(musicEnabled := !s.musicEnabled)
    else if sel == 2 then
      s.(soundVolume := if right then MinReal(1.0, s.soundVolume + 0.1) else Max(0.0, s.soundVolume - 0.1))
    else if sel == 3 then
      s.(musicVolume := if right then MinReal(1.0, s.musicVolume + 0.1) else Max(0.0, s.musicVolume - 0.1))
    else if sel == 4 then
      s.(difficulty := if right then (if s.difficulty + 1 > 2 then 2 else s.difficulty + 1)
                       else (if s.difficulty - 1 < 0 then 0 else s.difficulty - 1))
    else s
  }

  /** Adjusting keeps the settings in range, and on the difficulty row Right
      then Left returns to the start unless it was already hard. */
  lemma AdjustedSpec(s: Prefs, sel: int, right: bool)
    requires PrefsOk(s)
    ensures PrefsOk(Adjusted(s, sel, right))
    ensures sel == 4 && s.difficulty < 2 ==> Adjusted(Adjusted(s, 4, true), 4, false) == s
    ensures sel == 4 ==> Adjusted(s, sel, right).difficulty
                         == (if right then Min(s.difficulty + 1, 2) else MaxInt(s.difficulty - 1, 0))
    ensures sel < 0 || sel > 4 ==> Adjusted(s, sel, right) == s
  {
  }

  function MaxInt(a: int, b: int): int { if a >= b then a else b }

  /** The keys of the five upgrade choices, in choice order. */
  const UpgradeKeys: seq<Key> := [KeyOne, KeyTwo, KeyThree, KeyFour, KeyFive]

  /** The choices among the first `n` whose keys are down, in key order. */
  function ChoicesFrom(keys: set<Key>, n: nat): seq<int>
    requires n <= 5
  {
    if n == 0 then []
    else ChoicesFrom(keys, n - 1) + (if UpgradeKeys[n - 1] in keys then [n - 1] else [])
  }

  /** The choices are exactly those whose keys are down, each once, in
      ascending order. */
  lemma {:induction false} ChoicesFromSpec(keys: set<Key>, n: nat)
    requires n <= 5
    ensures forall c :: c in ChoicesFrom(keys, n) <==> 0 <= c < n && UpgradeKeys[c] in keys
    ensures forall a, b :: 0 <= a < b < |ChoicesFrom(keys, n)| ==> ChoicesFrom(keys, n)[a] < ChoicesFrom(keys, n)[b]
  {
    if n > 0 {
      ChoicesFromSpec(keys, n - 1);
      var init := ChoicesFrom(keys, n - 1);
      assert forall a :: 0 <= a < |init| ==> init[a] in init;
    }
  }

  /** The upgrade choices whose keys (1 to 5) are down, in key order. */
  function UpgradeChoices(keys: set<Key>): seq<int>
  {
    ChoicesFrom(keys, 5)
  }

  /** The screen stays up exactly when none of the five keys is down. */
  lemma NoChoices(keys: set<Key>)
    ensures UpgradeChoices(keys) == [] <==>
      KeyOne !in keys && KeyTwo !in keys && KeyThree !in keys && KeyFour !in keys && KeyFive !in keys
  {
    ChoicesFromSpec(keys, 5);
    if UpgradeChoices(keys) != [] {
      var c := UpgradeChoices(keys)[0];
      assert c in UpgradeChoices(keys);
      assert c == 0 || c == 1 || c == 2 || c == 3 || c == 4;
    } else {
      assert 0 !in UpgradeChoices(keys) && 1 !in UpgradeChoices(keys) && 2 !in UpgradeChoices(keys)
          && 3 !in UpgradeChoices(keys) && 4 !in UpgradeChoices(keys);
    }
  }

  /** A player after a run of upgrades, applied in order. */
  function UpgradedAll(p: Player, cs: seq<int>): Player
  {
    if |cs| == 0 then p else Upgraded(UpgradedAll(p, cs[..|cs| - 1]), cs[|cs| - 1])
  }

  /** One more upgrade extends the run by one step. */
  lemma UpgradedAllSnoc(p: Player, cs: seq<int>, c: int)
    ensures UpgradedAll(p, cs + [c]) == Upgraded(UpgradedAll(p, cs), c)
  {
    assert (cs + [c])[..|cs|] == cs;
  }

  /** Every key held on the upgrade screen is applied in the same tick: with
      1 and 2 both down the player gets +20 maximum health and +1 damage. */
  lemma SeveralUpgradesInOneTick(p: Player)
    ensures UpgradeChoices({KeyOne, KeyTwo}) == [0, 1]
    ensures UpgradedAll(p, [0, 1]).stats.maxHealth == p.stats.maxHealth + 20
    ensures UpgradedAll(p, [0, 1]).stats.damage == p.stats.damage + 1
  {
    var keys := {KeyOne, KeyTwo};
    assert ChoicesFrom(keys, 1) == [0];
    assert ChoicesFrom(keys, 2) == [0, 1];
    assert UpgradeKeys[2] !in keys && UpgradeKeys[3] !in keys && UpgradeKeys[4] !in keys;
    assert ChoicesFrom(keys, 3) == [0, 1];
    assert ChoicesFrom(keys, 4) == [0, 1];
    UpgradedAllSnoc(p, [], 0);
    UpgradedAllSnoc(p, [0], 1);
  }

  class Game {
    var state: GameState
    var players: array<Player>
    const enemies: array<Enemy>
    const bullets: array<Bullet>
    const particles: array<Particle>
    const powerUps: array<PowerUp>
    const obstacles: array<Obstacle>
    var score: int
    var highScore: int
    var level: int
    var spawnTimer: real
    var spawnInterval: real
    var enemiesKilled: int
    var gameTime: real
    var bossActive: bool
    var bossSpawned: bool
    var upgradeChoice: int
    var coopMode: bool
    var menuSelection: int
    var settingsSelection: int
    var currentStage: StageType
    var settings: Prefs

    /** Pools have their fixed capacities, the settings and both menu
        cursors are in range, and every player satisfies the player
        invariant. */
    ghost predicate Valid()
      reads this`players, this`settings, this`menuSelection, this`settingsSelection, players
    {
      PoolsSized() && PrefsOk(settings) && CursorsOk() && PlayersOk()
    }

    /** Every pool has its fixed capacity. */
    predicate PoolsSized()
    {
      && enemies.Length == MaxEnemies && bullets.Length == MaxBullets
      && particles.Length == MaxParticles && powerUps.Length == MaxPowerUps
      && obstacles.Length == MaxObstacles
    }

    /** The menu cursors stay on their menus. */
    predicate CursorsOk()
      reads this`menuSelection, this`settingsSelection
    {
      0 <= menuSelection <= 3 && 0 <= settingsSelection <= 5
    }

    ghost predicate PlayersOk()
      reads this`players, players
    {
      forall k :: 0 <= k < players.Length ==> PlayerOk(players[k])
    }

    /** The counters a death changes, as one value. */
    function Counters(): Progress
      reads this
    {
      Progress(score, level, enemiesKilled, spawnInterval, bossActive, bossSpawned, state)
    }

    /** The stage after a step that may regenerate it: when `regenerate`
        holds, the archetype of the current level with its layout installed
        over `prior`; otherwise the stage and the obstacle pool as they were. */
    ghost predicate StageFollows(prior: seq<Obstacle>, priorStage: StageType, regenerate: bool, hazards: seq<Vec>)
      requires |hazards| == 10
      reads this`currentStage, this`level, obstacles
    {
      if regenerate then
        |Layout(Archetype(level), hazards)| <= |prior|
        && currentStage == Archetype(level) && obstacles[..] == Installed(prior, Layout(currentStage, hazards))
      else currentStage == priorStage && obstacles[..] == prior
    }

    /** The world right after a reset: counters at their starting values,
        the spawn interval set by the difficulty, the open field, and every
        pool empty. */
    ghost predicate Restarted()
      reads this, enemies, bullets, particles, powerUps, obstacles
    {
      CountersReset() && PoolsEmpty()
    }

    ghost predicate CountersReset()
      reads this
    {
      && score == 0 && level == 1 && spawnTimer == 0.0 && enemiesKilled == 0 && gameTime == 0.0
      && spawnInterval == StartInterval(settings.difficulty)
      && !bossActive && !bossSpawned && upgradeChoice == -1 && currentStage == Basic
    }

    ghost predicate PoolsEmpty()
      reads enemies, bullets, particles, powerUps, obstacles
    {
      && (forall i :: 0 <= i < enemies.Length ==> !enemies[i].active)
      && (forall i :: 0 <= i < bullets.Length ==> !bullets[i].active)
      && (forall i :: 0 <= i < particles.Length ==> !particles[i].active)
      && (forall i :: 0 <= i < powerUps.Length ==> !powerUps[i].active)
      && (forall i :: 0 <= i < obstacles.Length ==> !obstacles[i].active)
    }

    /** The boss flags agree with the enemy pool (`BossFlagsOk`): at most one
        boss is alive, `bossActive` holds exactly when one is, and then
        `bossSpawned` holds too. The second class invariant, kept by every
        method that touches the enemies or the flags; it stands apart from
        `Valid()` because the death handler passes through a state where the
        boss slot is off and the flags are not yet cleared. */
    ghost predicate BossOk()
      reads this`bossActive, this`bossSpawned, enemies
    {
      BossFlagsOk(enemies[..], bossActive, bossSpawned)
    }

    /** A boss already dead in slot `i` means no boss is marked alive: the
        case of a second strike on a boss that died earlier in the tick. */
    ghost predicate DeadBossCleared(i: nat)
      requires i < enemies.Length
      reads this`bossActive, enemies
    {
      enemies[i].isBoss && !enemies[i].active ==> !bossActive
    }

    /** Both boss conditions for enemy slot `i`, as the bullet loop carries
        them. */
    ghost predicate BossSettled(i: nat)
      requires i < enemies.Length
      reads this`bossActive, this`bossSpawned, enemies
    {
      BossOk() && DeadBossCleared(i)
    }

    /** Nothing of the run moves: the score, the high score, the level, the
        kill count, the clock, the spawn timer and interval, the boss flags,
        the stage and the co-op flag are as they were. */
    twostate predicate RunKept()
      reads this
    {
      && score == old(score) && highScore == old(highScore) && level == old(level)
      && enemiesKilled == old(enemiesKilled) && gameTime == old(gameTime)
      && spawnTimer == old(spawnTimer) && spawnInterval == old(spawnInterval)
      && bossActive == old(bossActive) && bossSpawned == old(bossSpawned)
      && currentStage == old(currentStage) && coopMode == old(coopMode)
    }

    /** A new game sits in the menu with empty pools and default settings;
        every counter, the high score among them, starts at Go's zero value. */
    constructor ()
      ensures Valid() && BossOk()
      ensures highScore == 0 && score == 0 && level == 0 && enemiesKilled == 0 && upgradeChoice == 0
      ensures spawnTimer == 0.0 && spawnInterval == 0.0 && gameTime == 0.0
      ensures !bossActive && !bossSpawned && !coopMode
      ensures state == Menu && players.Length == 0 && currentStage == Basic
      ensures menuSelection == 0 && settingsSelection == 0
      ensures settings == Prefs(true, true, 0.5, 0.3, 1)
      ensures forall i :: 0 <= i < MaxEnemies ==> !enemies[i].active
      ensures forall i :: 0 <= i < MaxBullets ==> !bullets[i].active
      ensures forall i :: 0 <= i < MaxParticles ==> !particles[i].active
      ensures forall i :: 0 <= i < MaxPowerUps ==> !powerUps[i].active
      ensures forall i :: 0 <= i < MaxObstacles ==> !obstacles[i].active
    {
      state := Menu;
      players := new Player[0];
      enemies := new Enemy[MaxEnemies](_ => EmptyEnemy);
      bullets := new Bullet[MaxBullets](_ => EmptyBullet);
      particles := new Particle[MaxParticles](_ => EmptyParticle);
      powerUps := new PowerUp[MaxPowerUps](_ => EmptyPowerUp);
      obstacles := new Obstacle[MaxObstacles](_ => EmptyObstacle);
      menuSelection := 0;
      settingsSelection := 0;
      currentStage := Basic;
      settings := Prefs(true, true, 0.5, 0.3, 1);
      score, highScore, level, enemiesKilled, upgradeChoice := 0, 0, 0, 0, 0;
      spawnTimer, spawnInterval, gameTime := 0.0, 0.0, 0.0;
      bossActive, bossSpawned, coopMode := false, false, false;
      new;
      BossFlagsIdle(enemies[..]);
    }

    // ------------------------------------------------------ start and reset

    /** Starts a run: one player at the origin, or two at (-3, 0) and (3, 0)
        in co-op, each created fresh, then the reset. */
    method StartGame(coop: bool)
      requires Valid()
      modifies this`coopMode, this`state, this`players,
               this`score, this`level, this`spawnTimer, this`spawnInterval, this`enemiesKilled,
               this`gameTime, this`bossActive, this`bossSpawned, this`upgradeChoice, this`currentStage,
               enemies, bullets, particles, powerUps, obstacles
      ensures Valid() && Restarted() && BossOk()
      ensures coopMode == coop && state == Playing
      ensures fresh(players) && players.Length == (if coop then 2 else 1)
      ensures forall k :: 0 <= k < players.Length ==>
        players[k] == ResetPlayer(NewPlayer(k, StartPos(coop, k)), StartPos(coop, k), settings.difficulty)
    {
      coopMode := coop;
      state := Playing;
      players := CreatePlayers(coop);
      ResetGame();
    }

    /** One freshly created player per seat: one alone, two in co-op. */
    static method CreatePlayers(coop: bool) returns (a: array<Player>)
      ensures fresh(a) && a.Length == (if coop then 2 else 1)
      ensures forall k :: 0 <= k < a.Length ==> a[k] == NewPlayer(k, StartPos(coop, k))
    {
      var n := if coop then 2 else 1;
      a := new Player[n](k requires 0 <= k < n => NewPlayer(k, StartPos(coop, k)));
    }

    /** Puts every player back at their start with base stats and the
        difficulty's health, resets the counters, empties every pool and
        regenerates the (level one, so open) stage. The difficulty's health
        override is folded into `ResetPlayer`. */
    method ResetGame()
      requires Valid()
      modifies this`score, this`level, this`spawnTimer, this`spawnInterval, this`enemiesKilled,
               this`gameTime, this`bossActive, this`bossSpawned, this`upgradeChoice, this`currentStage,
               players, enemies, bullets, particles, powerUps, obstacles
      ensures Valid() && Restarted() && BossOk()
      ensures forall k :: 0 <= k < players.Length ==>
        players[k] == ResetPlayer(old(players[k]), StartPos(coopMode, k), settings.difficulty)
      ensures forall i :: 0 <= i < MaxEnemies ==> enemies[i] == old(enemies[i]).(active := false)
      ensures forall i :: 0 <= i < MaxObstacles ==> obstacles[i] == old(obstacles[i]).(active := false)
    {
      ResetPlayers();
      ResetCounters();
      ClearPools();
      GenerateStage(NoHazards);
      assert forall i :: 0 <= i < MaxObstacles ==> obstacles[i] == old(obstacles[i]).(active := false);
      BossFlagsIdle(enemies[..]);
    }

    /** The counters back at their starting values. */
    method ResetCounters()
      modifies this`score, this`level, this`spawnTimer, this`spawnInterval, this`enemiesKilled,
               this`gameTime, this`bossActive, this`bossSpawned, this`upgradeChoice, this`currentStage
      ensures CountersReset()
    {
      score := 0;
      level := 1;
      spawnTimer := 0.0;
      spawnInterval := 1.5;
      enemiesKilled := 0;
      gameTime := 0.0;
      bossActive := false;
      bossSpawned := false;
      upgradeChoice := -1;
      currentStage := Basic;
      if settings.difficulty == 0 {
        spawnInterval := 2.0;
      } else if settings.difficulty == 2 {
        spawnInterval := 1.0;
      }
    }

    /** Every player back at their start, as `ResetPlayer` describes. */
    method ResetPlayers()
      requires Valid()
      modifies players
      ensures Valid()
      ensures forall k :: 0 <= k < players.Length ==>
        players[k] == ResetPlayer(old(players[k]), StartPos(coopMode, k), settings.difficulty)
    {
      for i := 0 to players.Length
        invariant Valid()
        invariant forall k :: 0 <= k < i ==>
          players[k] == ResetPlayer(old(players[k]), StartPos(coopMode, k), settings.difficulty)
        invariant forall k :: i <= k < players.Length ==> players[k] == old(players[k])
      {
        ResetPlayerSpec(players[i], StartPos(coopMode, i), settings.difficulty);
        players[i] := ResetPlayer(players[i], StartPos(coopMode, i), settings.difficulty);
      }
    }

    /** Switches off every slot of every pool, keeping the stale contents. */
    method ClearPools()
      modifies enemies, bullets, particles, powerUps, obstacles
      ensures forall i :: 0 <= i < enemies.Length ==> enemies[i] == old(enemies[i]).(active := false)
      ensures forall i :: 0 <= i < bullets.Length ==> bullets[i] == old(bullets[i]).(active := false)
      ensures forall i :: 0 <= i < particles.Length ==> particles[i] == old(particles[i]).(active := false)
      ensures forall i :: 0 <= i < powerUps.Length ==> powerUps[i] == old(powerUps[i]).(active := false)
      ensures forall i :: 0 <= i < obstacles.Length ==> obstacles[i] == old(obstacles[i]).(active := false)
    {
      forall i | 0 <= i < enemies.Length {
        enemies[i] := enemies[i].(active := false);
      }
      forall i | 0 <= i < bullets.Length {
        bullets[i] := bullets[i].(active := false);
      }
      forall i | 0 <= i < particles.Length {
        particles[i] := particles[i].(active := false);
      }
      forall i | 0 <= i < powerUps.Length {
        powerUps[i] := powerUps[i].(active := false);
      }
      forall i | 0 <= i < obstacles.Length {
        obstacles[i] := obstacles[i].(active := false);
      }
    }

    // ------------------------------------------------------------ screens

    /** The main menu: Up and Down move the cursor over its four entries;
        confirming starts a single or co-op run or opens the settings (the
        fourth entry, quit, ends the process and is not modelled). */
    method UpdateMenu(keys: set<Key>)
      requires Valid() && BossOk() && state == Menu
      modifies this`menuSelection, this`coopMode, this`state, this`players,
               this`score, this`level, this`spawnTimer, this`spawnInterval, this`enemiesKilled,
               this`gameTime, this`bossActive, this`bossSpawned, this`upgradeChoice, this`currentStage,
               enemies, bullets, particles, powerUps, obstacles
      ensures Valid() && BossOk()
      ensures menuSelection == Cycle(old(menuSelection), keys, 3)
      ensures Confirm(keys) && menuSelection <= 1 ==>
        (state == Playing && coopMode == (menuSelection == 1) && fresh(players)
         && players.Length == menuSelection + 1 && Restarted())
      ensures !(Confirm(keys) && menuSelection <= 1) ==>
        (state == (if Confirm(keys) && menuSelection == 2 then Settings else Menu)
         && RunKept() && upgradeChoice == old(upgradeChoice) && players == old(players)
         && unchanged(enemies, bullets, particles, powerUps, obstacles))
    {
      CycleSpec(menuSelection, keys, 3);
      menuSelection := Cycle(menuSelection, keys, 3);
      if Confirm(keys) {
        if menuSelection == 0 {
          StartGame(false);
        } else if menuSelection == 1 {
          StartGame(true);
        } else if menuSelection == 2 {
          state := Settings;
        }
      }
    }

    /** The settings screen: Up and Down move over six rows, Left or Right
        adjusts the selected row, and Escape, or confirming the sixth row,
        returns to the menu. */
    method UpdateSettings(keys: set<Key>)
      requires Valid() && state == Settings
      modifies this`settingsSelection, this`settings, this`state
      ensures Valid()
      ensures settingsSelection == Cycle(old(settingsSelection), keys, 5)
      ensures settings == (if KeyLeft in keys || KeyRight in keys
                           then Adjusted(old(settings), settingsSelection, KeyRight in keys)
                           else old(settings))
      ensures state == (if KeyEscape in keys || (settingsSelection == 5 && Confirm(keys)) then Menu else Settings)
    {
      CycleSpec(settingsSelection, keys, 5);
      settingsSelection := Cycle(settingsSelection, keys, 5);
      if KeyLeft in keys || KeyRight in keys {
        AdjustedSpec(settings, settingsSelection, KeyRight in keys);
        settings := Adjusted(settings, settingsSelection, KeyRight in keys);
      }
      if KeyEscape in keys || (settingsSelection == 5 && Confirm(keys)) {
        state := Menu;
      }
    }

    /** Applies upgrade `choice` to every player and resumes play. */
    method ApplyUpgrade(choice: int)
      requires Valid()
      modifies players, this`state, this`upgradeChoice
      ensures Valid()
      ensures forall k :: 0 <= k < players.Length ==> players[k] == Upgraded(old(players[k]), choice)
      ensures state == Playing && upgradeChoice == -1
    {
      for i := 0 to players.Length
        invariant Valid()
        invariant forall k :: 0 <= k < i ==> players[k] == Upgraded(old(players[k]), choice)
        invariant forall k :: i <= k < players.Length ==> players[k] == old(players[k])
      {
        PlayerOkKept(players[i], choice, 0.0, 0);
        players[i] := Upgraded(players[i], choice);
      }
      state := Playing;
      upgradeChoice := -1;
    }

    /** The upgrade screen: every held key among 1 to 5 applies its upgrade,
        in key order; with none held the screen stays. */
    method UpdateUpgrade(keys: set<Key>)
      requires Valid() && state == Upgrade
      modifies players, this`state, this`upgradeChoice
      ensures Valid()
      ensures forall k :: 0 <= k < players.Length ==>
        players[k] == UpgradedAll(old(players[k]), UpgradeChoices(keys))
      ensures state == (if UpgradeChoices(keys) == [] then Upgrade else Playing)
      ensures upgradeChoice == (if UpgradeChoices(keys) == [] then old(upgradeChoice) else -1)
    {
      ghost var start := players[..];
      for choice := 0 to 5
        invariant Valid()
        invariant forall k :: 0 <= k < players.Length ==>
          players[k] == UpgradedAll(start[k], ChoicesFrom(keys, choice))
        invariant state == (if ChoicesFrom(keys, choice) == [] then Upgrade else Playing)
        invariant upgradeChoice == (if ChoicesFrom(keys, choice) == [] then old(upgradeChoice) else -1)
      {
        UpgradeKey(keys, choice, start);
      }
    }

    /** The upgrade key for `choice`, applied on top of the earlier keys. */
    method UpgradeKey(keys: set<Key>, choice: nat, ghost start: seq<Player>)
      requires Valid() && choice < 5 && |start| == players.Length
      requires forall k :: 0 <= k < players.Length ==> players[k] == UpgradedAll(start[k], ChoicesFrom(keys, choice))
      modifies players, this`state, this`upgradeChoice
      ensures Valid()
      ensures forall k :: 0 <= k < players.Length ==> players[k] == UpgradedAll(start[k], ChoicesFrom(keys, choice + 1))
      ensures state == (if UpgradeKeys[choice] in keys then Playing else old(state))
      ensures UpgradeKeys[choice] in keys ==> upgradeChoice == -1
      ensures UpgradeKeys[choice] !in keys ==> upgradeChoice == old(upgradeChoice)
    {
      if UpgradeKeys[choice] in keys {
        ApplyUpgrade(choice);
        forall k | 0 <= k < players.Length
          ensures players[k] == UpgradedAll(start[k], ChoicesFrom(keys, choice + 1))
        {
          UpgradedAllSnoc(start[k], ChoicesFrom(keys, choice), choice);
        }
      } else {
        assert ChoicesFrom(keys, choice + 1) == ChoicesFrom(keys, choice);
      }
    }

    // ------------------------------------------------------------ stages

    /** Installs the walls of the maze in slots 0..8. */
    method GenerateMaze()
      requires obstacles.Length == MaxObstacles
      modifies obstacles
      ensures forall k :: 0 <= k < 9 ==> obstacles[k] == MazeLayout()[k]
      ensures forall k :: 9 <= k < MaxObstacles ==> obstacles[k] == old(obstacles[k])
    {
      var obsIndex := 0;
      var i := -20;
      while i <= 20
        invariant 0 <= obsIndex <= 5 && i == -20 + 10 * obsIndex
        invariant forall k :: 0 <= k < obsIndex ==> obstacles[k] == MazeLayout()[k]
        invariant forall k :: obsIndex <= k < MaxObstacles ==> obstacles[k] == old(obstacles[k])
      {
        obstacles[obsIndex] := WallAt(i as real, 0.0, 2.0, 15.0);
        obsIndex := obsIndex + 1;
        i := i + 10;
      }
      i := -15;
      while i <= 15
        invariant 5 <= obsIndex <= 9 && i == -15 + 10 * (obsIndex - 5)
        invariant forall k :: 0 <= k < obsIndex ==> obstacles[k] == MazeLayout()[k]
        invariant forall k :: obsIndex <= k < MaxObstacles ==> obstacles[k] == old(obstacles[k])
      {
        obstacles[obsIndex] := WallAt(0.0, i as real, 15.0, 2.0);
        obsIndex := obsIndex + 1;
        i := i + 10;
      }
    }

    /** Installs ten hazard zones at the drawn points in slots 0..9. */
    method GenerateHazards(hazards: seq<Vec>)
      requires obstacles.Length == MaxObstacles && |hazards| == 10
      modifies obstacles
      ensures forall k :: 0 <= k < 10 ==> obstacles[k] == HazardLayout(hazards)[k]
      ensures forall k :: 10 <= k < MaxObstacles ==> obstacles[k] == old(obstacles[k])
    {
      var obsIndex := 0;
      var i := 0;
      while i < 10 && obsIndex < MaxObstacles
        invariant 0 <= i <= 10 && obsIndex == i
        invariant forall k :: 0 <= k < i ==> obstacles[k] == HazardLayout(hazards)[k]
        invariant forall k :: i <= k < MaxObstacles ==> obstacles[k] == old(obstacles[k])
      {
        obstacles[obsIndex] := Obstacle(hazards[i], Vec(3.0, 3.0), true, HazardZone);
        obsIndex := obsIndex + 1;
        i := i + 1;
      }
    }

    /** Installs the four arena walls in slots 0..3. */
    method GenerateArena()
      requires obstacles.Length == MaxObstacles
      modifies obstacles
      ensures forall k :: 0 <= k < 4 ==> obstacles[k] == ArenaLayout()[k]
      ensures forall k :: 4 <= k < MaxObstacles ==> obstacles[k] == old(obstacles[k])
    {
      var walls := ArenaLayout();
      var obsIndex := 0;
      for w := 0 to |walls|
        invariant obsIndex == w
        invariant forall k :: 0 <= k < w ==> obstacles[k] == walls[k]
        invariant forall k :: w <= k < MaxObstacles ==> obstacles[k] == old(obstacles[k])
      {
        obstacles[obsIndex] := walls[w];
        obsIndex := obsIndex + 1;
      }
    }

    /** Picks the archetype from the level and installs its layout over a
        cleared obstacle pool. */
    method GenerateStage(hazards: seq<Vec>)
      requires Valid() && |hazards| == 10
      modifies this`currentStage, obstacles
      ensures Valid()
      ensures currentStage == Archetype(level)
      ensures obstacles[..] == Installed(old(obstacles[..]), Layout(currentStage, hazards))
    {
      forall i | 0 <= i < obstacles.Length {
        obstacles[i] := obstacles[i].(active := false);
      }
      currentStage := Archetype(level);
      match currentStage
      case Maze => GenerateMaze();
      case Hazard => GenerateHazards(hazards);
      case Arena => GenerateArena();
      case Basic =>
      var layout := Layout(currentStage, hazards);
      assert forall i :: 0 <= i < MaxObstacles ==>
        obstacles[i] == Installed(old(obstacles[..]), layout)[i];
    }

    /** The box test against every active obstacle. */
    method CheckObstacleCollision(pos: Vec, radius: real) returns (hit: bool)
      ensures hit <==> Blocked(obstacles[..], pos, radius)
    {
      for i := 0 to obstacles.Length
        invariant forall k :: 0 <= k < i ==> !(obstacles[k].active && Overlaps(obstacles[k], pos, radius))
      {
        if !obstacles[i].active {
          continue;
        }
        var o := obstacles[i];
        if pos.x + radius > o.pos.x - o.size.x / 2.0
          && pos.x - radius < o.pos.x + o.size.x / 2.0
          && pos.z + radius > o.pos.z - o.size.z / 2.0
          && pos.z - radius < o.pos.z + o.size.z / 2.0
        {
          assert obstacles[..][i] == o;
          return true;
        }
      }
      return false;
    }

    /** Pulls player `k` back inside the stage's square, `margin` from its edge. */
    method ClampPlayerToStageBounds(k: nat, margin: real)
      requires Valid() && k < players.Length
      modifies players
      ensures Valid()
      ensures players[..] == old(players[..])[k := old(players[k]).(pos := ClampToStage(old(players[k].pos), currentStage, margin))]
    {
      var half := StageHalf(currentStage) - margin;
      var p := players[k].pos;
      if p.x < -half {
        p := p.(x := -half);
      }
      if p.x > half {
        p := p.(x := half);
      }
      if p.z < -half {
        p := p.(z := -half);
      }
      if p.z > half {
        p := p.(z := half);
      }
      players[k] := players[k].(pos := p);
    }

    // ------------------------------------------------------------ spawners

    /** Asks for `count` particles at `pos`: at most 15 are placed, each in
        the first free particle slot. */
    method CreateExplosion(pos: Vec, count: int)
      modifies particles
      ensures particles[..] == PlaceAll(old(particles[..]), Burst(pos, count), ParticleActive)
    {
      var n := BurstSize(count);
      for j := 0 to n
        invariant particles[..] == PlaceAll(old(particles[..]), Repeat(Particle(pos, true), j), ParticleActive)
      {
        var _ := Claim(particles, Particle(pos, true), ParticleActive);
        assert Repeat(Particle(pos, true), j + 1)[..j] == Repeat(Particle(pos, true), j);
      }
    }

    /** A burst as seen by the handlers that leave one behind: it may only
        fill free slots, so every live particle stays as it was. */
    method Sparks(pos: Vec, count: int)
      modifies particles
      ensures forall j :: 0 <= j < particles.Length && old(particles[j]).active ==> particles[j] == old(particles[j])
    {
      CreateExplosion(pos, count);
      BurstSpec(old(particles[..]), pos, count);
    }

    /** Drops a power-up of the drawn kind, if the roll allowed one, into
        the first free power-up slot. */
    method SpawnPowerUp(pos: Vec, drop: Option<int>)
      modifies powerUps
      ensures powerUps[..] == DropAt(old(powerUps[..]), pos, drop)
    {
      if drop.None? {
        return;
      }
      var _ := Claim(powerUps, PowerUp(pos, true, drop.value), PowerUpActive);
    }

    /** Puts the boss into the first free enemy slot; the boss flags are set
        only when a slot was found. */
    method SpawnBoss(at: Vec)
      requires Valid()
      modifies enemies, this`bossActive, this`bossSpawned
      ensures Valid()
      ensures enemies[..] == Place(old(enemies[..]), NewBoss(at, level), EnemyActive)
      ensures var placed := FirstFree(old(enemies[..]), EnemyActive).Some?;
        bossActive == (old(bossActive) || placed) && bossSpawned == (old(bossSpawned) || placed)
    {
      var slot := Claim(enemies, NewBoss(at, level), EnemyActive);
      if slot.Some? {
        bossActive := true;
        bossSpawned := true;
      }
    }

    /** One regular spawn attempt: each free slot draws its own candidate,
        a blocked candidate passes the attempt on to the next free slot. */
    method SpawnEnemy(draws: seq<SpawnDraw>)
      requires Valid() && |draws| == MaxEnemies
      modifies enemies
      ensures enemies[..] == SpawnOne(old(enemies[..]), obstacles[..], draws, level)
    {
      for i := 0 to enemies.Length
        invariant enemies[..] == old(enemies[..])
        invariant forall j :: 0 <= j < i ==> enemies[j].active || Blocked(obstacles[..], draws[j].pos, 1.0)
      {
        if !enemies[i].active {
          var blocked := CheckObstacleCollision(draws[i].pos, 1.0);
          if !blocked {
            assert SpawnSlot(old(enemies[..]), obstacles[..], draws) == Some(i);
            enemies[i] := NewEnemy(draws[i], level);
            return;
          }
        }
      }
    }

    /** Fires a bullet for player `k` unless the fire interval has not passed
        since their last shot; the shot time is recorded only when a bullet
        slot was free. */
    method ShootBullet(k: nat, dir: Vec, critRoll: real)
      requires Valid() && k < players.Length
      modifies bullets, players
      ensures Valid()
      ensures var p := old(players[k]);
        if gameTime - p.lastShot < p.stats.fireRate then
          bullets[..] == old(bullets[..]) && players[..] == old(players[..])
        else
          bullets[..] == Place(old(bullets[..]), Shot(p, dir, critRoll), BulletActive)
          && players[..] == old(players[..])[k := if FirstFree(old(bullets[..]), BulletActive).Some?
                                                  then p.(lastShot := gameTime) else p]
    {
      var p := players[k];
      if gameTime - p.lastShot < p.stats.fireRate {
        return;
      }
      var slot := Claim(bullets, Shot(p, dir, critRoll), BulletActive);
      if slot.Some? {
        players[k] := p.(lastShot := gameTime);
      }
    }

    // ------------------------------------------------------------ deaths

    /** The death handler for enemy slot `index`: the slot goes inactive,
        the counters and the stage move as `RecordKill` says, and the death
        leaves a burst (a larger one first for the boss) and maybe a
        power-up. The bursts and the drop touch only the particle and
        power-up pools, which the counter updates never read, so they are
        issued around the bookkeeping rather than between its steps. */
    method KillEnemy(index: nat, hazards: seq<Vec>, drop: Option<int>)
      requires Valid() && index < MaxEnemies && |hazards| == 10
      requires BossOk() && DeadBossCleared(index)
      modifies this`score, this`level, this`enemiesKilled, this`spawnInterval, this`bossActive,
               this`bossSpawned, this`state, this`currentStage, enemies, particles, powerUps, obstacles
      ensures Valid() && BossOk()
      ensures enemies[..] == old(enemies[..])[index := old(enemies[index]).(active := false)]
      ensures Counters() == AfterKill(old(Counters()), old(enemies[index].isBoss))
      ensures StageFollows(old(obstacles[..]), old(currentStage), RegeneratesOnKill(old(Counters()), old(enemies[index].isBoss)), hazards)
      ensures powerUps[..] == DropAt(old(powerUps[..]), old(enemies[index].pos), drop)
    {
      KillKeepsBossFlags(enemies[..], index, bossActive, bossSpawned);
      enemies[index] := enemies[index].(active := false);
      var e := enemies[index];
      if e.isBoss {
        Sparks(e.pos, 50);
      }
      RecordKill(e.isBoss, hazards);
      KillBossFlags(old(Counters()), e.isBoss);
      Sparks(e.pos, 15);
      SpawnPowerUp(e.pos, drop);
    }

    /** The death handler as the damage loops see it: the slot goes
        inactive, the death counts once, and only the upgrade screen can
        replace the state. */
    method Kill(index: nat, hazards: seq<Vec>, drop: Option<int>)
      requires Valid() && index < MaxEnemies && |hazards| == 10
      requires BossOk() && DeadBossCleared(index)
      modifies this`score, this`level, this`enemiesKilled, this`spawnInterval, this`bossActive,
               this`bossSpawned, this`state, this`currentStage, enemies, particles, powerUps, obstacles
      ensures Valid() && BossOk()
      ensures old(enemies[index].isBoss) ==> !bossActive
      ensures enemies[index] == old(enemies[index]).(active := false)
      ensures forall r :: 0 <= r < MaxEnemies && r != index ==> enemies[r] == old(enemies[r])
      ensures enemiesKilled == old(enemiesKilled) + 1
      ensures state == old(state) || state == Upgrade
    {
      ghost var before := Counters();
      ghost var isBoss := enemies[index].isBoss;
      KillEnemy(index, hazards, drop);
      KillScores(before, isBoss);
      KillState(before, isBoss);
      KillBossFlags(before, isBoss);
    }

    /** The bookkeeping of one death, in the handler's order: a boss scores
        500, clears both boss flags and levels up; any other enemy scores ten
        times the level; the kill count rises; and every 20th regular kill
        levels up too, unless the level is a multiple of 10, recomputing the
        spawn interval. */
    method RecordKill(isBoss: bool, hazards: seq<Vec>)
      requires Valid() && |hazards| == 10
      modifies this`score, this`level, this`enemiesKilled, this`spawnInterval, this`bossActive,
               this`bossSpawned, this`state, this`currentStage, obstacles
      ensures Valid()
      ensures Counters() == AfterKill(old(Counters()), isBoss)
      ensures StageFollows(old(obstacles[..]), old(currentStage), RegeneratesOnKill(old(Counters()), isBoss), hazards)
    {
      if isBoss {
        RecordBossKill(hazards);
      } else {
        RecordRegularKill(hazards);
      }
    }

    /** A boss death: +500, both boss flags cleared, one level up. */
    method RecordBossKill(hazards: seq<Vec>)
      requires Valid() && |hazards| == 10
      modifies this`score, this`level, this`enemiesKilled, this`bossActive, this`bossSpawned,
               this`state, this`currentStage, obstacles
      ensures Valid()
      ensures Counters() == AfterKill(old(Counters()), true)
      ensures StageFollows(old(obstacles[..]), old(currentStage), RegeneratesOnKill(old(Counters()), true), hazards)
    {
      score := score + 500;
      bossActive := false;
      bossSpawned := false;
      enemiesKilled := enemiesKilled + 1;
      AdvanceLevel(hazards);
    }

    /** A regular death: ten times the level, and a level-up with a new spawn
        interval on every 20th kill unless the level is a multiple of 10. */
    method RecordRegularKill(hazards: seq<Vec>)
      requires Valid() && |hazards| == 10
      modifies this`score, this`level, this`enemiesKilled, this`spawnInterval,
               this`state, this`currentStage, obstacles
      ensures Valid()
      ensures Counters() == AfterKill(old(Counters()), false)
      ensures StageFollows(old(obstacles[..]), old(currentStage), RegeneratesOnKill(old(Counters()), false), hazards)
    {
      if CountLevelUp(Counters(), false) {
        CountedLevelUp(hazards);
      } else {
        score := score + 10 * level;
        enemiesKilled := enemiesKilled + 1;
      }
    }

    /** A regular death that completes a run of 20 kills: the score and the
        count, then the level-up with its new spawn interval. */
    method CountedLevelUp(hazards: seq<Vec>)
      requires Valid() && |hazards| == 10 && CountLevelUp(Counters(), false)
      modifies this`score, this`level, this`enemiesKilled, this`spawnInterval,
               this`state, this`currentStage, obstacles
      ensures Valid()
      ensures Counters() == AfterKill(old(Counters()), false)
      ensures StageFollows(old(obstacles[..]), old(currentStage), Rem(level, StageInterval) == 1, hazards)
    {
      ghost var before := Counters();
      ghost var next := before.level + 1;
      assert AfterKill(before, false)
          == Progress(before.score + 10 * before.level, next, before.killed + 1, IntervalForLevel(next),
                      before.bossActive, before.bossSpawned, if UpgradeGate(next) then Upgrade else before.state);
      score := score + 10 * level;
      enemiesKilled := enemiesKilled + 1;
      spawnInterval := IntervalForLevel(level + 1);
      AdvanceLevel(hazards);
    }

    /** The level-up step shared by both kinds of level-up: the next level,
        a new stage when it opens a stage interval, and the upgrade screen
        when the gate is met. */
    method AdvanceLevel(hazards: seq<Vec>)
      requires Valid() && |hazards| == 10
      modifies this`level, this`currentStage, this`state, obstacles
      ensures Valid()
      ensures level == old(level) + 1
      ensures state == (if UpgradeGate(level) then Upgrade else old(state))
      ensures StageFollows(old(obstacles[..]), old(currentStage), Rem(level, StageInterval) == 1, hazards)
    {
      level := level + 1;
      if Rem(level, StageInterval) == 1 {
        GenerateStage(hazards);
      }
      if Rem(level, 3) == 1 && level > 1 {
        state := Upgrade;
      }
    }

    // ------------------------------------------------------------ skills

    /** Skill `s` of player `k`: nothing happens unless it is ready; then its
        effect and the start of its cooldown. */
    method UseSkill(k: nat, s: nat, radial: seq<Vec>, hazards: seq<Vec>, drops: seq<Option<int>>)
      requires Valid() && BossOk() && k < players.Length && s < 3
      requires |radial| == 12 && |hazards| == 10 && |drops| == MaxEnemies
      modifies players, enemies, bullets, particles, powerUps, obstacles,
               this`score, this`level, this`enemiesKilled, this`spawnInterval, this`bossActive,
               this`bossSpawned, this`state, this`currentStage
      ensures Valid() && BossOk()
      ensures !old(players[k].skills[s].ready) ==>
        (players[..] == old(players[..]) && enemies[..] == old(enemies[..])
         && bullets[..] == old(bullets[..]) && Counters() == old(Counters())
         && unchanged(particles, powerUps, obstacles) && currentStage == old(currentStage))
      ensures old(players[k].skills[s].ready) ==>
        players[k].skills == old(players[k].skills)[s := Activated(old(players[k].skills[s]))]
      ensures forall q :: 0 <= q < players.Length && q != k ==> players[q] == old(players[q])
      ensures old(players[k].skills[s].ready) && s == 0 ==>
        ((forall j :: 0 <= j < MaxEnemies ==>
            enemies[j] == Explode(old(enemies[j]), old(players[k].pos), old(players[k].stats.damage)))
         && enemiesKilled == old(enemiesKilled)
              + ExplosionDeaths(old(enemies[..]), old(players[k].pos), old(players[k].stats.damage))
         && bullets[..] == old(bullets[..])
         && players[k] == old(players[k]).(skills := players[k].skills))
      ensures old(players[k].skills[s].ready) && s == 1 ==>
        (bullets[..] == PlaceAll(old(bullets[..]), RadialVolley(old(players[k]), radial), BulletActive)
         && enemies[..] == old(enemies[..]) && Counters() == old(Counters())
         && unchanged(particles, powerUps, obstacles) && currentStage == old(currentStage)
         && players[k] == old(players[k]).(skills := players[k].skills))
      ensures old(players[k].skills[s].ready) && s == 2 ==>
        (players[k] == Shielded(old(players[k])).(skills := players[k].skills)
         && enemies[..] == old(enemies[..]) && bullets[..] == old(bullets[..])
         && Counters() == old(Counters())
         && unchanged(powerUps, obstacles) && currentStage == old(currentStage))
      ensures players[k].pos == old(players[k].pos) && players[k].stats.speed == old(players[k].stats.speed)
      ensures state == old(state) || state == Upgrade
    {
      if !players[k].skills[s].ready {
        return;
      }
      if s == 0 {
        CastExplosion(k, hazards, drops);
      } else if s == 1 {
        CastRadialShot(k, radial);
      } else {
        CastEnergyShield(k);
      }
    }

    /** The explosion skill of player `k`, then its cooldown. */
    method CastExplosion(k: nat, hazards: seq<Vec>, drops: seq<Option<int>>)
      requires Valid() && BossOk() && k < players.Length && |hazards| == 10 && |drops| == MaxEnemies
      modifies players, enemies, particles, powerUps, obstacles,
               this`score, this`level, this`enemiesKilled, this`spawnInterval, this`bossActive,
               this`bossSpawned, this`state, this`currentStage
      ensures Valid() && BossOk()
      ensures players[..] == old(players[..])[k := Cooled(old(players[k]), 0)]
      ensures forall j :: 0 <= j < MaxEnemies ==>
        enemies[j] == Explode(old(enemies[j]), old(players[k].pos), old(players[k].stats.damage))
      ensures enemiesKilled == old(enemiesKilled)
        + ExplosionDeaths(old(enemies[..]), old(players[k].pos), old(players[k].stats.damage))
      ensures state == old(state) || state == Upgrade
    {
      Explosion(players[k], hazards, drops);
      StartCooldown(k, 0);
    }

    /** The radial shot of player `k`, then its cooldown. */
    method CastRadialShot(k: nat, radial: seq<Vec>)
      requires Valid() && k < players.Length && |radial| == 12
      modifies players, bullets
      ensures Valid()
      ensures players[..] == old(players[..])[k := Cooled(old(players[k]), 1)]
      ensures bullets[..] == PlaceAll(old(bullets[..]), RadialVolley(old(players[k]), radial), BulletActive)
    {
      RadialShot(players[k], radial);
      StartCooldown(k, 1);
    }

    /** The energy shield of player `k`, then its cooldown. */
    method CastEnergyShield(k: nat)
      requires Valid() && k < players.Length
      modifies players, particles
      ensures Valid()
      ensures players[..] == old(players[..])[k := Cooled(Shielded(old(players[k])), 2)]
    {
      EnergyShield(k);
      StartCooldown(k, 2);
    }

    /** Skill `s` of player `k` goes on cooldown. */
    method StartCooldown(k: nat, s: nat)
      requires Valid() && k < players.Length && s < 3
      modifies players
      ensures Valid()
      ensures players[..] == old(players[..])[k := Cooled(old(players[k]), s)]
    {
      PlayerOkKept(players[k], 0, 0.0, s);
      players[k] := Cooled(players[k], s);
    }

    /** The explosion skill cast by `p`: every active enemy within distance
        10 takes the explosion damage and gets a burst, and the death handler
        runs for each one left at or below zero health. */
    method Explosion(p: Player, hazards: seq<Vec>, drops: seq<Option<int>>)
      requires Valid() && BossOk() && |hazards| == 10 && |drops| == MaxEnemies
      modifies enemies, particles, powerUps, obstacles,
               this`score, this`level, this`enemiesKilled, this`spawnInterval, this`bossActive,
               this`bossSpawned, this`state, this`currentStage
      ensures Valid() && BossOk()
      ensures forall j :: 0 <= j < MaxEnemies ==> enemies[j] == Explode(old(enemies[j]), p.pos, p.stats.damage)
      ensures enemiesKilled == old(enemiesKilled) + ExplosionDeaths(old(enemies[..]), p.pos, p.stats.damage)
      ensures state == old(state) || state == Upgrade
    {
      var i := 0;
      while i < enemies.Length
        invariant 0 <= i <= enemies.Length
        invariant Valid() && BossOk()
        invariant forall j :: 0 <= j < i ==> enemies[j] == Explode(old(enemies[j]), p.pos, p.stats.damage)
        invariant forall j :: i <= j < MaxEnemies ==> enemies[j] == old(enemies[j])
        invariant enemiesKilled == old(enemiesKilled) + ExplosionDeaths(old(enemies[..])[..i], p.pos, p.stats.damage)
        invariant state == old(state) || state == Upgrade
      {
        assert old(enemies[..])[..i + 1][..i] == old(enemies[..])[..i];
        BlastEnemy(i, p, hazards, drops[i]);
        i := i + 1;
      }
      assert old(enemies[..])[..MaxEnemies] == old(enemies[..]);
      Sparks(p.pos, 30);
    }

    /** The explosion of `p` applied to enemy slot `i`. */
    method BlastEnemy(i: nat, p: Player, hazards: seq<Vec>, drop: Option<int>)
      requires Valid() && BossOk() && i < MaxEnemies && |hazards| == 10
      modifies enemies, particles, powerUps, obstacles,
               this`score, this`level, this`enemiesKilled, this`spawnInterval, this`bossActive,
               this`bossSpawned, this`state, this`currentStage
      ensures Valid() && BossOk()
      ensures enemies[..] == old(enemies[..])[i := Explode(old(enemies[i]), p.pos, p.stats.damage)]
      ensures enemiesKilled == old(enemiesKilled)
        + (if old(enemies[i]).active && !Explode(old(enemies[i]), p.pos, p.stats.damage).active then 1 else 0)
      ensures state == old(state) || state == Upgrade
    {
      if enemies[i].active {
        if Near(enemies[i].pos, p.pos, 10.0) {
          var damage := 3 * p.stats.damage;
          if enemies[i].isBoss {
            damage := 10 * p.stats.damage;
          }
          BossFlagsKept(enemies[..], i, enemies[i].(health := enemies[i].health - damage), bossActive, bossSpawned);
          enemies[i] := enemies[i].(health := enemies[i].health - damage);
          Sparks(enemies[i].pos, 10);
          if enemies[i].health <= 0 {
            Kill(i, hazards, drop);
          }
        }
      }
    }

    /** The radial shot cast by `p`: twelve bullets, one every 30 degrees,
        each into the first free bullet slot. */
    method RadialShot(p: Player, radial: seq<Vec>)
      requires |radial| == 12
      modifies bullets
      ensures bullets[..] == PlaceAll(old(bullets[..]), RadialVolley(p, radial), BulletActive)
    {
      var volley := RadialVolley(p, radial);
      for a := 0 to 12
        invariant bullets[..] == PlaceAll(old(bullets[..]), volley[..a], BulletActive)
      {
        var _ := Claim(bullets, volley[a], BulletActive);
        assert volley[..a + 1][..a] == volley[..a];
      }
      assert volley[..12] == volley;
    }

    /** The energy shield of player `k`: a heal of 30 capped at the maximum. */
    method EnergyShield(k: nat)
      requires Valid() && k < players.Length
      modifies players, particles
      ensures Valid()
      ensures players[..] == old(players[..])[k := Shielded(old(players[k]))]
    {
      PlayerOkKept(players[k], 0, 0.0, 0);
      players[k] := Shielded(players[k]);
      Sparks(players[k].pos, 20);
    }

    /** Counts down every skill of player `k`. */
    method TickCooldowns(k: nat, dt: real)
      requires Valid() && k < players.Length && dt >= 0.0
      modifies players
      ensures Valid()
      ensures players[..] == old(players[..])[k := old(players[k]).(skills := TickedSkills(old(players[k].skills), dt))]
    {
      PlayerOkKept(players[k], 0, dt, 0);
      var ss := players[k].skills;
      for j := 0 to |ss|
        invariant |ss| == |old(players[k].skills)|
        invariant forall q :: 0 <= q < j ==> ss[q] == TickSkill(old(players[k].skills[q]), dt)
        invariant forall q :: j <= q < |ss| ==> ss[q] == old(players[k].skills[q])
      {
        ss := ss[j := TickSkill(ss[j], dt)];
      }
      assert ss == TickedSkills(old(players[k].skills), dt);
      players[k] := players[k].(skills := ss);
    }

    /** Moves player `k` by `step` at their speed: the move is committed only
        when the new position is clear of obstacles (radius 0.9), and the
        result is clamped to the stage. */
    method MovePlayer(k: nat, step: Vec, dt: real)
      requires Valid() && k < players.Length
      modifies players
      ensures Valid()
      ensures var p := old(players[k]);
        var next := Stepped(p, step, dt);
        var moved := if Blocked(obstacles[..], next, 0.9) then p.pos else next;
        players[..] == old(players[..])[k := p.(pos := ClampToStage(moved, currentStage, 0.9))]
    {
      var p := players[k];
      var next := Stepped(p, step, dt);
      var hit := CheckObstacleCollision(next, 0.9);
      if !hit {
        players[k] := p.(pos := next);
      }
      ClampPlayerToStageBounds(k, 0.9);
    }

    // ------------------------------------------------------ world update

    /** Moves every live bullet one step; a bullet whose next position is
        blocked stops where it is and leaves a small burst. */
    method AdvanceBullets(dt: real)
      modifies bullets, particles
      ensures forall j :: 0 <= j < bullets.Length ==> bullets[j] == StepBullet(obstacles[..], old(bullets[j]), dt)
    {
      for i := 0 to bullets.Length
        invariant forall j :: 0 <= j < i ==> bullets[j] == StepBullet(obstacles[..], old(bullets[j]), dt)
        invariant forall j :: i <= j < bullets.Length ==> bullets[j] == old(bullets[j])
      {
        if bullets[i].active {
          var b := bullets[i];
          var next := BulletNext(b, dt);
          var hit := CheckObstacleCollision(next, 0.3);
          if hit {
            bullets[i] := b.(active := false);
            Sparks(b.pos, 5);
            continue;
          }
          bullets[i] := b.(pos := next);
          if Abs(bullets[i].pos.z) > 40.0 || Abs(bullets[i].pos.x) > 40.0 {
            bullets[i] := bullets[i].(active := false);
          }
        }
      }
    }

    /** The number of live regular enemies. */
    method CountRegular() returns (n: nat)
      ensures n == ActiveCount(enemies[..], Regular)
    {
      n := 0;
      for i := 0 to enemies.Length
        invariant n == ActiveCount(enemies[..i], Regular)
      {
        assert enemies[..i + 1][..i] == enemies[..i];
        if enemies[i].active && !enemies[i].isBoss {
          n := n + 1;
        }
      }
      assert enemies[..enemies.Length] == enemies[..];
    }

    /** The boss check: on every fifth level the boss is spawned, once. */
    method BossCheck(bossAt: Vec)
      requires Valid() && BossOk()
      modifies enemies, this`bossActive, this`bossSpawned
      ensures Valid() && BossOk()
      ensures ActiveCount(old(enemies[..]), LiveBoss) == 1 ==> enemies[..] == old(enemies[..])
      ensures var gate := Rem(level, 5) == 0 && !old(bossSpawned);
        var placed := gate && FirstFree(old(enemies[..]), EnemyActive).Some?;
        bossActive == (old(bossActive) || placed) && bossSpawned == (old(bossSpawned) || placed)
        && enemies[..] == (if gate then Place(old(enemies[..]), NewBoss(bossAt, level), EnemyActive)
                           else old(enemies[..]))
      ensures ActiveCount(enemies[..], Regular) == ActiveCount(old(enemies[..]), Regular)
    {
      if Rem(level, 5) == 0 && !bossSpawned {
        BossPlacedAlone(enemies[..], bossAt, level, bossActive, bossSpawned);
        SpawnBoss(bossAt);
        BossKeepsRegularCount(old(enemies[..]), bossAt, level);
      }
    }

    /** The spawn timer: frozen while the boss lives; otherwise it runs and,
        once past the interval, restarts from zero and allows one regular
        spawn attempt if fewer regular enemies than the cap are alive. */
    method SpawnTimerStep(dt: real, draws: seq<SpawnDraw>)
      requires Valid() && BossOk() && |draws| == MaxEnemies
      modifies enemies, this`spawnTimer
      ensures Valid() && BossOk()
      ensures
        if bossActive then
          spawnTimer == old(spawnTimer) && enemies[..] == old(enemies[..])
        else if old(spawnTimer) + dt > spawnInterval then
          spawnTimer == 0.0
          && enemies[..] == (if ActiveCount(old(enemies[..]), Regular) < SpawnCap(level)
                             then SpawnOne(old(enemies[..]), obstacles[..], draws, level) else old(enemies[..]))
        else
          spawnTimer == old(spawnTimer) + dt && enemies[..] == old(enemies[..])
      ensures ActiveCount(enemies[..], Regular) <= ActiveCount(old(enemies[..]), Regular)
           || ActiveCount(enemies[..], Regular) <= SpawnCap(level)
    {
      if !bossActive {
        spawnTimer := spawnTimer + dt;
        if spawnTimer > spawnInterval {
          spawnTimer := 0.0;
          var activeCount := CountRegular();
          if activeCount < SpawnCap(level) {
            SpawnEnemy(draws);
            SpawnOneSpec(old(enemies[..]), obstacles[..], draws, level);
            SpawnOneKeepsBosses(old(enemies[..]), obstacles[..], draws, level);
          }
        }
      }
    }

    /** Enemy `i` steps to `to` unless that position is blocked for its
        half-size; where `to` comes from (chasing or circling the nearest
        player) is decided outside the model. */
    method MoveEnemy(i: nat, to: Vec)
      requires Valid() && BossOk() && i < MaxEnemies
      modifies enemies
      ensures BossOk()
      ensures var e := old(enemies[i]);
        enemies[..] == old(enemies[..])[i := if Blocked(obstacles[..], to, e.size / 2.0) then e else e.(pos := to)]
    {
      var hit := CheckObstacleCollision(to, enemies[i].size / 2.0);
      if !hit {
        BossFlagsKept(enemies[..], i, enemies[i].(pos := to), bossActive, bossSpawned);
        enemies[i] := enemies[i].(pos := to);
      }
    }

    /** Contact between enemy `i` and every player: each player within reach
        loses the contact damage and gets a burst; a player left at or below
        zero ends the game and the score becomes the high score if it beats
        it. */
    method ResolveContact(i: nat)
      requires Valid() && i < MaxEnemies
      modifies players, particles, this`state, this`highScore
      ensures Valid()
      ensures forall q :: 0 <= q < players.Length ==> players[q] == Touched(old(players[q]), enemies[i])
      ensures var lethal := exists q :: 0 <= q < players.Length && LethalTouch(old(players[q]), enemies[i]);
        state == (if lethal then GameOver else old(state))
        && highScore == (if lethal && score > old(highScore) then score else old(highScore))
    {
      var e := enemies[i];
      for q := 0 to players.Length
        invariant Valid()
        invariant forall r :: 0 <= r < q ==> players[r] == Touched(old(players[r]), e)
        invariant forall r :: q <= r < players.Length ==> players[r] == old(players[r])
        invariant var lethal := exists r :: 0 <= r < q && LethalTouch(old(players[r]), e);
          state == (if lethal then GameOver else old(state))
          && highScore == (if lethal && score > old(highScore) then score else old(highScore))
      {
        TouchPlayer(q, e);
      }
    }

    /** Enemy `e` against player `q`: within reach, the player loses the
        contact damage and gets a burst, and a lethal touch ends the game
        and records the high score. */
    method TouchPlayer(q: nat, e: Enemy)
      requires Valid() && q < players.Length
      modifies players, particles, this`state, this`highScore
      ensures Valid()
      ensures players[..] == old(players[..])[q := Touched(old(players[q]), e)]
      ensures state == (if LethalTouch(old(players[q]), e) then GameOver else old(state))
      ensures highScore == (if LethalTouch(old(players[q]), e) && score > old(highScore) then score
                            else old(highScore))
    {
      var p := players[q];
      if !Near(p.pos, e.pos, ContactRadius(e)) {
        return;
      }
      var hurt := p.(health := p.health - ContactDamage(e));
      players[q] := hurt;
      Sparks(p.pos, 10);
      if hurt.health <= 0 {
        state := GameOver;
        if score > highScore {
          highScore := score;
        }
      }
    }

    /** One bullet against enemy `i`: a strike costs the bullet, takes its
        damage off the enemy's health and leaves a burst, and the death
        handler runs when the health is then at or below zero, whether or
        not the enemy had already died this tick. */
    method BulletHit(i: nat, j: nat, hazards: seq<Vec>, drop: Option<int>)
      requires Valid() && i < MaxEnemies && j < MaxBullets && |hazards| == 10
      requires BossSettled(i)
      modifies bullets, enemies, particles, powerUps, obstacles,
               this`score, this`level, this`enemiesKilled, this`spawnInterval, this`bossActive,
               this`bossSpawned, this`state, this`currentStage
      ensures Valid() && BossSettled(i)
      ensures bullets[j] == Spent(old(bullets[j]), old(enemies[i]))
      ensures forall r :: 0 <= r < MaxBullets && r != j ==> bullets[r] == old(bullets[r])
      ensures var b := old(bullets[j]); var e := old(enemies[i]);
        enemies[i] == (if Strikes(b, e) then Hit(e, b.damage) else e)
        && enemiesKilled == old(enemiesKilled) + (if Strikes(b, e) && e.health - b.damage <= 0 then 1 else 0)
      ensures forall r :: 0 <= r < MaxEnemies && r != i ==> enemies[r] == old(enemies[r])
      ensures state == old(state) || state == Upgrade
    {
      if bullets[j].active {
        var b := bullets[j];
        if Near(b.pos, enemies[i].pos, enemies[i].size) {
          BossFlagsKept(enemies[..], i, enemies[i].(health := enemies[i].health - b.damage), bossActive, bossSpawned);
          enemies[i] := enemies[i].(health := enemies[i].health - b.damage);
          bullets[j] := b.(active := false);
          Sparks(enemies[i].pos, 5);
          if enemies[i].health <= 0 {
            Kill(i, hazards, drop);
          }
        }
      }
    }

    /** Every bullet, in slot order, against enemy `i`. The enemy ends with
        the total damage of the bullets that struck it taken off, and the
        death handler has run once per strike that left it at or below zero
        health. */
    method ResolveBulletHits(i: nat, hazards: seq<Vec>, drop: Option<int>)
      requires Valid() && i < MaxEnemies && |hazards| == 10
      requires BossSettled(i)
      modifies bullets, enemies, particles, powerUps, obstacles,
               this`score, this`level, this`enemiesKilled, this`spawnInterval, this`bossActive,
               this`bossSpawned, this`state, this`currentStage
      ensures Valid() && BossOk()
      ensures forall j :: 0 <= j < MaxBullets ==> bullets[j] == Spent(old(bullets[j]), old(enemies[i]))
      ensures enemies[i] == Struck(old(enemies[i]), old(bullets[..]))
      ensures enemiesKilled == old(enemiesKilled) + Deaths(old(enemies[i].health), Hits(old(bullets[..]), old(enemies[i])))
      ensures forall j :: 0 <= j < MaxEnemies && j != i ==> enemies[j] == old(enemies[j])
      ensures state == old(state) || state == Upgrade
    {
      ghost var e := enemies[i];
      ghost var bs := bullets[..];
      for j := 0 to bullets.Length
        invariant Valid() && BossSettled(i)
        invariant forall r :: 0 <= r < j ==> bullets[r] == Spent(bs[r], e)
        invariant forall r :: j <= r < MaxBullets ==> bullets[r] == bs[r]
        invariant enemies[i] == Struck(e, bs[..j])
        invariant forall r :: 0 <= r < MaxEnemies && r != i ==> enemies[r] == old(enemies[r])
        invariant enemiesKilled == old(enemiesKilled) + Deaths(e.health, Hits(bs[..j], e))
        invariant state == old(state) || state == Upgrade
      {
        StruckStep(bs, j, e);
        BulletHit(i, j, hazards, drop);
      }
      assert bs[..MaxBullets] == bs;
    }

    /** The first player, in index order, within distance 2 of `at`. */
    method FirstPlayerNear(at: Vec) returns (r: Option<nat>)
      ensures r == FirstNear(players[..], at)
    {
      for q := 0 to players.Length
        invariant forall k :: 0 <= k < q ==> !Near(players[k].pos, at, 2.0)
      {
        if Near(players[q].pos, at, 2.0) {
          return Some(q);
        }
      }
      return None;
    }

    /** The pickup pass: each live power-up, in slot order, is consumed by the
        first player within reach, who gets its effect. */
    method Pickups()
      requires Valid()
      modifies powerUps, players, particles
      ensures Valid()
      ensures PickupState(powerUps[..], players[..])
           == PickupsUpTo(PickupState(old(powerUps[..]), old(players[..])), MaxPowerUps)
    {
      ghost var start := PickupState(powerUps[..], players[..]);
      for i := 0 to powerUps.Length
        invariant Valid()
        invariant PickupState(powerUps[..], players[..]) == PickupsUpTo(start, i)
      {
        if powerUps[i].active {
          var u := powerUps[i];
          var who := FirstPlayerNear(u.pos);
          if who.Some? {
            var q := who.value;
            powerUps[i] := u.(active := false);
            PlayerOkKept(players[q], u.kind, 0.0, 0);
            players[q] := PickupEffect(players[q], u.kind);
            Sparks(u.pos, 8);
          }
        }
      }
    }

    // ------------------------------------------------------------ the tick

    /** One player's part of a playing tick: cooldowns count down, the shots
        are tried in order, the pressed skills fire in skill order, and then
        the step is taken if clear and clamped to the stage. */
    method PlayerTurn(q: nat, dt: real, it: Intent, d: Draws)
      requires Valid() && BossOk() && q < players.Length && dt >= 0.0 && DrawsOk(d)
      modifies players, enemies, bullets, particles, powerUps, obstacles,
               this`score, this`level, this`enemiesKilled, this`spawnInterval, this`bossActive,
               this`bossSpawned, this`state, this`currentStage
      ensures Valid() && BossOk()
      ensures state == old(state) || state == Upgrade
      ensures forall r :: 0 <= r < players.Length && r != q ==> players[r] == old(players[r])
      ensures var next := Stepped(old(players[q]), it.step, dt);
        players[q].pos == ClampToStage(if Blocked(obstacles[..], next, 0.9) then old(players[q].pos) else next,
                                       currentStage, 0.9)
    {
      TickCooldowns(q, dt);
      FireShots(q, it.shots);
      ghost var armed := players[q];
      CastSkills(q, it.skills, d);
      assert players[q].pos == armed.pos == old(players[q].pos);
      assert players[q].stats.speed == armed.stats.speed == old(players[q].stats.speed);
      assert Stepped(players[q], it.step, dt) == Stepped(old(players[q]), it.step, dt);
      MovePlayer(q, it.step, dt);
    }

    /** Player `q` tries each shot in order; only bullets and the shot time
        change. */
    method FireShots(q: nat, shots: seq<Aim>)
      requires Valid() && q < players.Length
      modifies players, bullets
      ensures Valid()
      ensures forall r :: 0 <= r < players.Length && r != q ==> players[r] == old(players[r])
      ensures players[q] == old(players[q]).(lastShot := players[q].lastShot)
    {
      for a := 0 to |shots|
        invariant Valid()
        invariant forall r :: 0 <= r < players.Length && r != q ==> players[r] == old(players[r])
        invariant players[q] == old(players[q]).(lastShot := players[q].lastShot)
      {
        ShootBullet(q, shots[a].dir, shots[a].critRoll);
      }
    }

    /** Player `q` casts the pressed skills in skill order. */
    method CastSkills(q: nat, skills: set<nat>, d: Draws)
      requires Valid() && BossOk() && q < players.Length && DrawsOk(d)
      modifies players, enemies, bullets, particles, powerUps, obstacles,
               this`score, this`level, this`enemiesKilled, this`spawnInterval, this`bossActive,
               this`bossSpawned, this`state, this`currentStage
      ensures Valid() && BossOk()
      ensures state == old(state) || state == Upgrade
      ensures forall r :: 0 <= r < players.Length && r != q ==> players[r] == old(players[r])
      ensures players[q].pos == old(players[q].pos) && players[q].stats.speed == old(players[q].stats.speed)
    {
      if 0 in skills {
        UseSkill(q, 0, d.radial, d.hazards, d.drops);
      }
      if 1 in skills {
        UseSkill(q, 1, d.radial, d.hazards, d.drops);
      }
      if 2 in skills {
        UseSkill(q, 2, d.radial, d.hazards, d.drops);
      }
    }

    /** One tick of play: the clock, every player's turn, the bullets, the
        boss check and the spawn timer, then each live enemy in slot order
        steps, touches the players and meets the bullets, and finally the
        power-ups are picked up. Only the playing states can result, and the
        high score never falls. */
    method PlayingTick(dt: real, intents: seq<Intent>, d: Draws)
      requires Valid() && BossOk() && state == Playing && dt >= 0.0 && DrawsOk(d) && |intents| == players.Length
      modifies players, enemies, bullets, particles, powerUps, obstacles,
               this`gameTime, this`score, this`level, this`enemiesKilled, this`spawnInterval,
               this`spawnTimer, this`bossActive, this`bossSpawned, this`state, this`currentStage,
               this`highScore
      ensures Valid() && BossOk()
      ensures gameTime == old(gameTime) + dt
      ensures state == Playing || state == Upgrade || state == GameOver
      ensures highScore >= old(highScore)
    {
      gameTime := gameTime + dt;
      PlayerTurns(dt, intents, d);
      WorldTurn(dt, d);
    }

    /** The world's part of a playing tick, after the players: the bullets,
        the boss check and the spawn timer, the enemy pass, and the pickups. */
    method WorldTurn(dt: real, d: Draws)
      requires Valid() && BossOk() && DrawsOk(d)
      modifies players, enemies, bullets, particles, powerUps, obstacles,
               this`score, this`level, this`enemiesKilled, this`spawnInterval,
               this`spawnTimer, this`bossActive, this`bossSpawned, this`state, this`currentStage,
               this`highScore
      ensures Valid() && BossOk()
      ensures state == old(state) || state == Upgrade || state == GameOver
      ensures highScore >= old(highScore)
    {
      WorldStep(dt, d);
      EnemyPass(d);
      Pickups();
    }

    /** The bullets move, the boss check runs and the spawn timer ticks.
        Every bullet takes exactly one step, and the regular enemies grow
        past their count only while they stay under the level's cap. */
    method WorldStep(dt: real, d: Draws)
      requires Valid() && BossOk() && DrawsOk(d)
      modifies bullets, particles, enemies, this`bossActive, this`bossSpawned, this`spawnTimer
      ensures Valid() && BossOk()
      ensures forall j :: 0 <= j < bullets.Length ==> bullets[j] == StepBullet(obstacles[..], old(bullets[j]), dt)
      ensures ActiveCount(enemies[..], Regular) <= ActiveCount(old(enemies[..]), Regular)
           || ActiveCount(enemies[..], Regular) <= SpawnCap(level)
    {
      AdvanceBullets(dt);
      BossCheck(d.bossAt);
      SpawnTimerStep(dt, d.spawns);
    }

    /** Every player's turn, in index order. */
    method PlayerTurns(dt: real, intents: seq<Intent>, d: Draws)
      requires Valid() && BossOk() && dt >= 0.0 && DrawsOk(d) && |intents| == players.Length
      modifies players, enemies, bullets, particles, powerUps, obstacles,
               this`score, this`level, this`enemiesKilled, this`spawnInterval, this`bossActive,
               this`bossSpawned, this`state, this`currentStage
      ensures Valid() && BossOk()
      ensures state == old(state) || state == Upgrade
    {
      for q := 0 to players.Length
        invariant Valid() && BossOk()
        invariant state == old(state) || state == Upgrade
      {
        PlayerTurn(q, dt, intents[q], d);
      }
    }

    /** Each live enemy in slot order: it steps, touches the players and
        meets the bullets. */
    method EnemyPass(d: Draws)
      requires Valid() && BossOk() && DrawsOk(d)
      modifies players, enemies, bullets, particles, powerUps, obstacles,
               this`score, this`level, this`enemiesKilled, this`spawnInterval, this`bossActive,
               this`bossSpawned, this`state, this`currentStage, this`highScore
      ensures Valid() && BossOk()
      ensures state == old(state) || state == Upgrade || state == GameOver
      ensures highScore >= old(highScore)
    {
      for i := 0 to MaxEnemies
        invariant Valid() && BossOk()
        invariant state == old(state) || state == Upgrade || state == GameOver
        invariant highScore >= old(highScore)
      {
        if enemies[i].active {
          MoveEnemy(i, d.steer[i]);
          ResolveContact(i);
          ResolveBulletHits(i, d.hazards, d.drops[i]);
        }
      }
    }

    /** The game-over screen: R restarts the run, Escape goes back to the
        menu and wins over R. */
    method UpdateGameOver(keys: set<Key>)
      requires Valid() && BossOk() && state == GameOver
      modifies this`state, this`score, this`level, this`spawnTimer, this`spawnInterval,
               this`enemiesKilled, this`gameTime, this`bossActive, this`bossSpawned,
               this`upgradeChoice, this`currentStage,
               players, enemies, bullets, particles, powerUps, obstacles
      ensures Valid() && BossOk()
      ensures KeyR in keys ==> Restarted()
      ensures KeyR !in keys ==>
        RunKept() && upgradeChoice == old(upgradeChoice) && players == old(players)
        && unchanged(players, enemies, bullets, particles, powerUps, obstacles)
      ensures state == (if KeyEscape in keys then Menu else if KeyR in keys then Playing else GameOver)
    {
      if KeyR in keys {
        ResetGame();
        state := Playing;
      }
      if KeyEscape in keys {
        state := Menu;
      }
    }

    /** The pause screen: P resumes, Escape goes back to the menu and wins
        over P. */
    method UpdatePaused(keys: set<Key>)
      modifies this`state
      ensures state == (if KeyEscape in keys then Menu else if KeyP in keys then Playing else old(state))
    {
      if KeyP in keys {
        state := Playing;
      }
      if KeyEscape in keys {
        state := Menu;
      }
    }

    /** One frame of the state machine. The menu, the settings and the
        upgrade screen have their own handlers; game over restarts on R and
        leaves for the menu on Escape; pause resumes on P and leaves on
        Escape; while playing, P pauses and otherwise the world ticks. */
    method Update(dt: real, keys: set<Key>, intents: seq<Intent>, d: Draws)
      requires Valid() && BossOk() && dt >= 0.0 && DrawsOk(d) && |intents| == players.Length
      modifies this, players, enemies, bullets, particles, powerUps, obstacles
      ensures Valid() && BossOk()
      ensures Allowed(old(state), state)
      ensures highScore >= old(highScore)
      ensures old(state) == Playing && KeyP in keys ==>
        (state == Paused && RunKept() && upgradeChoice == old(upgradeChoice) && players == old(players)
         && unchanged(players, enemies, bullets, particles, powerUps, obstacles))
      ensures old(state) == Playing && KeyP !in keys ==> gameTime == old(gameTime) + dt
      ensures old(state) in {Settings, Paused} ==>
        (RunKept() && upgradeChoice == old(upgradeChoice) && players == old(players)
         && unchanged(players, enemies, bullets, particles, powerUps, obstacles))
      ensures old(state) == Upgrade ==>
        (RunKept() && players == old(players) && unchanged(enemies, bullets, particles, powerUps, obstacles))
      ensures old(state) == Upgrade ==>
        upgradeChoice == (if UpgradeChoices(keys) == [] then old(upgradeChoice) else -1)
      ensures old(state) == GameOver && KeyR !in keys ==>
        (RunKept() && upgradeChoice == old(upgradeChoice) && players == old(players)
         && unchanged(players, enemies, bullets, particles, powerUps, obstacles))
      ensures old(state) == GameOver && KeyR in keys ==> Restarted()
      ensures old(state) == GameOver ==>
        state == (if KeyEscape in keys then Menu else if KeyR in keys then Playing else GameOver)
      ensures old(state) == Paused ==>
        state == (if KeyEscape in keys then Menu else if KeyP in keys then Playing else Paused)
    {
      match state
      case Menu =>
        UpdateMenu(keys);
      case Settings =>
        UpdateSettings(keys);
      case GameOver =>
        UpdateGameOver(keys);
      case Upgrade =>
        UpdateUpgrade(keys);
      case Paused =>
        UpdatePaused(keys);
      case Playing =>
        UpdatePlaying(dt, keys, intents, d);
    }

    /** A frame while playing: P pauses with no other update that frame;
        otherwise the world ticks. */
    method UpdatePlaying(dt: real, keys: set<Key>, intents: seq<Intent>, d: Draws)
      requires Valid() && BossOk() && state == Playing && dt >= 0.0 && DrawsOk(d) && |intents| == players.Length
      modifies players, enemies, bullets, particles, powerUps, obstacles,
               this`gameTime, this`score, this`level, this`enemiesKilled, this`spawnInterval,
               this`spawnTimer, this`bossActive, this`bossSpawned, this`state, this`currentStage,
               this`highScore
      ensures Valid() && BossOk()
      ensures KeyP in keys ==>
        (state == Paused && RunKept() && upgradeChoice == old(upgradeChoice) && players == old(players)
         && unchanged(players, enemies, bullets, particles, powerUps, obstacles))
      ensures KeyP !in keys ==>
        gameTime == old(gameTime) + dt && (state == Playing || state == Upgrade || state == GameOver)
      ensures highScore >= old(highScore)
    {
      if KeyP in keys {
        state := Paused;
      } else {
        PlayingTick(dt, intents, d);
      }
    }
  }
}
