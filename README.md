# Arena shooter simulation core, in Dafny

This project models the simulation core of a top-down arena shooter written
in Go (`main.go`). One or two players move over a square field, fire bullets,
cast three skills on cooldowns, and fight waves of enemies and a boss on
every fifth level. Every ten levels the stage archetype changes: the open
field, a maze of walls, a field of hazard zones, or a walled arena.

The model keeps the game's own shape:

- **`Entities`**: the values the world is made of (players, skills, enemies,
  bullets, particles, power-ups, obstacles, the game state). It also holds
  Go's truncating `/` and `%` (`Quot`, `Rem`), because the stage formula
  depends on them.
- **`Pools`**: the fixed-capacity slot pools. Every spawner scans for the
  first inactive slot and overwrites it (`Claim`, specified by `FirstFree`
  and `Place`). A spawn into a full pool does nothing.
- **`Geometry`**: the obstacle box test, planar proximity, and the
  stage-bounds clamp.
- **`Stages`**: the archetype chosen by level, and the obstacle layout each
  archetype installs.
- **`Progression`**: what one enemy death does to score, level, kill count,
  spawn interval, boss flags and game state. It also holds the difficulty
  presets.
- **`Combat`**: the pure rules of skills, bullets, upgrades, pickups, contact
  damage and bullet hits.
- **`Spawning`**: the stats of a new enemy or boss, the spawn cap, and the
  slot a regular spawn lands in.
- **`Simulation`**: the `Game` class. Its fields are the Go struct's fields,
  and its pools are arrays updated in place. Its methods follow the Go
  methods one for one: the menus, the reset, stage generation, spawning,
  shooting, skills, the death handler, and the per-tick update.
  - `Valid()` is the class invariant: fixed pool sizes, settings in range,
    menu cursors on their menus, and every player with consistent skills and
    health at most the maximum.
  - `BossOk()` is the boss invariant: at most one live boss, `bossActive`
    exactly when one is alive, and `bossActive` only after `bossSpawned`.
    It is kept apart from `Valid()` because the death handler passes through
    a state where the boss slot is off but the flag is still up.
  - `RunKept()` says that none of the run's fields (score, high score,
    level, kill count, clock, spawn timer and interval, boss flags, stage,
    co-op flag) changed in a step.

Everything random, every key press and every direction computed with
trigonometry is a parameter. The random draws come in as values:
- spawn positions and speed/size rolls
- hazard points
- critical-hit rolls
- drop kinds
- the boss position

The twelve radial-shot directions are not random: they are fixed, one every
30 degrees. They come in as values only because they are computed with
cosine and sine.

The key presses come in as a `set<Key>`, plus one `Intent` per player
(movement step, shots, pressed skills).

## Model

| member | source | states |
|---|---|---|
| Entities.Quot | main.go:580 | Go's truncating division: `q * b` is the multiple of `b` next to `a` on the side of zero, so `q * b <= a < q * b + b` for a non-negative dividend and `q * b - b < a <= q * b` for a negative one |
| Entities.Rem | main.go:581 | Go's remainder: `a == Quot(a, b) * b + r`, in `[0, b)` for a non-negative dividend and in `(-b, 0]` for a negative one |
| Pools.FirstFree | main.go:742-743 | the scan's result is a free slot with every earlier slot active, and there is none exactly when every slot is active |
| Pools.ActiveCount | main.go:1349-1354 | the number of active slots never exceeds the pool size |
| Pools.ActiveCountFull | main.go:992-1000 | the active count equals the pool size exactly when every slot is active (the case in which a spawn silently does nothing) |
| Pools.ActiveCountZero | main.go:1349-1354 | the active count is zero exactly when no slot is active |
| Pools.ActiveCountUpdate | main.go:1349-1354 | overwriting one slot changes the active count by what leaves and what arrives |
| Pools.PlaceSpec | main.go:992-1000 | one spawn keeps every active slot as it was and raises the active count by one exactly when the pool had a free slot |
| Pools.PlaceAllSpec | main.go:966-984 | a run of `n` spawns activates exactly `min(n, free slots)` slots and never touches a slot active before it |
| Pools.Claim | main.go:992-1000 | the in-place scan returns `FirstFree` of the old pool and leaves the pool as `Place` describes |
| Geometry.OverlapsAsDistance | main.go:671-688 | the four strict box comparisons amount to `abs(dx) < r + sx/2` and `abs(dz) < r + sz/2` |
| Geometry.BlockedIgnoresInactive | main.go:672-675 | two pools that agree on their active obstacles block exactly the same points |
| Geometry.StageHalf | main.go:690-705 | the playable half-width lies between 18 (arena) and 30 (open field) |
| Geometry.ClampAxis | main.go:707-718 | the clamped coordinate lies in `[-half, half]`, is unchanged when already inside, and snaps to the nearer edge otherwise |
| Geometry.ClampIdempotent | main.go:707-718 | clamping a clamped coordinate changes nothing |
| Geometry.ClampToStage | main.go:690-719 | a clamped position lies within the stage's half-width less the margin on both axes |
| Stages.Archetype | main.go:579-581 | levels 1 to 10 are the open field |
| Stages.ArchetypePeriodic | main.go:579-581 | archetypes repeat every forty levels |
| Stages.ArchetypeBands | main.go:579-590 | levels 11-20 are the maze, 21-30 the hazard field, 31-40 the arena, and 41 is the open field again |
| Stages.MazeLayout | main.go:593-621 | the maze installs nine walls |
| Stages.MazeWalls | main.go:593-621 | the nine walls, spelled out: 2x15 at x = -20, -10, 0, 10, 20, and 15x2 at z = -15, -5, 5, 15 |
| Stages.HazardLayout | main.go:623-642 | ten active 3x3 hazard zones, one at each drawn point |
| Stages.Layout | main.go:583-590 | every layout fits the obstacle pool and consists of active obstacles only |
| Stages.InstalledActiveSlots | main.go:573-591 | after regeneration, slot `i` is active exactly when `i` is below 0, 9, 10 or 4 for the open field, maze, hazard field or arena |
| Stages.InstalledBlocksAsLayout | main.go:573-591 | the stale slots left after regeneration never block: the pool blocks exactly what its layout blocks |
| Stages.ArenaCornersOpen | main.go:644-669 | each arena wall blocks its midpoint, yet all four corners at (±18, ±18) are open, so the boundary is not closed |
| Stages.MazeBlocksOrigin | main.go:593-621 | the maze's centre wall covers the origin, where a single player starts |
| Progression.IntervalForLevel | main.go:949 | the spawn interval after a kill-count level-up lies in `[0.5, 1.5]` and reaches its floor of 0.5 from level 20 on |
| Progression.KillScores | main.go:919-945 | every death counts once, and scores 500 for a boss or ten times the level otherwise |
| Progression.KillLevel | main.go:919-959 | the level rises by one on a boss death or a kill-count level-up, and only the latter resets the spawn interval |
| Progression.KillBossFlags | main.go:922-927 | a boss death clears both boss flags, and any other death leaves them alone |
| Progression.KillState | main.go:935-958 | the state becomes Upgrade exactly when the level rose to a level above 1 that is 1 modulo 3; otherwise it is unchanged |
| Progression.CountLevelUpBlockedAtTens | main.go:947 | on every 20th kill the level rises exactly when the level before the kill is not a multiple of 10, so level 9 reaches 10 but 10 stays at 10 |
| Progression.BossKillScenarios | main.go:922-937 | the level-5 boss gives +500, level 6, cleared boss flags, no upgrade and no new stage; the level-10 boss gives level 11 with a new stage and no upgrade; the level-6 boss opens the upgrade screen |
| Progression.FirstKillScenario | main.go:938-943 | at level 1 the first regular death scores exactly 10, counts one kill and keeps the level |
| Progression.KillOverridesGameOver | main.go:935-937 | a boss death reaching an upgrade level overwrites GameOver with Upgrade |
| Progression.StartHealth | main.go:538-552 | starting maximum health is 150 on easy, 100 on normal and 75 on hard |
| Progression.StartInterval | main.go:538-552 | the starting spawn interval is 2.0 on easy, 1.5 on normal and 1.0 on hard |
| Progression.DifficultyOrdered | main.go:538-552 | harder settings start with strictly less health and a strictly shorter spawn interval |
| Combat.StartSkills | main.go:341-345 | three skills, all ready, each consistent |
| Combat.TickSkillSpec | main.go:1150-1158 | the countdown keeps the skill consistent and makes it ready exactly when it was ready or its cooldown was at most `dt` |
| Combat.ActivatedOk | main.go:915-916 | a used skill is consistent and not ready |
| Combat.Cooled | main.go:915-916 | only skill `s` of the player changes: it is not ready and its cooldown is its maximum; position, health, stats and identity are kept |
| Combat.CooldownRoundTrip | main.go:1150-1158 | after use, a skill is ready again exactly when the elapsed ticks sum to at least its maximum cooldown, and the remaining cooldown is the maximum less the elapsed time |
| Combat.ExplodeSpec | main.go:862-882 | an explosion leaves inactive or distant enemies alone; a live enemy within 10 loses three times the caster's damage (ten times for a boss) and goes out exactly when its health is no longer positive; position and boss flag never change |
| Combat.ShieldedSpec | main.go:908-912 | the shield heals 30 without exceeding the maximum and changes no stat |
| Combat.RadialVolley | main.go:886-905 | one live bullet per direction, each at the caster's position with the caster's plain damage and identity |
| Combat.Shot | main.go:831-848 | a fired bullet is live at the shooter's position with the shooter's identity, and deals triple damage exactly when the roll is below the critical chance |
| Combat.BurstSize | main.go:964 | a burst asks for at most 15 particles, and exactly `count` when `count` is between 0 and 15 |
| Combat.BurstSpec | main.go:962-985 | a burst activates exactly `min(count, 15, free slots)` particles and never overwrites a live one |
| Combat.UpgradedSpec | main.go:721-736 | an upgrade never moves the player or touches skills; choice 0 gives +20 maximum health and a full heal, 1 gives +1 damage, 2 gives +2 speed, 3 shortens the fire interval by 0.02 but not below 0.05, 4 adds 0.05 critical chance up to at most 0.5; each choice changes only its own stat, only choice 0 changes health, and any other choice changes nothing |
| Combat.UpgradedKeepsHealthBound | main.go:723-726 | an upgrade keeps health within the maximum |
| Combat.PickupEffectSpec | main.go:1528-1535 | a heal is capped at the maximum, a speed boost leaves speed at most 20, a fire-rate boost keeps the interval at least 0.05; each kind changes only its own field (health, speed, fire interval) and any other kind changes nothing |
| Combat.SpeedBoostCanSlow | main.go:1532 | a player upgraded to speed 22 is slowed to 20 by the speed pickup |
| Combat.FirstNear | main.go:1519-1540 | the pickup goes to the first player in index order within distance 2, and to nobody exactly when no player is that near |
| Combat.PickupsPreserve | main.go:1515-1543 | the pickup pass keeps every player's health within the maximum, never revives a power-up, and leaves each player's maximum health, position and skills alone |
| Combat.PickupGoesToFirstPlayer | main.go:1519-1540 | with two players in reach, only player 0 gets the effect, and the power-up is consumed |
| Combat.StepBulletSpec | main.go:1315-1337 | a bullet never becomes live by moving; one whose next position is blocked stops where it is and goes out; a surviving bullet lies within 40 on both axes; its damage and owner never change |
| Combat.ContactCanGoNegative | main.go:1455-1475 | a player at 10 health touched by a regular enemy drops to -10, and the touch is lethal |
| Combat.NewPlayer | main.go:331-380 | a new player is consistent, with health equal to a maximum of 100 |
| Combat.ResetPlayerSpec | main.go:498-552 | a reset keeps the player consistent: at the given start position with the same identity, full health at the difficulty's maximum, every skill ready with no cooldown and its maximum cooldown kept |
| Combat.PlayerOkKept | main.go:721-736 | upgrades, pickups, the shield, the cooldown tick and skill activation all keep the player invariant |
| Combat.Hits | main.go:1480-1496 | there are no more strike damages than bullets, and they are positive when every bullet's damage is |
| Combat.DeathsSpec | main.go:1487-1493 | with positive damages, the death handler runs at least once exactly when the total damage reaches the enemy's health |
| Combat.StruckSurvives | main.go:1480-1496 | a live enemy survives the bullet pass exactly when the total damage of the striking bullets stays below its health; its position and size are unchanged |
| Combat.DoubleKill | main.go:1480-1496 | two one-damage bullets on a one-health enemy in the same tick run the death handler twice |
| Combat.ExplosionDeaths | main.go:862-882 | an explosion kills at most as many enemies as the pool holds |
| Combat.ExplosionDeathsSpec | main.go:862-882 | the explosion kills nobody exactly when no live enemy within reach has health at most the blast damage, and it never kills more than the live enemies |
| Spawning.EnemyHealth | main.go:809 | a regular enemy has `1 + (level-1)/3` health, at least 1 |
| Spawning.EnemyHealthGrows | main.go:809 | enemy health never falls as the level rises; levels 1-3 give 1 and levels 4-6 give 2 |
| Spawning.NewEnemy | main.go:799-813 | a new regular enemy is live and not the boss, at full health; its speed lies in `[3 + level/2, 5 + level/2)` and its size in `[1, 1.5)` |
| Spawning.NewBoss | main.go:747-761 | the boss is live with health `50 + 10*level` and size 4 |
| Spawning.SpawnSlot | main.go:777-793 | a spawn lands in the first free slot whose candidate is clear; every earlier slot is active or blocked; there is no slot exactly when every slot is |
| Spawning.SpawnOneSpec | main.go:777-823 | a spawn attempt touches no live slot and adds one regular enemy exactly when some free slot has a clear candidate |
| Spawning.BossKeepsRegularCount | main.go:741-775 | placing the boss does not change the number of regular enemies, the count the spawn cap looks at |
| Spawning.BossFlagsIdle | main.go:533-534 | a pool with no live enemy satisfies the boss invariant with both flags down |
| Spawning.BossPlacedAlone | main.go:741-775 | when no boss has been spawned the pool holds no live boss, and placing one leaves exactly one live boss, raising both flags, exactly when a free slot was found |
| Spawning.SpawnOneKeepsBosses | main.go:777-823 | a regular spawn attempt never changes the number of live bosses |
| Spawning.KillKeepsBossFlags | main.go:919-927 | switching off a slot keeps the boss invariant when the boss's death drops both flags |
| Spawning.BossFlagsKept | main.go:1396-1495 | moving or damaging an enemy without changing whether it is live or the boss keeps the boss invariant |
| Spawning.BlockedCandidateFallsThrough | main.go:790-792 | a blocked candidate in the first free slot does not cancel the spawn: it lands in the next free slot with a clear candidate |
| Simulation.CycleSpec | main.go:1003-1015 | the menu cursor stays on the menu, wraps at both ends, and is unchanged when both arrows or neither are pressed |
| Simulation.AdjustedSpec | main.go:1045-1079 | left or right keeps the settings in range; on the difficulty row Right raises it by one up to hard and Left lowers it by one down to easy, so Right then Left is a round trip below hard; rows outside 0-4 change nothing |
| Simulation.ChoicesFromSpec | main.go:1110-1125 | the applied choices are exactly those whose keys are held, each once, in increasing order |
| Simulation.NoChoices | main.go:1110-1126 | the upgrade screen stays up exactly when none of the keys 1 to 5 is held |
| Simulation.SeveralUpgradesInOneTick | main.go:1110-1126 | holding keys 1 and 2 together applies both upgrades in one tick: +20 maximum health and +1 damage |
| Simulation.Game.constructor | main.go:206-224 | a new game is valid and sits in the menu with no players, empty pools, the open field and the default settings, and the boss invariant holds; score, high score, level, kill count, timers, boss flags and co-op flag start at Go's zero values |
| Simulation.Game.StartGame | main.go:482-496 | a run starts valid and restarted, with the boss invariant: state Playing, one player or two, each a fresh player reset at their start position |
| Simulation.Game.CreatePlayers | main.go:486-493 | a fresh array with one player at the origin, or two at (-3, 0) and (3, 0) |
| Simulation.Game.ResetGame | main.go:498-571 | counters at their starting values, every pool empty, every player reset, the open field installed, and the boss invariant holds |
| Simulation.Game.ResetCounters | main.go:527-552 | score 0, level 1, timers 0, no boss, no upgrade choice, the open field, and the spawn interval set by the difficulty |
| Simulation.Game.ResetPlayers | main.go:498-552 | every player is replaced by their reset at the difficulty, and the invariant holds |
| Simulation.Game.ClearPools | main.go:554-568 | every slot of every pool is switched off, with its other contents kept |
| Simulation.Game.UpdateMenu | main.go:1003-1029 | the cursor cycles over four entries; confirming entry 0 or 1 starts a single or co-op run; entry 2 opens the settings; otherwise nothing of the run changes (`RunKept`), and the upgrade choice, the players and every pool are unchanged |
| Simulation.Game.UpdateSettings | main.go:1031-1084 | the cursor cycles over six rows, left or right adjusts the selected row, and Escape, or confirming the last row, returns to the menu |
| Simulation.Game.ApplyUpgrade | main.go:721-739 | every player receives the chosen upgrade, and play resumes with no pending choice |
| Simulation.Game.UpdateUpgrade | main.go:1110-1126 | every player receives every held upgrade in key order, and the screen stays up exactly when none was held; the pending upgrade choice becomes -1 when any key is held and is kept otherwise |
| Simulation.Game.UpgradeKey | main.go:1111-1113 | one key's upgrade is applied on top of the earlier keys', and when held it resumes play and sets the pending upgrade choice to -1; otherwise the choice is kept |
| Simulation.Game.GenerateMaze | main.go:593-621 | slots 0-8 hold the maze walls, and every other slot is unchanged |
| Simulation.Game.GenerateHazards | main.go:623-642 | slots 0-9 hold the hazard zones at the drawn points, and every other slot is unchanged |
| Simulation.Game.GenerateArena | main.go:644-669 | slots 0-3 hold the arena walls, and every other slot is unchanged |
| Simulation.Game.GenerateStage | main.go:573-591 | the stage is the archetype of the level, and the pool is that archetype's layout installed over the switched-off old pool |
| Simulation.Game.CheckObstacleCollision | main.go:671-688 | the result is true exactly when some active obstacle overlaps the circle |
| Simulation.Game.ClampPlayerToStageBounds | main.go:690-719 | only player `k` changes, and only its position, which is clamped to the stage |
| Simulation.Game.CreateExplosion | main.go:962-985 | the particle pool becomes the burst placed slot by slot into the first free slots |
| Simulation.Game.Sparks | main.go:962-985 | the burst a handler leaves behind never overwrites a live particle |
| Simulation.Game.SpawnPowerUp | main.go:987-1001 | with a successful drop roll, a power-up of the drawn kind goes into the first free slot; otherwise nothing changes |
| Simulation.Game.SpawnBoss | main.go:741-775 | the boss goes into the first free slot, and the boss flags are raised only when a slot was found |
| Simulation.Game.SpawnEnemy | main.go:777-823 | the enemy pool after one regular spawn attempt is `SpawnOne` of the old pool |
| Simulation.Game.ShootBullet | main.go:825-854 | within the fire interval nothing changes; otherwise the shot goes into the first free slot and the shot time is recorded only if a slot was free |
| Simulation.Game.KillEnemy | main.go:919-960 | the slot goes inactive, the counters become `AfterKill`, the stage is regenerated exactly when the level rose to a level that is 1 modulo 10, the drop lands at the enemy's position, and the boss invariant is kept |
| Simulation.Game.Kill | main.go:919-960 | the slot goes inactive, no other enemy changes, one more kill is counted, the state can only become Upgrade, the boss invariant is kept, and a boss's death leaves no live boss |
| Simulation.Game.RecordKill | main.go:921-959 | the counters become `AfterKill`, and the stage follows the regeneration rule |
| Simulation.Game.RecordBossKill | main.go:922-937 | a boss death's counters and stage follow `AfterKill` and the regeneration rule |
| Simulation.Game.RecordRegularKill | main.go:938-959 | a regular death's counters and stage follow `AfterKill` and the regeneration rule |
| Simulation.Game.CountedLevelUp | main.go:947-958 | a regular death completing a run of 20 kills raises the level, resets the spawn interval, and regenerates the stage on levels that are 1 modulo 10 |
| Simulation.Game.AdvanceLevel | main.go:926-937 | the level rises by one, the upgrade gate decides the state, and the stage follows the regeneration rule |
| Simulation.Game.UseSkill | main.go:856-917 | a skill that is not ready changes nothing in any pool, player or stage; a ready one starts its cooldown and explodes nearby enemies, fires the radial volley, or shields the caster; no other player moves or changes |
| Simulation.Game.CastExplosion | main.go:862-884 | the caster's skill 0 cools down, every enemy becomes `Explode` of itself, the kill count rises by the blast's deaths, and the boss invariant is kept |
| Simulation.Game.CastRadialShot | main.go:886-906 | the caster's skill 1 cools down and the bullet pool becomes the radial volley placed into the first free slots |
| Simulation.Game.CastEnergyShield | main.go:908-913 | the caster is healed as `Shielded` says and its skill 2 cools down; no other player changes |
| Simulation.Game.StartCooldown | main.go:915-916 | player `k` becomes `Cooled` at skill `s`, and the invariant holds |
| Simulation.Game.Explosion | main.go:862-882 | every enemy becomes `Explode` of itself, and the kill count rises by the number of enemies the blast leaves dead |
| Simulation.Game.BlastEnemy | main.go:863-880 | enemy `i` becomes `Explode` of itself, and the death handler runs when the blast leaves it dead |
| Simulation.Game.RadialShot | main.go:886-905 | the bullet pool becomes the twelve-bullet volley placed slot by slot into the first free slots |
| Simulation.Game.EnergyShield | main.go:908-912 | only player `k` changes, and it is healed as `Shielded` says |
| Simulation.Game.TickCooldowns | main.go:1150-1158 | only player `k` changes, and only its skills, each counted down by `dt` |
| Simulation.Game.MovePlayer | main.go:1161-1308 | the step built from speed and `dt` (lines 1161-1163) is committed unless the new position is blocked at radius 0.9, and the player is then clamped to the stage (lines 1299-1308); nothing else changes |
| Simulation.Game.AdvanceBullets | main.go:1315-1337 | every bullet becomes `StepBullet` of itself against the obstacle pool |
| Simulation.Game.CountRegular | main.go:1349-1354 | the result is the number of live regular enemies |
| Simulation.Game.BossCheck | main.go:1339-1342 | on a level that is a multiple of 5 with no boss yet, the boss is placed and the flags follow; the number of regular enemies is unchanged; the boss invariant is kept, so there is never more than one live boss, and with a boss alive the enemy pool is untouched |
| Simulation.Game.SpawnTimerStep | main.go:1344-1359 | the timer is frozen while a boss lives; otherwise it runs, and once past the interval it restarts and allows one spawn attempt below the cap |
| Simulation.Game.WorldStep | main.go:1315-1359 | every bullet takes exactly one `StepBullet` step against the obstacles, and the regular enemies only grow while they stay within the level's cap |
| Simulation.Game.MoveEnemy | main.go:1396-1440 | the enemy takes the step unless the target is blocked at half its size |
| Simulation.Game.ResolveContact | main.go:1443-1477 | every player in reach loses the contact damage; any lethal touch, including a repeat touch on a player already at or below zero health, ends the game and lifts the high score to the score if it is higher |
| Simulation.Game.TouchPlayer | main.go:1444-1476 | one player's contact damage, the GameOver transition on a lethal touch, and the high-score update |
| Simulation.Game.BulletHit | main.go:1480-1495 | a striking bullet is spent, the enemy takes its damage, and the death handler runs at or below zero; other bullets and enemies are unchanged |
| Simulation.Game.ResolveBulletHits | main.go:1479-1496 | every bullet in slot order: each striking bullet is spent, the enemy ends as `Struck`, and the kill count rises once per death-handler run |
| Simulation.Game.FirstPlayerNear | main.go:1519-1540 | the search returns `FirstNear` of the players |
| Simulation.Game.Pickups | main.go:1514-1543 | the power-ups and players after the pass are `PickupsUpTo` of the old ones over the whole pool |
| Simulation.Game.PlayerTurn | main.go:1147-1312 | no other player changes, only Upgrade can be entered, and the final position is the clamped step (or the old position if blocked) |
| Simulation.Game.FireShots | main.go:1193-1196 | only bullets and the shooter's shot time change |
| Simulation.Game.CastSkills | main.go:1274-1297 | no other player changes, the caster neither moves nor changes speed, and only Upgrade can be entered |
| Simulation.Game.WorldTurn | main.go:1315-1543 | after the players, the world step, the enemy pass and the pickups keep both invariants, can enter only Upgrade or GameOver, and never lower the high score |
| Simulation.Game.PlayingTick | main.go:1143-1543 | the clock advances by `dt`, the state stays among Playing, Upgrade and GameOver, and the high score never falls |
| Simulation.Game.PlayerTurns | main.go:1146-1312 | all player turns in order; only Upgrade can be entered |
| Simulation.Game.EnemyPass | main.go:1361-1497 | the enemy pass in slot order can enter only Upgrade or GameOver, and the high score never falls |
| Simulation.Game.UpdateGameOver | main.go:1100-1108 | R restarts the run and Escape returns to the menu, with Escape winning; without R nothing of the run changes (`RunKept`), and the upgrade choice, the players and every pool are unchanged |
| Simulation.Game.UpdatePaused | main.go:1128-1135 | P resumes and Escape returns to the menu, with Escape winning |
| Simulation.Game.Update | main.go:1087-1144 | one frame dispatches on the state: only the allowed transitions happen and the boss invariant is kept; P pauses with every run field (`RunKept`), the upgrade choice, the players and the pools unchanged; the settings and pause screens keep the same; the upgrade screen keeps the run fields and the pools and resets the upgrade choice to -1 exactly when a key 1-5 is held; game over without R keeps the run fields, the upgrade choice, the players and the pools; playing advances the clock by `dt` |
| Simulation.Game.UpdatePlaying | main.go:1137-1143 | P pauses with the run, the players and the pools unchanged; otherwise the clock advances by `dt` and the state stays among Playing, Upgrade and GameOver |

## Left out

- Drawing, the camera, model and sound loading, music, and the volume
  application (`updateVolume`) are not modelled. Sound and music switches
  and volumes are kept only as settings values.
- The fourth menu entry ends the process (`os.Exit`). The model leaves the
  game in the menu there.
- The Y axis is dropped: every collision and distance test in the core is
  planar.
- Floating point is modelled as exact reals, so float32 rounding is not
  captured. `math.Sqrt` distances are compared through squared distances.
- Randomness is taken as parameters: spawn positions and rolls, hazard
  points, boss position, critical rolls, drop roll and kind.
  - Only the speed drawn for a new enemy is kept, not its velocity vector.
  - Enemy colours are left out.
- Aiming is given as input: the facing angle from the mouse, player 2's
  numpad directions and auto-aim. Each shot arrives as a direction in an
  `Intent`.
- Enemy steering is given as input: nearest-player search, chasing, and the
  boss's circling. `MoveEnemy` receives the target position; only the
  obstacle check on it is modelled.
- The knock-back of an enemy after contact (main.go:1464-1468) is not
  modelled, nor are tilt, bob, the moving flag and the power-up spin. In
  the Go code the pushed position is what the next player's contact test
  and the same tick's bullet tests (main.go:1479-1496) read; in the model
  both read the enemy's position before the push, so a push that carries
  an enemy into or out of reach of a later player or a bullet is not
  captured.
- Particle motion, gravity and lifetime are not modelled.
- Simulation.Game.Sparks: this is the burst left by contact, skill, death
  and pickup handlers. It states only that live particles are kept, not
  which free slots were filled. `CreateExplosion` states the exact contents.
- Simulation.Game.Kill: states only the slot, the kill count and the
  possible states. The full bookkeeping is in `KillEnemy` and `RecordKill`.
- Simulation.Game.FireShots: does not state which shots became bullets.
  `ShootBullet` states that for one shot.
- Simulation.Game.PlayerTurns, Simulation.Game.EnemyPass,
  Simulation.Game.WorldTurn, Simulation.Game.PlayingTick: state only the invariant, the reachable
  states, the clock and the high score. The steps they chain are stated by
  the members they call.
- Simulation.Game.WorldStep: states the bullets exactly but the enemies
  only through the spawn cap. The boss placement and the timer are stated
  exactly by `BossCheck` and `SpawnTimerStep`.
- Drop draws: one optional drop is drawn per enemy slot per tick. A slot
  that dies twice in one tick (killed by the explosion skill, refilled,
  and killed again) reuses the same drop, whereas the Go code draws afresh
  on every death. Likewise the ten hazard points are drawn once per tick,
  so two stage regenerations in one tick share them.
- Simulation.Game.UpdateMenu: the quit entry is modelled as staying in the
  menu.

### Where the code and its description differ (the model follows the code)

- The arena's four 30-long walls at ±18 leave all four corners open, so the
  boundary is not closed (`Stages.ArenaCornersOpen`).
- On a kill-count level-up, the "not a multiple of 10" guard tests the level
  *before* the increment. Level 9 therefore reaches 10, while level 10 never
  rises through kills (`Progression.CountLevelUpBlockedAtTens`).
- Contact damage is not clamped at zero: health can go negative
  (`Combat.ContactCanGoNegative`).
- The bullet loop goes on testing an enemy after the death handler has
  switched it off. Two bullets in one tick can run the handler twice for
  one enemy, counting two kills and scoring twice (`Combat.DoubleKill`).
- A spawn whose candidate position is blocked does not give up. It moves
  on to the next free slot with a fresh candidate
  (`Spawning.BlockedCandidateFallsThrough`).
- A boss death that reaches an upgrade level overwrites GameOver with
  Upgrade (`Progression.KillOverridesGameOver`).
- The high score is raised only at a lethal touch, and that includes a
  repeat touch on a player already at or below zero health. Kills made
  after the last such touch in the tick raise the score but are not
  reflected in the high score.
- Holding several upgrade keys in one frame applies every one of them
  (`Simulation.SeveralUpgradesInOneTick`).
