/** Spawn and difficulty rules: the stats of a new enemy or boss, the cap on
    regular enemies, and which slot a regular spawn lands in. */
module Spawning {
  import opened Entities
  import opened Geometry
  import opened Pools

  /** The random values a regular spawn draws for one slot: the candidate
      position (random angle, radius in [25, 30)), and two rolls in [0, 1)
      for speed and size. */
  datatype SpawnDraw = SpawnDraw(pos: Vec, speedRoll: real, sizeRoll: real)

  /** Health of a regular enemy: one more point every three levels. */
  function EnemyHealth(level: int): (h: int)
    ensures level >= 1 ==> h >= 1 && h == 1 + (level - 1) / 3
  {
    1 + Quot(level - 1, 3)
  }

  /** Levels 1-3 spawn one-hit enemies, 4-6 two-hit, and health never falls as
      the level rises. */
  lemma EnemyHealthGrows(a: int, b: int)
    requires 1 <= a <= b
    ensures EnemyHealth(a) <= EnemyHealth(b)
    ensures a <= 3 ==> EnemyHealth(a) == 1
    ensures 4 <= b <= 6 ==> EnemyHealth(b) == 2
  {
  }

  function BossHealth(level: int): int { 50 + 10 * level }

  /** Regular spawning stops while this many regular enemies are alive. */
  function SpawnCap(level: int): int { 10 + 2 * level }

  /** A regular enemy spawned at `level` from the given draws. */
  function NewEnemy(d: SpawnDraw, level: int): (e: Enemy)
    ensures e.active && !e.isBoss && e.pos == d.pos
    ensures e.health == e.maxHealth == EnemyHealth(level)
    ensures 0.0 <= d.speedRoll < 1.0 ==>
      3.0 + (level as real) * 0.5 <= e.speed < 5.0 + (level as real) * 0.5
    ensures 0.0 <= d.sizeRoll < 1.0 ==> 1.0 <= e.size < 1.5
  {
    Enemy(d.pos, 3.0 + d.speedRoll * 2.0 + (level as real) * 0.5,
          EnemyHealth(level), EnemyHealth(level), 1.0 + d.sizeRoll * 0.5, true, false)
  }

  /** The boss: health 50 + 10 * level, size 4, standing still at spawn. */
  function NewBoss(at: Vec, level: int): (e: Enemy)
    ensures e.active && e.isBoss && e.pos == at && e.size == 4.0
    ensures e.health == e.maxHealth == BossHealth(level)
  {
    Enemy(at, 0.0, BossHealth(level), BossHealth(level), 4.0, true, true)
  }

  /** Active enemies that are not the boss. */
  function Regular(e: Enemy): bool { e.active && !e.isBoss }

  /** The slot a regular spawn lands in: the first free slot whose own
      candidate position is clear of obstacles (radius 1). A free slot with a
      blocked candidate is passed over and the scan goes on with the next
      free slot and its fresh candidate. */
  function SpawnSlot(s: seq<Enemy>, obs: seq<Obstacle>, draws: seq<SpawnDraw>): (r: Option<nat>)
    requires |draws| == |s|
    ensures r.Some? ==> r.value < |s| && !s[r.value].active && !Blocked(obs, draws[r.value].pos, 1.0)
    ensures r.Some? ==> forall j :: 0 <= j < r.value ==> s[j].active || Blocked(obs, draws[j].pos, 1.0)
    ensures r.None? <==> forall j :: 0 <= j < |s| ==> s[j].active || Blocked(obs, draws[j].pos, 1.0)
  {
    if |s| == 0 then None
    else if !s[0].active && !Blocked(obs, draws[0].pos, 1.0) then Some(0)
    else match SpawnSlot(s[1..], obs, draws[1..])
      case None => None
      case Some(k) => Some(k + 1)
  }

  /** The pool after one regular spawn attempt. */
  function SpawnOne(s: seq<Enemy>, obs: seq<Obstacle>, draws: seq<SpawnDraw>, level: int): seq<Enemy>
    requires |draws| == |s|
  {
    match SpawnSlot(s, obs, draws)
    case None => s
    case Some(i) => s[i := NewEnemy(draws[i], level)]
  }

  /** A spawn attempt adds at most one regular enemy, touches no active slot,
      and adds one exactly when some free slot has a clear candidate. */
  lemma SpawnOneSpec(s: seq<Enemy>, obs: seq<Obstacle>, draws: seq<SpawnDraw>, level: int)
    requires |draws| == |s|
    ensures |SpawnOne(s, obs, draws, level)| == |s|
    ensures forall j :: 0 <= j < |s| && s[j].active ==> SpawnOne(s, obs, draws, level)[j] == s[j]
    ensures ActiveCount(SpawnOne(s, obs, draws, level), Regular)
         == ActiveCount(s, Regular) + (if SpawnSlot(s, obs, draws).Some? then 1 else 0)
  {
    match SpawnSlot(s, obs, draws)
    case None =>
    case Some(i) => ActiveCountUpdate(s, i, NewEnemy(draws[i], level), Regular);
  }

  /** Placing the boss into a free slot leaves the number of regular enemies
      unchanged. */
  lemma BossKeepsRegularCount(s: seq<Enemy>, at: Vec, level: int)
    ensures ActiveCount(Place(s, NewBoss(at, level), EnemyActive), Regular) == ActiveCount(s, Regular)
  {
    match FirstFree(s, EnemyActive)
    case None =>
    case Some(i) => ActiveCountUpdate(s, i, NewBoss(at, level), Regular);
  }

  /** A boss that is alive. */
  function LiveBoss(e: Enemy): bool { e.active && e.isBoss }

  /** The boss flags agree with the enemy pool: at most one boss is alive,
      `bossActive` holds exactly when one is, and a boss marked alive has
      been spawned. */
  predicate BossFlagsOk(s: seq<Enemy>, bossActive: bool, bossSpawned: bool)
  {
    && ActiveCount(s, LiveBoss) <= 1
    && (bossActive <==> ActiveCount(s, LiveBoss) == 1)
    && (bossActive ==> bossSpawned)
  }

  /** A pool with every slot off agrees with both flags clear, as after a
      reset. */
  lemma BossFlagsIdle(s: seq<Enemy>)
    requires forall j :: 0 <= j < |s| ==> !s[j].active
    ensures BossFlagsOk(s, false, false)
  {
    ActiveCountZero(s, LiveBoss);
  }

  /** The boss check places a boss only while none has been spawned, so none
      is alive: afterwards the new boss is the only one, and the flags are
      raised exactly when it found a slot. */
  lemma BossPlacedAlone(s: seq<Enemy>, at: Vec, level: int, active: bool, spawned: bool)
    requires BossFlagsOk(s, active, spawned) && !spawned
    ensures ActiveCount(s, LiveBoss) == 0
    ensures var placed := FirstFree(s, EnemyActive).Some?;
      var t := Place(s, NewBoss(at, level), EnemyActive);
      ActiveCount(t, LiveBoss) == (if placed then 1 else 0)
      && BossFlagsOk(t, active || placed, spawned || placed)
  {
    match FirstFree(s, EnemyActive)
    case None =>
    case Some(i) => ActiveCountUpdate(s, i, NewBoss(at, level), LiveBoss);
  }

  /** A regular spawn never adds or removes a boss. */
  lemma SpawnOneKeepsBosses(s: seq<Enemy>, obs: seq<Obstacle>, draws: seq<SpawnDraw>, level: int)
    requires |draws| == |s|
    ensures ActiveCount(SpawnOne(s, obs, draws, level), LiveBoss) == ActiveCount(s, LiveBoss)
  {
    match SpawnSlot(s, obs, draws)
    case None =>
    case Some(i) => ActiveCountUpdate(s, i, NewEnemy(draws[i], level), LiveBoss);
  }

  /** The death handler switches slot `i` off and, when it held a boss,
      clears both flags. The flags keep agreeing with the pool, provided a
      boss that is already dead is not handled again while the flags still
      mark a boss alive. */
  lemma KillKeepsBossFlags(s: seq<Enemy>, i: nat, active: bool, spawned: bool)
    requires i < |s| && BossFlagsOk(s, active, spawned)
    requires s[i].isBoss && !s[i].active ==> !active
    ensures BossFlagsOk(s[i := s[i].(active := false)], active && !s[i].isBoss, spawned && !s[i].isBoss)
  {
    ActiveCountUpdate(s, i, s[i].(active := false), LiveBoss);
  }

  /** Moving or damaging an enemy, without ending its life or changing its
      kind, keeps the flags in agreement with the pool. */
  lemma BossFlagsKept(s: seq<Enemy>, i: nat, x: Enemy, active: bool, spawned: bool)
    requires i < |s| && BossFlagsOk(s, active, spawned)
    requires x.active == s[i].active && x.isBoss == s[i].isBoss
    ensures BossFlagsOk(s[i := x], active, spawned)
  {
    ActiveCountUpdate(s, i, x, LiveBoss);
  }

  /** A blocked candidate in the first free slot does not cancel the spawn:
      the enemy lands in the next free slot whose candidate is clear. */
  lemma BlockedCandidateFallsThrough(s: seq<Enemy>, obs: seq<Obstacle>, draws: seq<SpawnDraw>)
    requires |s| == |draws| >= 2
    requires !s[0].active && !s[1].active
    requires Blocked(obs, draws[0].pos, 1.0) && !Blocked(obs, draws[1].pos, 1.0)
    ensures SpawnSlot(s, obs, draws) == Some(1)
  {
  }
}
