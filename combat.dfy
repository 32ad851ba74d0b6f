/** The pure rules of combat and stat changes: skill cooldowns, the effect
    of each skill on its targets, upgrades and power-up effects, the bullet
    step, and damage on contact. */
module Combat {
  import opened Entities
  import opened Geometry
  import opened Pools
  import opened Progression

  function MinReal(a: real, b: real): real { if a <= b then a else b }

  // ---------------------------------------------------------------- skills

  /** The three skills every player starts with, all ready. */
  function StartSkills(): (s: seq<Skill>)
    ensures |s| == 3 && forall k :: 0 <= k < 3 ==> SkillOk(s[k]) && s[k].ready
  {
    [ Skill("Explosion", 0.0, 8.0, true),
      Skill("Radial Shot", 0.0, 10.0, true),
      Skill("Energy Shield", 0.0, 15.0, true) ]
  }

  /** The skill invariant: the cooldown lies in [0, maxCooldown] and the skill
      is ready exactly when the cooldown is zero. */
  predicate SkillOk(s: Skill)
  {
    s.maxCooldown > 0.0 && 0.0 <= s.cooldown <= s.maxCooldown && (s.ready <==> s.cooldown == 0.0)
  }

  /** A skill just used: not ready, cooldown at its maximum. */
  function Activated(s: Skill): Skill
  {
    s.(ready := false, cooldown := s.maxCooldown)
  }

  /** One tick of the countdown of a skill that is not ready. */
  function TickSkill(s: Skill, dt: real): Skill
  {
    if s.ready then s
    else if s.cooldown - dt <= 0.0 then s.(ready := true, cooldown := 0.0)
    else s.(cooldown := s.cooldown - dt)
  }

  /** The countdown keeps the skill invariant, and turns the skill ready
      exactly when the remaining cooldown is at most the elapsed time. */
  lemma TickSkillSpec(s: Skill, dt: real)
    requires SkillOk(s) && dt >= 0.0
    ensures SkillOk(TickSkill(s, dt))
    ensures TickSkill(s, dt).ready <==> s.ready || s.cooldown <= dt
    ensures TickSkill(s, dt).maxCooldown == s.maxCooldown && TickSkill(s, dt).name == s.name
  {
  }

  /** Using a skill keeps the skill invariant. */
  lemma ActivatedOk(s: Skill)
    requires SkillOk(s)
    ensures SkillOk(Activated(s)) && !Activated(s).ready
  {
  }

  /** Player `p` after using skill `s`: that skill goes on cooldown, and
      nothing else about the player changes. */
  function Cooled(p: Player, s: nat): (r: Player)
    requires s < |p.skills|
    ensures r.pos == p.pos && r.health == p.health && r.stats == p.stats && r.id == p.id
    ensures |r.skills| == |p.skills| && !r.skills[s].ready && r.skills[s].cooldown == p.skills[s].maxCooldown
    ensures r.skills[s].maxCooldown == p.skills[s].maxCooldown
    ensures forall j :: 0 <= j < |p.skills| && j != s ==> r.skills[j] == p.skills[j]
  {
    p.(skills := p.skills[s := Activated(p.skills[s])])
  }

  function Sum(dts: seq<real>): real
  {
    if |dts| == 0 then 0.0 else Sum(dts[..|dts| - 1]) + dts[|dts| - 1]
  }

  /** The countdown over a run of ticks. */
  function TickAll(s: Skill, dts: seq<real>): Skill
  {
    if |dts| == 0 then s else TickSkill(TickAll(s, dts[..|dts| - 1]), dts[|dts| - 1])
  }

  /** Cooldown round trip: after using a skill, it is ready again exactly when
      the ticks since add up to at least its maximum cooldown; until then the
      cooldown left is the maximum minus the time elapsed. */
  lemma {:induction false} CooldownRoundTrip(s: Skill, dts: seq<real>)
    requires SkillOk(s)
    requires forall k :: 0 <= k < |dts| ==> dts[k] >= 0.0
    ensures var t := TickAll(Activated(s), dts);
      SkillOk(t)
      && (t.ready <==> Sum(dts) >= s.maxCooldown)
      && (!t.ready ==> t.cooldown == s.maxCooldown - Sum(dts))
  {
    if |dts| > 0 {
      var init := dts[..|dts| - 1];
      CooldownRoundTrip(s, init);
      var mid := TickAll(Activated(s), init);
      TickSkillSpec(mid, dts[|dts| - 1]);
      if mid.ready {
        assert Sum(init) >= s.maxCooldown;
      }
    } else {
      ActivatedOk(s);
    }
  }

  /** Explosion damage: three times the caster's damage, ten times on a boss. */
  function ExplosionDamage(e: Enemy, damage: int): int
  {
    if e.isBoss then 10 * damage else 3 * damage
  }

  /** What the explosion skill does to one enemy slot: an active enemy within
      planar distance 10 loses the explosion damage and dies at or below zero
      health; every other slot is untouched. */
  function Explode(e: Enemy, center: Vec, damage: int): (r: Enemy)
  {
    if e.active && Near(e.pos, center, 10.0) then
      var h := e.health - ExplosionDamage(e, damage);
      e.(health := h, active := h > 0)
    else e
  }

  lemma ExplodeSpec(e: Enemy, center: Vec, damage: int)
    ensures !e.active || !Near(e.pos, center, 10.0) ==> Explode(e, center, damage) == e
    ensures e.active && Near(e.pos, center, 10.0) ==>
      Explode(e, center, damage).health == e.health - (if e.isBoss then 10 * damage else 3 * damage)
      && (Explode(e, center, damage).active <==> Explode(e, center, damage).health > 0)
    ensures Explode(e, center, damage).pos == e.pos && Explode(e, center, damage).isBoss == e.isBoss
  {
  }

  /** Energy Shield heals 30, never beyond the maximum. */
  function Shielded(p: Player): Player
  {
    p.(health := Min(p.health + 30, p.stats.maxHealth))
  }

  lemma ShieldedSpec(p: Player)
    ensures Shielded(p).health <= p.stats.maxHealth
    ensures p.health + 30 <= p.stats.maxHealth ==> Shielded(p).health == p.health + 30
    ensures Shielded(p).stats == p.stats
  {
  }

  /** The twelve Radial Shot bullets, one per given direction (every 30
      degrees), each with speed 35 and the caster's base damage and id. */
  function RadialVolley(p: Player, dirs: seq<Vec>): (r: seq<Bullet>)
    ensures |r| == |dirs|
    ensures forall k :: 0 <= k < |r| ==>
      r[k].active && r[k].damage == p.stats.damage && r[k].playerId == p.id && r[k].pos == p.pos
  {
    seq(|dirs|, k requires 0 <= k < |dirs| =>
      Bullet(p.pos, Vec(dirs[k].x * 35.0, dirs[k].z * 35.0), true, p.stats.damage, p.id))
  }

  /** A fired bullet: speed 40 along the aim, the caster's damage tripled
      when the crit roll falls below the crit chance. */
  function Shot(p: Player, dir: Vec, critRoll: real): (b: Bullet)
    ensures b.active && b.pos == p.pos && b.playerId == p.id
    ensures b.damage == (if critRoll < p.stats.critChance then 3 * p.stats.damage else p.stats.damage)
  {
    var damage := if critRoll < p.stats.critChance then p.stats.damage * 3 else p.stats.damage;
    Bullet(p.pos, Vec(dir.x * 40.0, dir.z * 40.0), true, damage, p.id)
  }

  // -------------------------------------------------------------- particles

  /** A burst asks for `count` particles but never more than 15. */
  function BurstSize(count: int): (n: nat)
    ensures n <= 15 && n <= (if count < 0 then 0 else count)
    ensures 0 <= count <= 15 ==> n == count
  {
    if count <= 0 then 0 else Min(count, 15)
  }

  function Burst(pos: Vec, count: int): seq<Particle>
  {
    Repeat(Particle(pos, true), BurstSize(count))
  }

  /** A burst activates exactly min(count, 15, free slots) particles, so never
      more than 15, and leaves every live particle alone. */
  lemma BurstSpec(s: seq<Particle>, pos: Vec, count: int)
    ensures |PlaceAll(s, Burst(pos, count), ParticleActive)| == |s|
    ensures ActiveCount(PlaceAll(s, Burst(pos, count), ParticleActive), ParticleActive)
         == ActiveCount(s, ParticleActive) + Min(BurstSize(count), |s| - ActiveCount(s, ParticleActive))
    ensures ActiveCount(PlaceAll(s, Burst(pos, count), ParticleActive), ParticleActive)
         <= ActiveCount(s, ParticleActive) + 15
    ensures forall j :: 0 <= j < |s| && s[j].active ==> PlaceAll(s, Burst(pos, count), ParticleActive)[j] == s[j]
  {
    PlaceAllSpec(s, Burst(pos, count), ParticleActive);
  }

  // ------------------------------------------------------ stats and pickups

  /** The five upgrade choices; any other choice changes no stat. */
  function Upgraded(p: Player, choice: int): Player
  {
    var st := p.stats;
    if choice == 0 then p.(stats := st.(maxHealth := st.maxHealth + 20), health := st.maxHealth + 20)
    else if choice == 1 then p.(stats := st.(damage := st.damage + 1))
    else if choice == 2 then p.(stats := st.(speed := st.speed + 2.0))
    else if choice == 3 then p.(stats := st.(fireRate := Max(st.fireRate - 0.02, 0.05)))
    else if choice == 4 then p.(stats := st.(critChance := MinReal(st.critChance + 0.05, 0.5)))
    else p
  }

  /** Each upgrade changes its one stat and nothing else: +20 maximum health
      with a full heal, +1 damage, +2 speed, a fire interval 0.02 shorter but
      never below 0.05, a crit chance 0.05 higher but never above 0.5. */
  lemma UpgradedSpec(p: Player, choice: int)
    ensures var q := Upgraded(p, choice);
      q.pos == p.pos && q.skills == p.skills && q.id == p.id && q.lastShot == p.lastShot
    ensures choice == 0 ==> (Upgraded(p, choice).stats == p.stats.(maxHealth := p.stats.maxHealth + 20)
                             && Upgraded(p, choice).health == Upgraded(p, choice).stats.maxHealth)
    ensures choice == 1 ==> Upgraded(p, choice).stats == p.stats.(damage := p.stats.damage + 1)
    ensures choice == 2 ==> Upgraded(p, choice).stats == p.stats.(speed := p.stats.speed + 2.0)
    ensures choice == 3 ==> (Upgraded(p, choice).stats == p.stats.(fireRate := Max(p.stats.fireRate - 0.02, 0.05))
                             && 0.05 <= Upgraded(p, choice).stats.fireRate <= Max(p.stats.fireRate, 0.05))
    ensures choice == 4 ==> (Upgraded(p, choice).stats == p.stats.(critChance := MinReal(p.stats.critChance + 0.05, 0.5))
                             && Upgraded(p, choice).stats.critChance <= 0.5)
    ensures choice != 0 ==> Upgraded(p, choice).health == p.health
    ensures (choice < 0 || choice > 4) ==> Upgraded(p, choice) == p
  {
  }

  /** An upgrade keeps health within the maximum. */
  lemma UpgradedKeepsHealthBound(p: Player, choice: int)
    requires p.health <= p.stats.maxHealth
    ensures Upgraded(p, choice).health <= Upgraded(p, choice).stats.maxHealth
  {
  }

  /** The effect of picking up a power-up of the given kind. */
  function PickupEffect(p: Player, kind: int): Player
  {
    var st := p.stats;
    if kind == 0 then p.(health := Min(p.health + 30, st.maxHealth))
    else if kind == 1 then p.(stats := st.(speed := MinReal(st.speed + 2.0, 20.0)))
    else if kind == 2 then p.(stats := st.(fireRate := Max(st.fireRate - 0.02, 0.05)))
    else p
  }

  /** Pickups keep health at most the maximum, leave speed at most 20 and the
      fire interval at least 0.05, and change nothing but the one stat: health
      for kind 0, speed for kind 1, the fire interval for kind 2, and nothing
      at all for any other kind. */
  lemma PickupEffectSpec(p: Player, kind: int)
    ensures var q := PickupEffect(p, kind);
      q.pos == p.pos && q.skills == p.skills && q.stats.maxHealth == p.stats.maxHealth
    ensures var q := PickupEffect(p, kind);
      kind == 0 ==> q == p.(health := q.health)
    ensures var q := PickupEffect(p, kind);
      kind == 1 ==> q == p.(stats := p.stats.(speed := q.stats.speed))
    ensures var q := PickupEffect(p, kind);
      kind == 2 ==> q == p.(stats := p.stats.(fireRate := q.stats.fireRate))
    ensures kind !in {0, 1, 2} ==> PickupEffect(p, kind) == p
    ensures p.health <= p.stats.maxHealth ==> PickupEffect(p, kind).health <= p.stats.maxHealth
    ensures kind == 0 ==> PickupEffect(p, kind).health <= p.stats.maxHealth
    ensures kind == 1 ==> PickupEffect(p, kind).stats.speed <= 20.0
    ensures kind == 2 ==> PickupEffect(p, kind).stats.fireRate >= 0.05
  {
  }

  /** The speed boost is a cap, not a bonus: once upgrades have taken speed
      past 20 (base 12 plus five +2 upgrades is 22), picking one up lowers it. */
  lemma SpeedBoostCanSlow(p: Player)
    requires p.stats.speed == 22.0
    ensures PickupEffect(p, 1).stats.speed == 20.0 < p.stats.speed
  {
  }

  /** The first player, in index order, within planar distance 2 of `at`. */
  function FirstNear(ps: seq<Player>, at: Vec): (r: Option<nat>)
    ensures r.Some? ==> r.value < |ps| && Near(ps[r.value].pos, at, 2.0)
    ensures r.Some? ==> forall k :: 0 <= k < r.value ==> !Near(ps[k].pos, at, 2.0)
    ensures r.None? <==> forall k :: 0 <= k < |ps| ==> !Near(ps[k].pos, at, 2.0)
  {
    if |ps| == 0 then None
    else if Near(ps[0].pos, at, 2.0) then Some(0)
    else match FirstNear(ps[1..], at)
      case None => None
      case Some(k) => Some(k + 1)
  }

  datatype PickupState = PickupState(powerUps: seq<PowerUp>, players: seq<Player>)

  /** Power-up slot i checked against every player in order: an active one is
      consumed by the first player within reach, who gets its effect. */
  function PickupAt(st: PickupState, i: nat): PickupState
    requires i < |st.powerUps|
  {
    var u := st.powerUps[i];
    if !u.active then st
    else match FirstNear(st.players, u.pos)
      case None => st
      case Some(k) =>
        PickupState(st.powerUps[i := u.(active := false)],
                    st.players[k := PickupEffect(st.players[k], u.kind)])
  }

  /** Slots 0..n-1 of the power-up pool processed in order. */
  function PickupsUpTo(st: PickupState, n: nat): PickupState
    requires n <= |st.powerUps|
    ensures |PickupsUpTo(st, n).powerUps| == |st.powerUps|
    ensures |PickupsUpTo(st, n).players| == |st.players|
  {
    if n == 0 then st else PickupAt(PickupsUpTo(st, n - 1), n - 1)
  }

  predicate HealthBounded(ps: seq<Player>)
  {
    forall k :: 0 <= k < |ps| ==> ps[k].health <= ps[k].stats.maxHealth
  }

  /** The pickup pass keeps every player's health within the maximum, never
      activates a power-up, and leaves each player's maximum health, skills
      and position alone. */
  lemma {:induction false} PickupsPreserve(st: PickupState, n: nat)
    requires n <= |st.powerUps|
    requires HealthBounded(st.players)
    ensures HealthBounded(PickupsUpTo(st, n).players)
    ensures forall i :: 0 <= i < |st.powerUps| && PickupsUpTo(st, n).powerUps[i].active
              ==> st.powerUps[i].active
    ensures forall k :: 0 <= k < |st.players| ==>
              PickupsUpTo(st, n).players[k].stats.maxHealth == st.players[k].stats.maxHealth
              && PickupsUpTo(st, n).players[k].pos == st.players[k].pos
              && PickupsUpTo(st, n).players[k].skills == st.players[k].skills
  {
    if n > 0 {
      PickupsPreserve(st, n - 1);
      var mid := PickupsUpTo(st, n - 1);
      var u := mid.powerUps[n - 1];
      if u.active {
        match FirstNear(mid.players, u.pos)
        case None =>
        case Some(k) => PickupEffectSpec(mid.players[k], u.kind);
      }
    }
  }

  /** A power-up within reach of two players goes to the lower-indexed one,
      and only once. */
  lemma PickupGoesToFirstPlayer(st: PickupState, i: nat)
    requires i < |st.powerUps| && st.powerUps[i].active && |st.players| == 2
    requires Near(st.players[0].pos, st.powerUps[i].pos, 2.0)
    ensures PickupAt(st, i).players[0] == PickupEffect(st.players[0], st.powerUps[i].kind)
    ensures PickupAt(st, i).players[1] == st.players[1]
    ensures !PickupAt(st, i).powerUps[i].active
  {
  }

  // --------------------------------------------------------------- bullets

  /** One tick of one bullet: it stops where it is when its next position
      overlaps an active obstacle (radius 0.3); otherwise it moves and stops
      once beyond 40 on either ground axis. */
  function StepBullet(obs: seq<Obstacle>, b: Bullet, dt: real): Bullet
  {
    if !b.active then b
    else
      var next := BulletNext(b, dt);
      if Blocked(obs, next, 0.3) then b.(active := false)
      else b.(pos := next, active := !(Abs(next.z) > 40.0 || Abs(next.x) > 40.0))
  }

  /** Where a bullet would be after `dt` at its velocity. */
  function BulletNext(b: Bullet, dt: real): Vec
  {
    Vec(b.pos.x + b.velocity.x * dt, b.pos.z + b.velocity.z * dt)
  }

  /** A bullet never becomes active by moving, never passes an obstacle its
      next position overlaps, and one still active after the step is inside
      the field. */
  lemma StepBulletSpec(obs: seq<Obstacle>, b: Bullet, dt: real)
    ensures StepBullet(obs, b, dt).active ==> b.active
    ensures b.active && Blocked(obs, BulletNext(b, dt), 0.3) ==> StepBullet(obs, b, dt) == b.(active := false)
    ensures b.active && !Blocked(obs, BulletNext(b, dt), 0.3) ==> StepBullet(obs, b, dt).pos == BulletNext(b, dt)
    ensures StepBullet(obs, b, dt).active ==>
      Abs(StepBullet(obs, b, dt).pos.x) <= 40.0 && Abs(StepBullet(obs, b, dt).pos.z) <= 40.0
    ensures StepBullet(obs, b, dt).damage == b.damage && StepBullet(obs, b, dt).playerId == b.playerId
  {
  }

  // --------------------------------------------------------------- contact

  /** Contact distance and damage: 1.5 and 20, or 3.0 and 30 for a boss. */
  function ContactRadius(e: Enemy): real { if e.isBoss then 3.0 else 1.5 }
  function ContactDamage(e: Enemy): int { if e.isBoss then 30 else 20 }

  /** A player touched by the enemy loses the contact damage, with no floor. */
  function Touched(p: Player, e: Enemy): Player
  {
    if Near(p.pos, e.pos, ContactRadius(e)) then p.(health := p.health - ContactDamage(e)) else p
  }

  /** A touch is lethal when it leaves the player at or below zero health. */
  predicate LethalTouch(p: Player, e: Enemy)
  {
    Near(p.pos, e.pos, ContactRadius(e)) && p.health - ContactDamage(e) <= 0
  }

  /** Contact damage is unclamped: a player at 10 health touched by a regular
      enemy is left at -10. */
  lemma ContactCanGoNegative(p: Player, e: Enemy)
    requires p.health == 10 && !e.isBoss && p.pos == e.pos
    ensures Touched(p, e).health == -10 && LethalTouch(p, e)
  {
  }

  // ---------------------------------------------------------------- players

  /** Three skills, each consistent. */
  predicate SkillsOk(ss: seq<Skill>)
  {
    |ss| == 3 && forall k :: 0 <= k < 3 ==> SkillOk(ss[k])
  }

  /** The player invariant: consistent skills and health at most the
      maximum. */
  predicate PlayerOk(p: Player)
  {
    SkillsOk(p.skills) && p.health <= p.stats.maxHealth
  }

  /** Where a player starts: (0, 0) alone, (-3, 0) and (3, 0) in co-op. */
  function StartPos(coop: bool, k: int): Vec
  {
    if !coop then Vec(0.0, 0.0) else if k == 0 then Vec(-3.0, 0.0) else Vec(3.0, 0.0)
  }

  /** A freshly created player: full health 100, base stats, all skills ready. */
  function NewPlayer(id: int, pos: Vec): (p: Player)
    ensures PlayerOk(p) && p.health == p.stats.maxHealth == 100
  {
    Player(pos, 100, Stats(100, 1, 12.0, 0.15, 0.05, 0), 0.0, StartSkills(), id)
  }

  /** A player after a reset at the given difficulty: back at the start,
      base stats with the difficulty's maximum health, healed in full, every
      skill ready with its maximum cooldown kept. */
  function ResetPlayer(p: Player, pos: Vec, difficulty: int): Player
  {
    var h := StartHealth(difficulty);
    p.(pos := pos, stats := Stats(h, 1, 12.0, 0.15, 0.05, 0), health := h, lastShot := 0.0,
       skills := seq(|p.skills|, j requires 0 <= j < |p.skills| => p.skills[j].(cooldown := 0.0, ready := true)))
  }

  /** A reset keeps the player invariant and leaves every skill ready with
      nothing left to count down. */
  lemma ResetPlayerSpec(p: Player, pos: Vec, difficulty: int)
    requires PlayerOk(p)
    ensures var q := ResetPlayer(p, pos, difficulty);
      PlayerOk(q) && q.health == q.stats.maxHealth && q.pos == pos && q.id == p.id
      && q.stats.maxHealth == StartHealth(difficulty)
      && forall k :: 0 <= k < 3 ==> (q.skills[k].ready && q.skills[k].cooldown == 0.0
                                     && q.skills[k].maxCooldown == p.skills[k].maxCooldown)
  {
  }

  /** Where a step would take the player: each axis of `step` (-1, 0 or 1)
      scaled by the player's speed times the elapsed time. */
  function Stepped(p: Player, step: Vec, dt: real): Vec
  {
    var speed := p.stats.speed * dt;
    Vec(p.pos.x + step.x * speed, p.pos.z + step.z * speed)
  }

  /** Every skill of a player after one tick. */
  function TickedSkills(ss: seq<Skill>, dt: real): (r: seq<Skill>)
    ensures |r| == |ss| && forall k :: 0 <= k < |ss| ==> r[k] == TickSkill(ss[k], dt)
  {
    seq(|ss|, k requires 0 <= k < |ss| => TickSkill(ss[k], dt))
  }

  /** Upgrades, pickups, the shield and ticking keep the player invariant. */
  lemma PlayerOkKept(p: Player, choice: int, dt: real, s: nat)
    requires PlayerOk(p) && dt >= 0.0 && s < 3
    ensures PlayerOk(Upgraded(p, choice))
    ensures PlayerOk(PickupEffect(p, choice))
    ensures PlayerOk(Shielded(p))
    ensures PlayerOk(p.(skills := TickedSkills(p.skills, dt)))
    ensures PlayerOk(p.(skills := p.skills[s := Activated(p.skills[s])]))
  {
    forall k | 0 <= k < 3 ensures SkillOk(TickSkill(p.skills[k], dt)) {
      TickSkillSpec(p.skills[k], dt);
    }
    ActivatedOk(p.skills[s]);
  }

  // ----------------------------------------------------------------- drops

  /** A death drops a power-up of the drawn kind (when the 30% roll allowed
      one) into the first free power-up slot. */
  function DropAt(s: seq<PowerUp>, at: Vec, drop: Option<int>): seq<PowerUp>
  {
    match drop
    case None => s
    case Some(kind) => Place(s, PowerUp(at, true, kind), PowerUpActive)
  }

  // ----------------------------------------------------------- bullet hits

  /** A live bullet strictly within the enemy's size of its centre. */
  predicate Strikes(b: Bullet, e: Enemy)
  {
    b.active && Near(b.pos, e.pos, e.size)
  }

  /** The damage of every bullet that strikes the enemy, in slot order. */
  function Hits(bs: seq<Bullet>, e: Enemy): (ds: seq<int>)
    ensures |ds| <= |bs|
    ensures (forall j :: 0 <= j < |bs| ==> bs[j].damage > 0) ==> forall k :: 0 <= k < |ds| ==> ds[k] > 0
  {
    if |bs| == 0 then []
    else Hits(bs[..|bs| - 1], e) + (if Strikes(bs[|bs| - 1], e) then [bs[|bs| - 1].damage] else [])
  }

  function SumInt(ds: seq<int>): int
  {
    if |ds| == 0 then 0 else SumInt(ds[..|ds| - 1]) + ds[|ds| - 1]
  }

  /** How many times the death handler runs when an enemy at health `h` takes
      the hits `ds` in order: once for every hit after which its health is at
      or below zero, since the hit loop does not look at the enemy again. */
  function Deaths(h: int, ds: seq<int>): (n: nat)
    ensures n <= |ds|
  {
    if |ds| == 0 then 0
    else Deaths(h, ds[..|ds| - 1]) + (if h - SumInt(ds) <= 0 then 1 else 0)
  }

  /** With positive damage the health only falls, so the handler runs at all
      exactly when the total damage reaches the health. */
  lemma {:induction false} DeathsSpec(h: int, ds: seq<int>)
    requires h > 0
    requires forall k :: 0 <= k < |ds| ==> ds[k] > 0
    ensures Deaths(h, ds) == 0 <==> SumInt(ds) < h
    ensures SumInt(ds) >= h ==> Deaths(h, ds) >= 1
  {
    if |ds| > 0 {
      var init := ds[..|ds| - 1];
      DeathsSpec(h, init);
      assert SumInt(ds) == SumInt(init) + ds[|ds| - 1];
    }
  }

  /** The hits of the first j + 1 bullets extend those of the first j by
      bullet j's damage when it strikes, and the death count by one when that
      hit leaves the health at or below zero. */
  lemma HitsStep(bs: seq<Bullet>, j: nat, e: Enemy, h: int)
    requires j < |bs|
    ensures var ds := Hits(bs[..j], e);
      var d := if Strikes(bs[j], e) then bs[j].damage else 0;
      SumInt(Hits(bs[..j + 1], e)) == SumInt(ds) + d
      && Deaths(h, Hits(bs[..j + 1], e))
         == Deaths(h, ds) + (if Strikes(bs[j], e) && h - SumInt(ds) - d <= 0 then 1 else 0)
  {
    assert bs[..j + 1][..j] == bs[..j];
    var ds := Hits(bs[..j], e);
    if Strikes(bs[j], e) {
      var ds' := ds + [bs[j].damage];
      assert Hits(bs[..j + 1], e) == ds';
      assert ds'[..|ds'| - 1] == ds;
    } else {
      assert Hits(bs[..j + 1], e) == ds;
    }
  }

  /** A bullet after its pass over enemy `e`: spent if it struck. */
  function Spent(b: Bullet, e: Enemy): Bullet
  {
    if Strikes(b, e) then b.(active := false) else b
  }

  /** Enemy `e` after one strike of `d` damage; the death handler switches
      it off when its health is then at or below zero. */
  function Hit(e: Enemy, d: int): Enemy
  {
    e.(health := e.health - d, active := e.active && e.health - d > 0)
  }

  /** Enemy `e` after the bullets `bs` have passed over it in order. */
  function Struck(e: Enemy, bs: seq<Bullet>): Enemy
  {
    e.(health := e.health - SumInt(Hits(bs, e)), active := e.active && Deaths(e.health, Hits(bs, e)) == 0)
  }

  /** One more bullet is one more `Hit` when it strikes, and nothing
      otherwise; the death count rises exactly when that hit is lethal. */
  lemma StruckStep(bs: seq<Bullet>, j: nat, e: Enemy)
    requires j < |bs|
    ensures var prior := Struck(e, bs[..j]);
      Struck(e, bs[..j + 1]) == (if Strikes(bs[j], e) then Hit(prior, bs[j].damage) else prior)
      && Deaths(e.health, Hits(bs[..j + 1], e))
         == Deaths(e.health, Hits(bs[..j], e)) + (if Strikes(bs[j], e) && prior.health - bs[j].damage <= 0 then 1 else 0)
  {
    HitsStep(bs, j, e, e.health);
  }

  /** With positive damages, a live enemy with positive health survives the
      bullets exactly when their total damage stays below its health. */
  lemma StruckSurvives(e: Enemy, bs: seq<Bullet>)
    requires e.active && e.health > 0
    requires forall j :: 0 <= j < |bs| ==> bs[j].damage > 0
    ensures Struck(e, bs).active <==> SumInt(Hits(bs, e)) < e.health
    ensures Struck(e, bs).pos == e.pos && Struck(e, bs).size == e.size
  {
    DeathsSpec(e.health, Hits(bs, e));
  }

  /** Two one-damage bullets on a one-health enemy in the same tick run the
      death handler twice: two kills are scored for one enemy. */
  lemma DoubleKill()
    ensures Deaths(1, [1, 1]) == 2
  {
    assert [1, 1][..1] == [1];
    assert [1][..0] == [];
  }

  /** The number of explosion victims: active enemies the blast leaves dead. */
  function ExplosionDeaths(s: seq<Enemy>, center: Vec, damage: int): (n: nat)
    ensures n <= |s|
  {
    if |s| == 0 then 0
    else ExplosionDeaths(s[..|s| - 1], center, damage)
         + (if s[|s| - 1].active && !Explode(s[|s| - 1], center, damage).active then 1 else 0)
  }

  /** A live enemy the blast leaves dead: in reach, with health at most the
      blast damage. */
  predicate BlastVictim(e: Enemy, center: Vec, damage: int)
  {
    e.active && Near(e.pos, center, 10.0) && e.health <= ExplosionDamage(e, damage)
  }

  /** The explosion kills nobody exactly when no live enemy in reach has
      health at most the blast damage, and never more enemies than are
      alive. */
  lemma {:induction false} ExplosionDeathsSpec(s: seq<Enemy>, center: Vec, damage: int)
    ensures ExplosionDeaths(s, center, damage) == 0
        <==> forall j :: 0 <= j < |s| ==> !BlastVictim(s[j], center, damage)
    ensures ExplosionDeaths(s, center, damage) <= ActiveCount(s, EnemyActive)
  {
    if |s| > 0 {
      var init := s[..|s| - 1];
      ExplosionDeathsSpec(init, center, damage);
      var last := s[|s| - 1];
      assert last.active && !Explode(last, center, damage).active <==> BlastVictim(last, center, damage);
      if forall j :: 0 <= j < |s| ==> !BlastVictim(s[j], center, damage) {
        assert forall j :: 0 <= j < |init| ==> !BlastVictim(init[j], center, damage) by {
          forall j | 0 <= j < |init| ensures !BlastVictim(init[j], center, damage) { assert init[j] == s[j]; }
        }
      } else if !BlastVictim(last, center, damage) {
        var j :| 0 <= j < |s| && BlastVictim(s[j], center, damage);
        assert init[j] == s[j];
      }
    }
  }
}
