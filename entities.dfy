/** The values the simulation is made of: game states, stage archetypes, the
    five pooled entity kinds, obstacles, players and their skills, and the
    pool capacities. Positions keep only the two ground-plane axes (x, z):
    the height axis is never read by gameplay. */
module Entities {

  /** Pool capacities and the number of levels one stage archetype lasts. */
  const MaxEnemies: nat := 80
  const MaxBullets: nat := 20
  const MaxParticles: nat := 200
  const MaxPowerUps: nat := 5
  const MaxObstacles: nat := 30
  const StageInterval: int := 10

  /** Go's integer division truncates toward zero; Dafny's is Euclidean.
      The quotient times the divisor is the multiple of `b` nearest to `a`
      on the side of zero: below `a` for a non-negative dividend, above it
      for a negative one. */
  function Quot(a: int, b: int): (q: int)
    requires b > 0
    ensures a >= 0 ==> q * b <= a < q * b + b
    ensures a < 0 ==> q * b - b < a <= q * b
  {
    if a >= 0 then DivBounds(a, b); a / b
    else DivBounds(-a, b); -((-a) / b)
  }

  /** Euclidean division of a natural number, bounded on both sides. */
  lemma DivBounds(n: int, b: int)
    requires n >= 0 && b > 0
    ensures (n / b) * b <= n < (n / b) * b + b
    ensures (-(n / b)) * b == -((n / b) * b)
  {
    assert n == (n / b) * b + n % b;
  }

  /** Go's remainder takes the sign of the dividend. */
  function Rem(a: int, b: int): (r: int)
    requires b > 0
    ensures a == Quot(a, b) * b + r
    ensures a >= 0 ==> 0 <= r < b
    ensures a < 0 ==> -b < r <= 0
  {
    a - Quot(a, b) * b
  }

  datatype GameState = Menu | Settings | Playing | Paused | Upgrade | GameOver

  datatype StageType = Basic | Maze | Hazard | Arena

  /** A point or a displacement on the ground plane. */
  datatype Vec = Vec(x: real, z: real)

  datatype ObstacleKind = Wall | HazardZone

  /** `size` holds the full extents of the box along x and z. */
  datatype Obstacle = Obstacle(pos: Vec, size: Vec, active: bool, kind: ObstacleKind)

  /** `speed` is the magnitude of the velocity drawn at spawn time. */
  datatype Enemy = Enemy(pos: Vec, speed: real, health: int, maxHealth: int,
                         size: real, active: bool, isBoss: bool)

  datatype Bullet = Bullet(pos: Vec, velocity: Vec, active: bool, damage: int, playerId: int)

  datatype Particle = Particle(pos: Vec, active: bool)

  /** `kind` 0 heals, 1 boosts speed, 2 shortens the fire interval. */
  datatype PowerUp = PowerUp(pos: Vec, active: bool, kind: int)

  datatype Skill = Skill(name: string, cooldown: real, maxCooldown: real, ready: bool)

  datatype Stats = Stats(maxHealth: int, damage: int, speed: real, fireRate: real,
                         critChance: real, statPoints: int)

  datatype Player = Player(pos: Vec, health: int, stats: Stats, lastShot: real,
                           skills: seq<Skill>, id: int)

  /** The active flag of each pooled kind, as a function value for the pool
      specifications. */
  function EnemyActive(e: Enemy): bool { e.active }
  function BulletActive(b: Bullet): bool { b.active }
  function ParticleActive(p: Particle): bool { p.active }
  function PowerUpActive(u: PowerUp): bool { u.active }
  function ObstacleActive(o: Obstacle): bool { o.active }

  /** An inactive obstacle with stale placement, as a slot of a fresh pool. */
  const EmptyObstacle := Obstacle(Vec(0.0, 0.0), Vec(0.0, 0.0), false, Wall)
  const EmptyEnemy := Enemy(Vec(0.0, 0.0), 0.0, 0, 0, 0.0, false, false)
  const EmptyBullet := Bullet(Vec(0.0, 0.0), Vec(0.0, 0.0), false, 0, 0)
  const EmptyParticle := Particle(Vec(0.0, 0.0), false)
  const EmptyPowerUp := PowerUp(Vec(0.0, 0.0), false, 0)
}
