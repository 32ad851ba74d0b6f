/** The stage generator: the archetype chosen by level, and the obstacle
    layout each archetype installs at the front of the obstacle pool. */
module Stages {
  import opened Entities
  import opened Geometry

  /** The archetype with the given ordinal; ordinals outside 1..3 match no
      case of the generator or of the clamp and so behave as Basic. */
  function StageOf(n: int): StageType
  {
    if n == 1 then Maze else if n == 2 then Hazard else if n == 3 then Arena else Basic
  }

  /** The archetype for a level: the stage number (level-1)/StageInterval,
      taken modulo four, both with Go's truncating operators. */
  function Archetype(level: int): (t: StageType)
    ensures 1 <= level <= StageInterval ==> t == Basic
  {
    StageOf(Rem(Quot(level - 1, StageInterval), 4))
  }

  /** Archetypes repeat every four stage intervals (forty levels) from level
      one on. */
  lemma ArchetypePeriodic(level: int)
    requires level >= 1
    ensures Archetype(level + 4 * StageInterval) == Archetype(level)
  {
    var q := (level - 1) / StageInterval;
    assert Quot(level + 4 * StageInterval - 1, StageInterval) == q + 4 by {
      assert level + 4 * StageInterval - 1 == (level - 1) + 4 * StageInterval;
    }
    assert Rem(q + 4, 4) == Rem(q, 4);
  }

  /** Levels 11 to 20 are the maze, 21 to 30 the hazard field, 31 to 40 the
      arena, and level 41 is back to the open field. */
  lemma ArchetypeBands(level: int)
    requires 1 <= level <= 4 * StageInterval + 1
    ensures level <= 10 ==> Archetype(level) == Basic
    ensures 11 <= level <= 20 ==> Archetype(level) == Maze
    ensures 21 <= level <= 30 ==> Archetype(level) == Hazard
    ensures 31 <= level <= 40 ==> Archetype(level) == Arena
    ensures level == 41 ==> Archetype(level) == Basic
  {
  }

  function WallAt(x: real, z: real, sx: real, sz: real): Obstacle
  {
    Obstacle(Vec(x, z), Vec(sx, sz), true, Wall)
  }

  /** The maze: the first loop's walls (2 by 15) every 10 along x from -20,
      then the second loop's walls (15 by 2) every 10 along z from -15. */
  function MazeLayout(): (r: seq<Obstacle>)
    ensures |r| == 9
  {
    seq(9, k requires 0 <= k < 9 =>
      if k < 5 then WallAt((-20 + 10 * k) as real, 0.0, 2.0, 15.0)
      else WallAt(0.0, (-15 + 10 * (k - 5)) as real, 15.0, 2.0))
  }

  /** Spelled out: walls at x = -20, -10, 0, 10, 20, then at z = -15, -5, 5, 15. */
  lemma MazeWalls()
    ensures MazeLayout() ==
      [ WallAt(-20.0, 0.0, 2.0, 15.0), WallAt(-10.0, 0.0, 2.0, 15.0), WallAt(0.0, 0.0, 2.0, 15.0),
        WallAt(10.0, 0.0, 2.0, 15.0), WallAt(20.0, 0.0, 2.0, 15.0),
        WallAt(0.0, -15.0, 15.0, 2.0), WallAt(0.0, -5.0, 15.0, 2.0),
        WallAt(0.0, 5.0, 15.0, 2.0), WallAt(0.0, 15.0, 15.0, 2.0) ]
  {
  }

  /** North, south, west and east walls at distance 18 from the centre. */
  function ArenaLayout(): seq<Obstacle>
  {
    [ WallAt(0.0, -18.0, 30.0, 2.0), WallAt(0.0, 18.0, 30.0, 2.0),
      WallAt(-18.0, 0.0, 2.0, 30.0), WallAt(18.0, 0.0, 2.0, 30.0) ]
  }

  /** Ten 3-by-3 hazard zones at the drawn points (the generator draws each at
      a random angle and a random radius in [10, 20)). */
  function HazardLayout(draws: seq<Vec>): (r: seq<Obstacle>)
    requires |draws| == 10
    ensures |r| == 10
    ensures forall k :: 0 <= k < 10 ==>
      r[k].active && r[k].kind == HazardZone && r[k].pos == draws[k] && r[k].size == Vec(3.0, 3.0)
  {
    seq(10, k requires 0 <= k < 10 => Obstacle(draws[k], Vec(3.0, 3.0), true, HazardZone))
  }

  function Layout(stage: StageType, hazards: seq<Vec>): (r: seq<Obstacle>)
    requires |hazards| == 10
    ensures |r| <= MaxObstacles
    ensures forall k :: 0 <= k < |r| ==> r[k].active
  {
    match stage
    case Basic => []
    case Maze => MazeLayout()
    case Hazard => HazardLayout(hazards)
    case Arena => ArenaLayout()
  }

  /** The pool after regeneration: the layout in the front slots, every other
      slot switched off with its stale placement kept. */
  function Installed(prior: seq<Obstacle>, layout: seq<Obstacle>): (r: seq<Obstacle>)
    requires |layout| <= |prior|
  {
    seq(|prior|, i requires 0 <= i < |prior| =>
      if i < |layout| then layout[i] else prior[i].(active := false))
  }

  /** After regeneration slot i is active exactly when it lies inside the
      layout: none for Basic, 0..8 for Maze, 0..9 for Hazard, 0..3 for Arena. */
  lemma InstalledActiveSlots(prior: seq<Obstacle>, stage: StageType, hazards: seq<Vec>, i: nat)
    requires |prior| == MaxObstacles && |hazards| == 10 && i < MaxObstacles
    ensures Installed(prior, Layout(stage, hazards))[i].active
        <==> i < (match stage case Basic => 0 case Maze => 9 case Hazard => 10 case Arena => 4)
  {
  }

  /** The stale slots left after regeneration never block anything: the pool
      blocks exactly what its layout blocks. */
  lemma InstalledBlocksAsLayout(prior: seq<Obstacle>, layout: seq<Obstacle>, p: Vec, radius: real)
    requires |layout| <= |prior|
    ensures Blocked(Installed(prior, layout), p, radius) <==> Blocked(layout, p, radius)
  {
    var inst := Installed(prior, layout);
    if Blocked(inst, p, radius) {
      var i :| 0 <= i < |inst| && inst[i].active && Overlaps(inst[i], p, radius);
      assert i < |layout| && layout[i] == inst[i];
    }
    if Blocked(layout, p, radius) {
      var i :| 0 <= i < |layout| && layout[i].active && Overlaps(layout[i], p, radius);
      assert inst[i] == layout[i];
    }
  }

  /** Each arena wall blocks its own midpoint, yet the four corners at
      (+-18, +-18) are open: the walls are 30 long, so they end 3 short of
      one another and the boundary is not closed. */
  lemma ArenaCornersOpen()
    ensures Blocked(ArenaLayout(), Vec(0.0, -18.0), 0.9)
    ensures Blocked(ArenaLayout(), Vec(18.0, 0.0), 0.9)
    ensures !Blocked(ArenaLayout(), Vec(-18.0, -18.0), 0.9)
    ensures !Blocked(ArenaLayout(), Vec(18.0, -18.0), 0.9)
    ensures !Blocked(ArenaLayout(), Vec(-18.0, 18.0), 0.9)
    ensures !Blocked(ArenaLayout(), Vec(18.0, 18.0), 0.9)
  {
    var a := ArenaLayout();
    assert a[0].active && Overlaps(a[0], Vec(0.0, -18.0), 0.9);
    assert a[3].active && Overlaps(a[3], Vec(18.0, 0.0), 0.9);
  }

  /** The maze's centre wall covers the origin, so a maze stage blocks the
      point where a single player starts. */
  lemma MazeBlocksOrigin()
    ensures Blocked(MazeLayout(), Vec(0.0, 0.0), 0.9)
    ensures !Blocked(MazeLayout(), Vec(-5.0, 10.0), 0.9)
  {
    MazeWalls();
    var m := MazeLayout();
    assert m[2].active && Overlaps(m[2], Vec(0.0, 0.0), 0.9);
  }
}
