/** Ground-plane geometry: the box test against static obstacles, planar
    proximity, and the clamp that keeps a player on the stage. Every test is
    a comparison: a Euclidean distance compared with a radius is written as
    the squared distance compared with the squared radius. */
module Geometry {
  import opened Entities

  function Abs(v: real): real { if v < 0.0 then -v else v }

  /** The four strict comparisons of the box test, as the game writes them. */
  predicate Overlaps(o: Obstacle, p: Vec, radius: real)
  {
    && p.x + radius > o.pos.x - o.size.x / 2.0
    && p.x - radius < o.pos.x + o.size.x / 2.0
    && p.z + radius > o.pos.z - o.size.z / 2.0
    && p.z - radius < o.pos.z + o.size.z / 2.0
  }

  /** The box test is a pair of strict distance bounds, one per ground axis. */
  lemma OverlapsAsDistance(o: Obstacle, p: Vec, radius: real)
    ensures Overlaps(o, p, radius)
        <==> (Abs(p.x - o.pos.x) < radius + o.size.x / 2.0
              && Abs(p.z - o.pos.z) < radius + o.size.z / 2.0)
  {
  }

  /** Some active obstacle overlaps the circle of `radius` around `p`. */
  predicate Blocked(obs: seq<Obstacle>, p: Vec, radius: real)
  {
    exists i :: 0 <= i < |obs| && obs[i].active && Overlaps(obs[i], p, radius)
  }

  /** Inactive slots never matter: two pools that agree on their active
      obstacles block the same points. */
  lemma BlockedIgnoresInactive(a: seq<Obstacle>, b: seq<Obstacle>, p: Vec, radius: real)
    requires |a| == |b|
    requires forall i :: 0 <= i < |a| ==> a[i].active == b[i].active
    requires forall i :: 0 <= i < |a| && a[i].active ==> a[i] == b[i]
    ensures Blocked(a, p, radius) <==> Blocked(b, p, radius)
  {
    if Blocked(a, p, radius) {
      var i :| 0 <= i < |a| && a[i].active && Overlaps(a[i], p, radius);
      assert b[i] == a[i];
    }
    if Blocked(b, p, radius) {
      var i :| 0 <= i < |b| && b[i].active && Overlaps(b[i], p, radius);
      assert a[i] == b[i];
    }
  }

  function DistSq(a: Vec, b: Vec): real
  {
    (a.x - b.x) * (a.x - b.x) + (a.z - b.z) * (a.z - b.z)
  }

  /** Planar distance strictly below `r`, for a non-negative `r`. */
  predicate Near(a: Vec, b: Vec, r: real)
  {
    DistSq(a, b) < r * r
  }

  /** The playable half-width of each stage, before the margin. */
  function StageHalf(stage: StageType): (h: real)
    ensures 18.0 <= h <= 30.0
  {
    match stage
    case Basic => 30.0
    case Arena => 18.0
    case Maze => 28.0
    case Hazard => 29.0
  }

  /** The two sequential corrections applied to one coordinate. */
  function ClampAxis(v: real, half: real): (r: real)
    ensures half >= 0.0 ==> -half <= r <= half
    ensures -half <= v <= half ==> r == v
    ensures half >= 0.0 && v < -half ==> r == -half
    ensures half >= 0.0 && v > half ==> r == half
  {
    var low := if v < -half then -half else v;
    if low > half then half else low
  }

  /** Clamping twice is clamping once. */
  lemma ClampIdempotent(v: real, half: real)
    requires half >= 0.0
    ensures ClampAxis(ClampAxis(v, half), half) == ClampAxis(v, half)
  {
  }

  /** A position clamped to the stage bounds. */
  function ClampToStage(p: Vec, stage: StageType, margin: real): (r: Vec)
    ensures margin <= 18.0 ==>
      var half := StageHalf(stage) - margin;
      -half <= r.x <= half && -half <= r.z <= half
  {
    var half := StageHalf(stage) - margin;
    Vec(ClampAxis(p.x, half), ClampAxis(p.z, half))
  }
}
