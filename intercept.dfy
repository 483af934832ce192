/**
 * The 15-step intercept iteration both robots use to aim (`aimAndFirePredictive` in
 * UltraMeleeBot, `smartFire` in TrainerBot): start at the target's position, then
 * repeatedly take the bullet's flight time to the current estimate, advance the
 * target along its heading for that time, and clamp into the field.
 */
module Intercept {
  import opened Arena

  /** Distance kept from every wall: half of a robot's 36-unit body. */
  const Margin: real := 18.0
  /** Number of refinement steps. */
  const Steps: nat := 15

  /**
   * One aiming problem. `sinH` and `cosH` are the host's `Math.sin` and `Math.cos`
   * of the target's heading, taken as given; `speed` is the bullet speed 20 - 3 * power.
   */
  datatype Problem = Problem(
    me: Point, target: Point, sinH: real, cosH: real, velocity: real,
    speed: real, width: real, height: real)

  /** `Math.max(18, Math.min(limit - 18, v))`. */
  function ClampAxis(v: real, limit: real): (r: real)
    ensures Margin <= r
    ensures limit >= 2.0 * Margin ==> r <= limit - Margin
    ensures Margin <= v <= limit - Margin ==> r == v
  {
    var upper := if limit - Margin <= v then limit - Margin else v;
    if Margin >= upper then Margin else upper
  }

  /** Both coordinates clamped into the field less the margin. */
  function ClampToField(p: Point, width: real, height: real): Point {
    Point(ClampAxis(p.x, width), ClampAxis(p.y, height))
  }

  /** The point lies at least Margin inside every wall. */
  predicate InField(p: Point, width: real, height: real) {
    Margin <= p.x <= width - Margin && Margin <= p.y <= height - Margin
  }

  /** Where the target is after `time` ticks along its heading at its velocity. */
  function Advance(pr: Problem, time: real): (p: Point)
    ensures pr.velocity == 0.0 ==> p == pr.target
  {
    Point(pr.target.x + pr.sinH * pr.velocity * time, pr.target.y + pr.cosH * pr.velocity * time)
  }

  /**
   * One refinement of the estimate p. Whatever the host's trigonometry and distance
   * return, the result is never closer than Margin to the left or bottom wall, lies
   * inside a field of at least 36 by 36, and for a stationary target is the target's
   * clamped position whatever p was.
   */
  function Refine(pr: Problem, dist: Metric, p: Point): (r: Point)
    requires pr.speed != 0.0
    ensures Margin <= r.x && Margin <= r.y
    ensures pr.width >= 2.0 * Margin && pr.height >= 2.0 * Margin ==> InField(r, pr.width, pr.height)
    ensures pr.velocity == 0.0 ==> r == ClampToField(pr.target, pr.width, pr.height)
  {
    ClampToField(Advance(pr, dist(pr.me, p) / pr.speed), pr.width, pr.height)
  }

  /**
   * The estimate after k refinements, starting from the target's own position; from
   * the first refinement on it has the bounds of `Refine`, and a stationary target
   * stays at its clamped position.
   */
  function Estimate(pr: Problem, dist: Metric, k: nat): (e: Point)
    requires pr.speed != 0.0
    ensures k == 0 ==> e == pr.target
    ensures k >= 1 ==> Margin <= e.x && Margin <= e.y
    ensures k >= 1 && pr.width >= 2.0 * Margin && pr.height >= 2.0 * Margin ==> InField(e, pr.width, pr.height)
    ensures k >= 1 && pr.velocity == 0.0 ==> e == ClampToField(pr.target, pr.width, pr.height)
  {
    if k == 0 then pr.target else Refine(pr, dist, Estimate(pr, dist, k - 1))
  }

  /**
   * The aiming loop: `Steps` refinements. The aim point is never closer than Margin to
   * the left or bottom wall, lies inside a field of at least 36 by 36, and for a
   * stationary target is the target's clamped position.
   */
  method PredictIntercept(pr: Problem, dist: Metric) returns (aim: Point)
    requires pr.speed != 0.0
    ensures aim == Estimate(pr, dist, Steps)
    ensures Margin <= aim.x && Margin <= aim.y
    ensures pr.width >= 2.0 * Margin && pr.height >= 2.0 * Margin ==> InField(aim, pr.width, pr.height)
    ensures pr.velocity == 0.0 ==> aim == ClampToField(pr.target, pr.width, pr.height)
  {
    var predX, predY := pr.target.x, pr.target.y;
    for i := 0 to Steps
      invariant Point(predX, predY) == Estimate(pr, dist, i)
    {
      var time := dist(pr.me, Point(predX, predY)) / pr.speed;
      var next := Advance(pr, time);
      predX := ClampAxis(next.x, pr.width);
      predY := ClampAxis(next.y, pr.height);
    }
    aim := Point(predX, predY);
  }
}
