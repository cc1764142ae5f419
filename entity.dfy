/**
  `Entity`: the shared shape of non-player characters (position, target, facing,
  animation frame, state) and its interpolation rule. `movementSpeed` is the constant
  `1.0f`, so `position.x += dx * movementSpeed` lands exactly on the target for
  map-sized coordinates; the state returns to IDLE only when the gap before the
  step was at most one pixel on both axes (`Math.abs(dx) < 1.5`).
*/
module EntityModel {
  import opened Geometry

  datatype EntityState = IDLE | MOVING | INTERACTING

  /** Position and state, the part of an entity that interpolation changes. */
  datatype Motion = Motion(position: Point, state: EntityState)

  /** `Entity.updateInterpolation`. */
  function EntityInterpolate(m: Motion, target: Point): (r: Motion)
    ensures r.position == target
    ensures m.position == target ==> r == m
    ensures r.state != m.state ==>
              r.state == IDLE && Abs(target.x - m.position.x) <= 1 && Abs(target.y - m.position.y) <= 1
    ensures r.state == IDLE <==>
              m.state == IDLE ||
              (m.position != target && Abs(target.x - m.position.x) <= 1 && Abs(target.y - m.position.y) <= 1)
  {
    if m.position == target then m
    else
      var dx := target.x - m.position.x;
      var dy := target.y - m.position.y;
      if Abs(dx) <= 1 && Abs(dy) <= 1 then Motion(target, IDLE) else Motion(target, m.state)
  }

  /** A second interpolation right after the first changes nothing. */
  lemma EntityInterpolateIdempotent(m: Motion, target: Point)
    ensures EntityInterpolate(EntityInterpolate(m, target), target) == EntityInterpolate(m, target)
  {
  }
}
