/**
 * A tracking missile that turns towards its target at a limited rate and
 * lives for a fixed time. The trigonometry it uses (`atan2`, `acos`,
 * `cos`, `sin`, `sqrt`) is taken as given functions; what is modelled is
 * the choice of the new rotation, the tolerance that skips a turn, the
 * motion and the lifetime counter.
 */
module SimpleGame {
  import opened Geometry
  import opened Wrappers

  /** The fixed size every missile gives itself. */
  const MissileSize: Extent := Extent(0.04, 0.01)

  /** Turns smaller than this angle (radians) are skipped. */
  const AngleTolerance: real := 0.01

  /**
   * The angle between the heading and the direction to the target
   * (`acos` of their dot product, so within `[0, pi]`, or 0 when `acos`
   * fails) and the 2D cross product of the two, whose sign says which way
   * to turn.
   */
  datatype AngleToTarget = AngleToTarget(angle: real, crossProduct: real)

  /**
   * The library functions the missile relies on: the rotation of a
   * momentum vector (`atan2`), the angle towards a target seen from a
   * centre for a rotation, and the momentum for a new rotation that keeps
   * the old momentum's magnitude (`cos`, `sin`, `sqrt`).
   */
  datatype Trigonometry = Trigonometry(
    rotationOf: Vec -> real,
    angleTo: (real, Vec, Vec) -> AngleToTarget,
    heading: (real, Vec) -> Vec)

  /**
   * The 2D cross product `v1.x * v2.y - v1.y * v2.x`: zero for equal
   * vectors, and never negative when `v2` is `v1` turned a quarter turn
   * counter-clockwise, so its sign says which way to rotate `v1` towards
   * `v2`.
   */
  function CrossProduct2d(v1: Vec, v2: Vec): (r: real)
    ensures v1 == v2 ==> r == 0.0
    ensures v2 == Vec(-v1.y, v1.x) ==> r >= 0.0
  {
    (v1.x * v2.y) - (v1.y * v2.x)
  }

  lemma CrossProductAntisymmetric(a: Vec, b: Vec)
    ensures CrossProduct2d(a, b) == -CrossProduct2d(b, a)
    ensures CrossProduct2d(a, a) == 0.0
  {
  }

  /** `testTolerance(value, test, tolerance)`: `value` is within `tolerance` of `test`. */
  predicate WithinTolerance(value: real, test: real, tolerance: real): (r: bool)
    ensures r <==> test - tolerance < value < test + tolerance
  {
    Abs(value - test) < tolerance
  }

  /**
   * The new rotation: turn towards the target by the whole angle when it
   * fits in the step's budget `rotateRate * elapsedTime`, otherwise by the
   * budget; turn up when the cross product is positive and down otherwise.
   */
  function NewRotation(rotation: real, aim: AngleToTarget, budget: real): (r: real)
    ensures aim.angle >= 0.0 && budget >= 0.0 ==> Abs(r - rotation) <= budget
    ensures aim.angle >= 0.0 && budget >= 0.0 ==> Abs(r - rotation) <= aim.angle
    ensures 0.0 <= aim.angle <= budget ==> Abs(r - rotation) == aim.angle
    ensures aim.angle >= 0.0 && budget >= 0.0 ==> Abs(r - rotation) == Min(aim.angle, budget)
    ensures aim.angle >= 0.0 && budget >= 0.0 ==>
              (aim.crossProduct > 0.0 ==> r >= rotation) && (aim.crossProduct <= 0.0 ==> r <= rotation)
  {
    if aim.crossProduct > 0.0 then
      if aim.angle > budget then rotation + budget else rotation + aim.angle
    else
      if aim.angle > budget then rotation - budget else rotation - aim.angle
  }

  /** The turn of one step, or none when the angle is within the tolerance of 0. */
  function Turn(rotation: real, aim: AngleToTarget, budget: real): (r: Option<real>)
    ensures r.None? <==> WithinTolerance(aim.angle, 0.0, AngleTolerance)
    ensures r.Some? ==> r.value == NewRotation(rotation, aim, budget)
  {
    if WithinTolerance(aim.angle, 0.0, AngleTolerance) then None
    else Some(NewRotation(rotation, aim, budget))
  }

  /**
   * The momentum after re-aiming at `target` from `center`: unchanged when
   * the angle to the target is within the tolerance of 0, otherwise the
   * heading for the new rotation.
   */
  function Steer(momentum: Vec, center: Vec, target: Vec, budget: real, trig: Trigonometry): (r: Vec)
    ensures var rotation := trig.rotationOf(momentum);
            var aim := trig.angleTo(rotation, center, target);
            && (WithinTolerance(aim.angle, 0.0, AngleTolerance) ==> r == momentum)
            && (!WithinTolerance(aim.angle, 0.0, AngleTolerance) ==>
                  r == trig.heading(NewRotation(rotation, aim, budget), momentum))
  {
    var rotation := trig.rotationOf(momentum);
    match Turn(rotation, trig.angleTo(rotation, center, target), budget)
    case None => momentum
    case Some(newRotation) => trig.heading(newRotation, momentum)
  }

  class TrackingMissile {
    /** The centre, shared with the missile's sprite. */
    var center: Vec
    var momentum: Vec
    /** Radians per unit of time. */
    const rotateRate: real
    /** How long the missile may live. */
    const lifetime: real
    /** How long it has lived. */
    var alive: real
    const size: Extent := MissileSize

    constructor (center: Vec, momentum: Vec, rotateRate: real, lifetime: real)
      ensures this.center == center && this.momentum == momentum
      ensures this.rotateRate == rotateRate && this.lifetime == lifetime
      ensures alive == 0.0 && size == MissileSize
    {
      this.center := center;
      this.momentum := momentum;
      this.rotateRate := rotateRate;
      this.lifetime := lifetime;
      this.alive := 0.0;
    }

    /** Radius of the bounding circle used for collisions. */
    function BoundingRadius(): (r: real)
      ensures r == 0.02
    {
      size.width / 2.0
    }

    /**
     * The answer of `collide`, which is always false. Whether an entity was
     * hit decides only whether a particle explosion is started, and that
     * effect is not part of this model.
     */
    function Collide(hitEntity: bool): (r: bool)
      ensures !r
    {
      false
    }

    /**
     * Age the missile by `elapsedTime`; while it lives, re-aim at `target`
     * and move along the (new) momentum.
     */
    method Update(elapsedTime: real, target: Vec, trig: Trigonometry) returns (live: bool)
      modifies this
      ensures alive == old(alive) + elapsedTime
      ensures live <==> alive < lifetime
      ensures old(alive) >= lifetime && elapsedTime >= 0.0 ==> !live
      ensures !live ==> center == old(center) && momentum == old(momentum)
      ensures live ==> momentum == Steer(old(momentum), old(center), target, rotateRate * elapsedTime, trig)
      ensures live ==> center == old(center).Plus(momentum.Times(elapsedTime))
    {
      alive := alive + elapsedTime;
      if alive < lifetime {
        var rotation := trig.rotationOf(momentum);
        var angleToTarget := trig.angleTo(rotation, center, target);
        var turn := Turn(rotation, angleToTarget, rotateRate * elapsedTime);
        if turn.Some? {
          momentum := trig.heading(turn.value, momentum);
        }
        center := center.Plus(momentum.Times(elapsedTime));
        return true;
      }
      return false;
    }
  }
}
