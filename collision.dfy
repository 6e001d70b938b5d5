/**
 * The physics of the quad-tree demo's `bounce`: a per-axis 1D elastic
 * collision in which each circle's radius stands in for its mass, followed
 * by stepping both circles along their new directions until they no longer
 * overlap. Everything here is a pure function of circle states; the
 * objects that carry these states are in module QuadTreeDemo.
 */
module Collision {
  import opened Geometry

  /** The state of one circle: centre, direction (velocity) and radius. */
  datatype Disc = Disc(center: Vec, direction: Vec, radius: real)

  datatype Axis = X | Y

  function Component(v: Vec, axis: Axis): real {
    match axis
    case X => v.x
    case Y => v.y
  }

  /**
   * Circle-circle intersection: the distance between the centres is below
   * the sum of the radii (compared squared, which is equivalent for the
   * positive radii the demo creates).
   */
  predicate Overlap(a: Disc, b: Disc): (r: bool)
    ensures r ==> a.radius + b.radius != 0.0
  {
    var dx := a.center.x - b.center.x;
    var dy := a.center.y - b.center.y;
    var reach := a.radius + b.radius;
    dx * dx + dy * dy < reach * reach
  }

  lemma OverlapSymmetric(a: Disc, b: Disc)
    ensures Overlap(a, b) == Overlap(b, a)
  {
    var dx, dy := a.center.x - b.center.x, a.center.y - b.center.y;
    assert (-dx) * (-dx) == dx * dx;
    assert (-dy) * (-dy) == dy * dy;
  }

  /** Straight-line motion for time `t`: `center += direction * t`. */
  function Advance(d: Disc, t: real): (r: Disc)
    ensures r.direction == d.direction && r.radius == d.radius
    ensures t == 0.0 ==> r == d
  {
    d.(center := d.center.Plus(d.direction.Times(t)))
  }

  /** The state after `k` steps of length `dt`. */
  function AdvanceSteps(d: Disc, dt: real, k: nat): Disc {
    Advance(d, k as real * dt)
  }

  lemma AdvanceTwice(d: Disc, s: real, t: real)
    ensures Advance(Advance(d, s), t) == Advance(d, s + t)
  {
    assert d.direction.x * s + d.direction.x * t == d.direction.x * (s + t);
    assert d.direction.y * s + d.direction.y * t == d.direction.y * (s + t);
  }

  /** One more step taken first is the same as one more step taken last. */
  lemma AdvanceStepsShift(d: Disc, dt: real, k: nat)
    ensures AdvanceSteps(Advance(d, dt), dt, k) == AdvanceSteps(d, dt, k + 1)
  {
    AdvanceTwice(d, dt, k as real * dt);
    assert dt + k as real * dt == (k + 1) as real * dt;
  }

  // ---------------------------------------------------------------------
  // The elastic collision
  // ---------------------------------------------------------------------

  /**
   * New velocity component of a body of mass `r1` moving at `d1` after an
   * elastic collision with a body of mass `r2` moving at `d2`. The partner's
   * new component is the same formula with the roles exchanged,
   * `Collide1D(d2, d1, r2, r1)`.
   */
  function Collide1D(d1: real, d2: real, r1: real, r2: real): (r: real)
    requires r1 + r2 != 0.0
    ensures d1 == d2 ==> r == d1
    ensures r2 == 0.0 ==> r == d1
  {
    (d1 * (r1 - r2) + 2.0 * r2 * d2) / (r1 + r2)
  }

  /** The collision as an impulse along the relative velocity. */
  lemma CollideAsImpulse(d1: real, d2: real, r1: real, r2: real)
    requires r1 + r2 != 0.0
    ensures Collide1D(d1, d2, r1, r2) == d1 - 2.0 * r2 * ((d1 - d2) / (r1 + r2))
    ensures Collide1D(d2, d1, r2, r1) == d2 + 2.0 * r1 * ((d1 - d2) / (r1 + r2))
  {
    var m := r1 + r2;
    var q := (d1 - d2) / m;
    assert q * m == d1 - d2;
    var v1, v2 := Collide1D(d1, d2, r1, r2), Collide1D(d2, d1, r2, r1);
    assert v1 * m == d1 * (r1 - r2) + 2.0 * r2 * d2;
    assert (d1 - 2.0 * r2 * q) * m == d1 * (r1 - r2) + 2.0 * r2 * d2;
    assert v2 * m == d2 * (r2 - r1) + 2.0 * r1 * d1;
    assert (d2 + 2.0 * r1 * q) * m == d2 * (r2 - r1) + 2.0 * r1 * d1;
  }

  /** Radius-weighted momentum `r1*d1 + r2*d2` is unchanged. */
  lemma {:induction false} CollideConservesMomentum(d1: real, d2: real, r1: real, r2: real)
    requires r1 + r2 != 0.0
    ensures r1 * Collide1D(d1, d2, r1, r2) + r2 * Collide1D(d2, d1, r2, r1) == r1 * d1 + r2 * d2
  {
    CollideAsImpulse(d1, d2, r1, r2);
    var q := (d1 - d2) / (r1 + r2);
    assert r1 * (d1 - 2.0 * r2 * q) + r2 * (d2 + 2.0 * r1 * q) == r1 * d1 + r2 * d2;
  }

  /** The relative velocity is reversed: `d1' - d2' == -(d1 - d2)`. */
  lemma {:induction false} CollideReversesRelativeVelocity(d1: real, d2: real, r1: real, r2: real)
    requires r1 + r2 != 0.0
    ensures Collide1D(d1, d2, r1, r2) - Collide1D(d2, d1, r2, r1) == -(d1 - d2)
  {
    CollideAsImpulse(d1, d2, r1, r2);
    var q := (d1 - d2) / (r1 + r2);
    assert q * (r1 + r2) == d1 - d2;
    assert (d1 - 2.0 * r2 * q) - (d2 + 2.0 * r1 * q) == (d1 - d2) - 2.0 * (q * (r1 + r2));
  }

  /** The collision is elastic: `r1*d1^2 + r2*d2^2` is unchanged. */
  lemma {:induction false} CollideConservesEnergy(d1: real, d2: real, r1: real, r2: real)
    requires r1 + r2 != 0.0
    ensures var v1, v2 := Collide1D(d1, d2, r1, r2), Collide1D(d2, d1, r2, r1);
            r1 * v1 * v1 + r2 * v2 * v2 == r1 * d1 * d1 + r2 * d2 * d2
  {
    CollideAsImpulse(d1, d2, r1, r2);
    var q := (d1 - d2) / (r1 + r2);
    var u := d1 - d2;
    assert q * (r1 + r2) == u;
    var v1, v2 := d1 - 2.0 * r2 * q, d2 + 2.0 * r1 * q;
    calc {
      r1 * v1 * v1 + r2 * v2 * v2;
      r1 * d1 * d1 + r2 * d2 * d2 - 4.0 * r1 * r2 * q * u + 4.0 * r1 * r2 * q * (q * (r1 + r2));
      r1 * d1 * d1 + r2 * d2 * d2;
    }
  }

  /** With equal radii the two bodies exchange their velocities exactly. */
  lemma {:induction false} CollideEqualRadiiSwap(d1: real, d2: real, r: real)
    requires r != 0.0
    ensures Collide1D(d1, d2, r, r) == d2 && Collide1D(d2, d1, r, r) == d1
  {
    assert (d1 * (r - r) + 2.0 * r * d2) == d2 * (r + r);
    assert (d2 * (r - r) + 2.0 * r * d1) == d1 * (r + r);
  }

  /**
   * The new direction vectors of both circles, each computed from the old
   * directions of both, before either is assigned.
   */
  function BounceDirections(a: Disc, b: Disc): (Vec, Vec)
    requires a.radius + b.radius != 0.0
  {
    (Vec(Collide1D(a.direction.x, b.direction.x, a.radius, b.radius),
         Collide1D(a.direction.y, b.direction.y, a.radius, b.radius)),
     Vec(Collide1D(b.direction.x, a.direction.x, b.radius, a.radius),
         Collide1D(b.direction.y, a.direction.y, b.radius, a.radius)))
  }

  /** Per-axis conservation laws and reversal for the bounce directions. */
  lemma BounceDirectionsLaws(a: Disc, b: Disc, axis: Axis)
    requires a.radius + b.radius != 0.0
    ensures var (v1, v2) := BounceDirections(a, b);
            var d1, d2, w1, w2 := Component(a.direction, axis), Component(b.direction, axis),
                                  Component(v1, axis), Component(v2, axis);
            && a.radius * w1 + b.radius * w2 == a.radius * d1 + b.radius * d2
            && a.radius * w1 * w1 + b.radius * w2 * w2 == a.radius * d1 * d1 + b.radius * d2 * d2
            && w1 - w2 == -(d1 - d2)
  {
    var d1, d2 := Component(a.direction, axis), Component(b.direction, axis);
    CollideConservesMomentum(d1, d2, a.radius, b.radius);
    CollideConservesEnergy(d1, d2, a.radius, b.radius);
    CollideReversesRelativeVelocity(d1, d2, a.radius, b.radius);
  }

  /** Equal radii: the two direction vectors are swapped. */
  lemma BounceDirectionsEqualRadii(a: Disc, b: Disc)
    requires a.radius == b.radius && a.radius != 0.0
    ensures BounceDirections(a, b) == (b.direction, a.direction)
  {
    CollideEqualRadiiSwap(a.direction.x, b.direction.x, a.radius);
    CollideEqualRadiiSwap(a.direction.y, b.direction.y, a.radius);
  }

  // ---------------------------------------------------------------------
  // Conserved quantities
  // ---------------------------------------------------------------------

  /** Radius-weighted momentum or energy along one axis. */
  datatype Law = Momentum(axis: Axis) | Energy(axis: Axis)

  function Quantity(law: Law, d: Disc): real {
    var v := Component(d.direction, law.axis);
    match law
    case Momentum(_) => d.radius * v
    case Energy(_) => d.radius * v * v
  }

  /** A quantity depends only on a circle's direction and radius. */
  lemma QuantityOfMotion(law: Law, d: Disc, e: Disc)
    requires d.direction == e.direction && d.radius == e.radius
    ensures Quantity(law, d) == Quantity(law, e)
  {
  }

  // ---------------------------------------------------------------------
  // Separation after the bounce
  // ---------------------------------------------------------------------

  /** Where the separation loop stops and how many steps it took. */
  datatype Separation = Separation(first: Disc, second: Disc, steps: nat)

  /**
   * Step both circles by `dt` while they overlap. The loop in the demo has
   * no bound; `fuel` caps the number of steps.
   */
  function Separate(a: Disc, b: Disc, dt: real, fuel: nat): (r: Separation)
    ensures r.steps <= fuel
    ensures r.steps < fuel ==> !Overlap(r.first, r.second)
    ensures !Overlap(a, b) ==> r == Separation(a, b, 0)
    decreases fuel
  {
    if fuel == 0 || !Overlap(a, b) then Separation(a, b, 0)
    else
      var r := Separate(Advance(a, dt), Advance(b, dt), dt, fuel - 1);
      Separation(r.first, r.second, r.steps + 1)
  }

  /**
   * The separation loop moves both circles by the same number of steps,
   * stops at the FIRST step at which they no longer overlap, and when it
   * stops before the fuel runs out they do not overlap.
   */
  lemma {:induction false} SeparateSpec(a: Disc, b: Disc, dt: real, fuel: nat)
    ensures var r := Separate(a, b, dt, fuel);
            && r.steps <= fuel
            && r.first == AdvanceSteps(a, dt, r.steps)
            && r.second == AdvanceSteps(b, dt, r.steps)
            && (r.steps < fuel ==> !Overlap(r.first, r.second))
            && forall k: nat :: k < r.steps ==> Overlap(AdvanceSteps(a, dt, k), AdvanceSteps(b, dt, k))
    decreases fuel
  {
    if fuel == 0 || !Overlap(a, b) {
    } else {
      var a', b' := Advance(a, dt), Advance(b, dt);
      var rec := Separate(a', b', dt, fuel - 1);
      SeparateSpec(a', b', dt, fuel - 1);
      AdvanceStepsShift(a, dt, rec.steps);
      AdvanceStepsShift(b, dt, rec.steps);
      forall k: nat | k < rec.steps + 1
        ensures Overlap(AdvanceSteps(a, dt, k), AdvanceSteps(b, dt, k))
      {
        if k > 0 {
          AdvanceStepsShift(a, dt, k - 1);
          AdvanceStepsShift(b, dt, k - 1);
        }
      }
    }
  }

  /**
   * What `bounce` needs from the separation loop: directions and radii
   * are kept, and the circles are apart unless the fuel ran out.
   */
  lemma SeparateKeepsMotion(a: Disc, b: Disc, dt: real, fuel: nat)
    ensures var r := Separate(a, b, dt, fuel);
            && r.first.direction == a.direction && r.first.radius == a.radius
            && r.second.direction == b.direction && r.second.radius == b.radius
            && (r.steps < fuel ==> !Overlap(r.first, r.second))
  {
    SeparateSpec(a, b, dt, fuel);
  }

  /** `bounce` on two circle states: new directions, then separation. */
  function BounceDiscs(a: Disc, b: Disc, dt: real, fuel: nat): (r: Separation)
    requires a.radius + b.radius != 0.0
    ensures (r.first.direction, r.second.direction) == BounceDirections(a, b)
    ensures r.first.radius == a.radius && r.second.radius == b.radius
    ensures r.steps < fuel ==> !Overlap(r.first, r.second)
  {
    var v := BounceDirections(a, b);
    SeparateKeepsMotion(a.(direction := v.0), b.(direction := v.1), dt, fuel);
    Separate(a.(direction := v.0), b.(direction := v.1), dt, fuel)
  }

  /** The bounce directions keep each law's total over the two circles. */
  lemma BounceDirectionsConserve(a: Disc, b: Disc, law: Law)
    requires a.radius + b.radius != 0.0
    ensures var (v1, v2) := BounceDirections(a, b);
            Quantity(law, a.(direction := v1)) + Quantity(law, b.(direction := v2))
              == Quantity(law, a) + Quantity(law, b)
  {
    BounceDirectionsLaws(a, b, law.axis);
  }

  /**
   * After `bounce` both circles carry the collision's new directions and
   * their radii, do not overlap unless the fuel ran out, and together
   * carry the same momentum and energy on each axis as before.
   */
  lemma BounceDiscsSpec(a: Disc, b: Disc, dt: real, fuel: nat, law: Law)
    requires a.radius + b.radius != 0.0
    ensures var r := BounceDiscs(a, b, dt, fuel);
            && (r.first.direction, r.second.direction) == BounceDirections(a, b)
            && r.first.radius == a.radius && r.second.radius == b.radius
            && (r.steps < fuel ==> !Overlap(r.first, r.second))
            && Quantity(law, r.first) + Quantity(law, r.second) == Quantity(law, a) + Quantity(law, b)
  {
    var v := BounceDirections(a, b);
    var a', b' := a.(direction := v.0), b.(direction := v.1);
    SeparateKeepsMotion(a', b', dt, fuel);
    BounceDirectionsConserve(a, b, law);
    var r := Separate(a', b', dt, fuel);
    QuantityOfMotion(law, r.first, a');
    QuantityOfMotion(law, r.second, b');
  }
}
