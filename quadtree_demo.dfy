/**
 * The quad-tree demo model: a set of circles in the unit square that are
 * seeded without overlap, moved every frame, and bounced off one partner
 * each found through a spatial query.
 *
 * The quad tree is represented only by what it is built from (the circle
 * states after the frame's move) and by a query function whose contract
 * says what any correct tree query returns.
 */
module QuadTreeDemo {
  import opened Geometry
  import opened Collision
  import opened Wrappers

  /** A circle of the demo, updated in place. */
  class Circle {
    var center: Vec
    var direction: Vec
    const radius: real

    constructor (center: Vec, direction: Vec, radius: real)
      ensures this.center == center && this.direction == direction && this.radius == radius
    {
      this.center := center;
      this.direction := direction;
      this.radius := radius;
    }

    /** The circle's current state as a value. */
    function State(): Disc
      reads this
    {
      Disc(center, direction, radius)
    }

    /** `intersects`: the same answer whichever of the two circles asks. */
    predicate Intersects(other: Circle): (r: bool)
      reads this, other
      ensures r == Overlap(other.State(), State())
    {
      OverlapSymmetric(State(), other.State());
      Overlap(State(), other.State())
    }

    /** Straight-line motion over `elapsedTime`. */
    method Update(elapsedTime: real)
      modifies this
      ensures State() == Advance(old(State()), elapsedTime)
    {
      center := center.Plus(direction.Times(elapsedTime));
    }
  }

  /** The states of a sequence of circles, index by index. */
  function StatesOf(cs: seq<Circle>): (r: seq<Disc>)
    reads cs
    ensures |r| == |cs|
    ensures forall k :: 0 <= k < |cs| ==> r[k] == cs[k].State()
  {
    seq(|cs|, k requires 0 <= k < |cs| reads cs => cs[k].State())
  }

  ghost predicate Distinct(cs: seq<Circle>) {
    forall i, j :: 0 <= i < j < |cs| ==> cs[i] != cs[j]
  }

  predicate PositiveRadii(s: seq<Disc>) {
    forall k :: 0 <= k < |s| ==> s[k].radius > 0.0
  }

  /** No two circles of `s` overlap. */
  ghost predicate Disjoint(s: seq<Disc>) {
    forall i, j :: 0 <= i < |s| && 0 <= j < |s| && i != j ==> !Overlap(s[i], s[j])
  }

  // ---------------------------------------------------------------------
  // bounce
  // ---------------------------------------------------------------------

  /**
   * Elastic collision of two distinct circles followed by the separation
   * loop. The loop in the demo is unbounded; here it runs at most `fuel`
   * steps, and `steps` tells how many it took.
   */
  method Bounce(c1: Circle, c2: Circle, elapsedTime: real, fuel: nat) returns (steps: nat)
    requires c1 != c2
    requires c1.radius + c2.radius != 0.0
    modifies c1, c2
    ensures Separation(c1.State(), c2.State(), steps)
         == BounceDiscs(old(c1.State()), old(c2.State()), elapsedTime, fuel)
    ensures steps < fuel ==> !c1.Intersects(c2)
  {
    var v := BounceDirections(c1.State(), c2.State());
    c1.direction := v.0;
    c2.direction := v.1;
    ghost var a, b := c1.State(), c2.State();
    steps := 0;
    while steps < fuel && c1.Intersects(c2)
      invariant steps <= fuel
      invariant var r := Separate(c1.State(), c2.State(), elapsedTime, fuel - steps);
                Separate(a, b, elapsedTime, fuel) == Separation(r.first, r.second, r.steps + steps)
    {
      c1.Update(elapsedTime);
      c2.Update(elapsedTime);
      steps := steps + 1;
    }
    SeparateKeepsMotion(a, b, elapsedTime, fuel);
  }

  // ---------------------------------------------------------------------
  // initialize
  // ---------------------------------------------------------------------

  /** The smallest radius a seeded circle gets. */
  const MinRadius: real := 0.005

  /**
   * One random draw of `initialize`: a centre, a direction and the
   * Gaussian sample the radius is made from.
   */
  datatype Candidate = Candidate(center: Vec, direction: Vec, spread: real)

  /** Where a seeded circle may lie: clear of the right and bottom edges, and
      of the left and top edges too whenever it fits in the world at all. */
  predicate InWorld(d: Disc) {
    && d.center.x <= 1.0 - d.radius
    && d.center.y <= 1.0 - d.radius
    && (d.radius <= 0.5 ==> d.radius <= d.center.x && d.radius <= d.center.y)
  }

  /** The circle a candidate becomes: radius from the sample, centre clamped
      by `max` against the radius and then `min` against `1 - radius`. */
  function Place(c: Candidate): (d: Disc)
    ensures d.radius >= MinRadius && d.direction == c.direction
    ensures InWorld(d)
    ensures d.radius <= c.center.x <= 1.0 - d.radius && d.radius <= c.center.y <= 1.0 - d.radius
            ==> d.center == c.center
  {
    var r := Max(MinRadius, Abs(c.spread));
    Disc(Vec(Min(1.0 - r, Max(r, c.center.x)), Min(1.0 - r, Max(r, c.center.y))), c.direction, r)
  }

  /** Create the circle of a candidate and clamp its centre into the world. */
  method PlaceCircle(cand: Candidate) returns (add: Circle)
    ensures fresh(add) && add.State() == Place(cand)
  {
    add := new Circle(cand.center, cand.direction, Max(MinRadius, Abs(cand.spread)));
    // Keep the new circle off the edges of the world.
    add.center := add.center.(x := Max(add.radius, add.center.x));
    add.center := add.center.(x := Min(1.0 - add.radius, add.center.x));
    add.center := add.center.(y := Max(add.radius, add.center.y));
    add.center := add.center.(y := Min(1.0 - add.radius, add.center.y));
  }

  predicate OverlapsAny(accepted: seq<Disc>, d: Disc) {
    exists k :: 0 <= k < |accepted| && Overlap(accepted[k], d)
  }

  /**
   * The circles after `initialize` has drawn the candidates `cands` in order,
   * starting from `accepted`, until there are `n` circles or no candidates
   * are left: each candidate is placed and kept only if no accepted circle
   * overlaps it.
   */
  function Admit(accepted: seq<Disc>, cands: seq<Candidate>, n: nat): (r: seq<Disc>)
    ensures accepted <= r
    ensures |accepted| <= n ==> |r| <= n
    decreases |cands|
  {
    if |accepted| >= n || cands == [] then accepted
    else
      var d := Place(cands[0]);
      if OverlapsAny(accepted, d) then Admit(accepted, cands[1..], n)
      else Admit(accepted + [d], cands[1..], n)
  }

  /**
   * `initialize` only appends, never beyond `n` circles (unless there
   * were more already), every appended circle has radius at least
   * MinRadius and lies in the world, and no appended circle overlaps a
   * circle before it.
   */
  lemma {:induction false} AdmitSpec(accepted: seq<Disc>, cands: seq<Candidate>, n: nat)
    ensures var r := Admit(accepted, cands, n);
            && accepted <= r
            && |r| <= (if |accepted| <= n then n else |accepted|)
            && (forall k :: |accepted| <= k < |r| ==> r[k].radius >= MinRadius && InWorld(r[k]))
            && (forall i, j :: 0 <= i < j < |r| && |accepted| <= j ==> !Overlap(r[i], r[j]))
    decreases |cands|
  {
    if |accepted| >= n || cands == [] {
    } else {
      var d := Place(cands[0]);
      if OverlapsAny(accepted, d) {
        AdmitSpec(accepted, cands[1..], n);
      } else {
        var next := accepted + [d];
        AdmitSpec(next, cands[1..], n);
        var r := Admit(next, cands[1..], n);
        assert r[|accepted|] == d;
        forall i, j | 0 <= i < j < |r| && |accepted| <= j
          ensures !Overlap(r[i], r[j])
        {
          if j == |accepted| {
            assert r[i] == accepted[i];
          }
        }
      }
    }
  }

  /** Seeding from pairwise non-overlapping circles keeps them so. */
  lemma AdmitKeepsDisjoint(accepted: seq<Disc>, cands: seq<Candidate>, n: nat)
    requires Disjoint(accepted)
    ensures Disjoint(Admit(accepted, cands, n))
  {
    var r := Admit(accepted, cands, n);
    AdmitSpec(accepted, cands, n);
    forall i, j | 0 <= i < |r| && 0 <= j < |r| && i != j
      ensures !Overlap(r[i], r[j])
    {
      if i < j {
        if j < |accepted| { assert r[i] == accepted[i] && r[j] == accepted[j]; }
      } else {
        OverlapSymmetric(r[i], r[j]);
        if i < |accepted| { assert r[i] == accepted[i] && r[j] == accepted[j]; }
      }
    }
  }

  /** The scan of `initialize` that tests a candidate against every accepted circle. */
  method IntersectsAny(circles: seq<Circle>, add: Circle) returns (intersectsAny: bool)
    ensures intersectsAny == OverlapsAny(StatesOf(circles), add.State())
  {
    intersectsAny := false;
    var k := 0;
    while k < |circles|
      invariant 0 <= k <= |circles|
      invariant intersectsAny <==> exists m :: 0 <= m < k && circles[m].Intersects(add)
    {
      if circles[k].Intersects(add) {
        intersectsAny := true;
      }
      k := k + 1;
    }
  }

  // ---------------------------------------------------------------------
  // update
  // ---------------------------------------------------------------------

  /**
   * The tree query: given the states the tree was built from, the current
   * states and an index, the index of another circle or none.
   */
  type Query = (seq<Disc>, seq<Disc>, nat) -> Option<nat>

  /**
   * What a correct query may answer: a partner is another circle that
   * overlaps circle `i` now; "none" on a tree built from the current
   * states means no other circle overlaps it.
   */
  predicate PartnerOk(tree: seq<Disc>, s: seq<Disc>, i: nat, answer: Option<nat>)
    requires i < |s|
  {
    match answer
    case Some(j) => j < |s| && j != i && Overlap(s[i], s[j])
    case None => tree == s ==> forall j :: 0 <= j < |s| && j != i ==> !Overlap(s[i], s[j])
  }

  ghost predicate IsPartnerQuery(query: Query) {
    forall tree: seq<Disc>, s: seq<Disc>, i: nat | i < |s| :: PartnerOk(tree, s, i, query(tree, s, i))
  }

  /** The first other circle that overlaps circle `i`, searching from `j`. */
  function FirstPartner(s: seq<Disc>, i: nat, j: nat): (r: Option<nat>)
    requires i < |s|
    ensures r.Some? ==> j <= r.value < |s| && r.value != i && Overlap(s[i], s[r.value])
    ensures r.None? ==> forall k :: j <= k < |s| && k != i ==> !Overlap(s[i], s[k])
    decreases |s| - j
  {
    if j >= |s| then None
    else if j != i && Overlap(s[i], s[j]) then Some(j)
    else FirstPartner(s, i, j + 1)
  }

  /** A query by plain scanning, without a tree. */
  function ScanQuery(tree: seq<Disc>, s: seq<Disc>, i: nat): Option<nat> {
    if i < |s| then FirstPartner(s, i, 0) else None
  }

  lemma ScanQueryIsPartnerQuery()
    ensures IsPartnerQuery(ScanQuery)
  {
    forall tree: seq<Disc>, s: seq<Disc>, i: nat | i < |s|
      ensures PartnerOk(tree, s, i, ScanQuery(tree, s, i))
    {
    }
  }

  /** Every circle moved once by `elapsedTime`. */
  function MoveAll(s: seq<Disc>, dt: real): (r: seq<Disc>)
    ensures |r| == |s|
    ensures forall k :: 0 <= k < |s| ==> r[k] == Advance(s[k], dt)
  {
    seq(|s|, k requires 0 <= k < |s| => Advance(s[k], dt))
  }

  /** `bounce` applied to circles `i` and `j` of `s`. */
  function BouncePair(s: seq<Disc>, i: nat, j: nat, dt: real, fuel: nat): seq<Disc>
    requires i < |s| && j < |s| && i != j
    requires s[i].radius + s[j].radius != 0.0
  {
    var r := BounceDiscs(s[i], s[j], dt, fuel);
    s[i := r.first][j := r.second]
  }

  /** The query of circle `i` and, when it names a partner, the bounce. */
  function ResolveAt(tree: seq<Disc>, s: seq<Disc>, i: nat, query: Query, dt: real, fuel: nat): (r: seq<Disc>)
    requires i < |s| && PositiveRadii(s) && IsPartnerQuery(query)
    ensures |r| == |s| && forall k :: 0 <= k < |s| ==> r[k].radius == s[k].radius
  {
    assert PartnerOk(tree, s, i, query(tree, s, i));
    match query(tree, s, i)
    case None => s
    case Some(j) =>
      BounceDiscsSpec(s[i], s[j], dt, fuel, Momentum(X));
      BouncePair(s, i, j, dt, fuel)
  }

  /**
   * Resolving circle `i` changes nothing when the query finds no partner.
   * Otherwise only circle `i` and its partner (another circle) change; they
   * get the collision's new directions and are left apart unless the fuel
   * ran out.
   */
  lemma ResolveAtSpec(tree: seq<Disc>, s: seq<Disc>, i: nat, query: Query, dt: real, fuel: nat)
    requires i < |s| && PositiveRadii(s) && IsPartnerQuery(query)
    ensures var r := ResolveAt(tree, s, i, query, dt, fuel);
            && (query(tree, s, i).None? ==> r == s)
            && (query(tree, s, i).Some? ==>
                  var j := query(tree, s, i).value;
                  && j < |s| && j != i
                  && (forall k :: 0 <= k < |s| && k != i && k != j ==> r[k] == s[k])
                  && (r[i].direction, r[j].direction) == BounceDirections(s[i], s[j])
                  && (Separate(s[i].(direction := r[i].direction), s[j].(direction := r[j].direction), dt, fuel).steps < fuel
                      ==> !Overlap(r[i], r[j])))
  {
    assert PartnerOk(tree, s, i, query(tree, s, i));
    match query(tree, s, i)
    case None =>
    case Some(j) =>
      BounceDiscsSpec(s[i], s[j], dt, fuel, Momentum(X));
  }

  /** Circles `0 .. n-1` queried and bounced in index order. */
  function ResolveUpTo(tree: seq<Disc>, s: seq<Disc>, n: nat, query: Query, dt: real, fuel: nat): (r: seq<Disc>)
    requires n <= |s| && PositiveRadii(s) && IsPartnerQuery(query)
    ensures |r| == |s| && forall k :: 0 <= k < |s| ==> r[k].radius == s[k].radius
    decreases n
  {
    if n == 0 then s
    else ResolveAt(tree, ResolveUpTo(tree, s, n - 1, query, dt, fuel), n - 1, query, dt, fuel)
  }

  lemma ResolveUpToNext(tree: seq<Disc>, s: seq<Disc>, n: nat, query: Query, dt: real, fuel: nat)
    requires n < |s| && PositiveRadii(s) && IsPartnerQuery(query)
    ensures ResolveUpTo(tree, s, n + 1, query, dt, fuel)
         == ResolveAt(tree, ResolveUpTo(tree, s, n, query, dt, fuel), n, query, dt, fuel)
  {
  }

  /** One frame of `update`: move every circle, build the tree, resolve. */
  function Frame(s: seq<Disc>, dt: real, query: Query, fuel: nat): (r: seq<Disc>)
    requires PositiveRadii(s) && IsPartnerQuery(query)
    ensures |r| == |s| && forall k :: 0 <= k < |s| ==> r[k].radius == s[k].radius
  {
    var moved := MoveAll(s, dt);
    ResolveUpTo(moved, moved, |moved|, query, dt, fuel)
  }

  // ---------------------------------------------------------------------
  // Conservation over a whole frame
  // ---------------------------------------------------------------------

  /** A conserved quantity summed over all circles. */
  function Total(law: Law, s: seq<Disc>): real {
    if s == [] then 0.0 else Quantity(law, s[0]) + Total(law, s[1..])
  }

  lemma {:induction false} TotalUpdate(law: Law, s: seq<Disc>, i: nat, d: Disc)
    requires i < |s|
    ensures Total(law, s[i := d]) == Total(law, s) - Quantity(law, s[i]) + Quantity(law, d)
  {
    if i == 0 {
      assert s[i := d][1..] == s[1..];
    } else {
      assert s[i := d][1..] == s[1..][i - 1 := d];
      TotalUpdate(law, s[1..], i - 1, d);
    }
  }

  lemma BouncePairConserves(s: seq<Disc>, i: nat, j: nat, dt: real, fuel: nat, law: Law)
    requires i < |s| && j < |s| && i != j
    requires s[i].radius + s[j].radius != 0.0
    ensures Total(law, BouncePair(s, i, j, dt, fuel)) == Total(law, s)
  {
    var r := BounceDiscs(s[i], s[j], dt, fuel);
    BounceDiscsSpec(s[i], s[j], dt, fuel, law);
    TotalUpdate(law, s, i, r.first);
    TotalUpdate(law, s[i := r.first], j, r.second);
  }

  lemma {:induction false} ResolveUpToConserves(tree: seq<Disc>, s: seq<Disc>, n: nat, query: Query,
                                                dt: real, fuel: nat, law: Law)
    requires n <= |s| && PositiveRadii(s) && IsPartnerQuery(query)
    ensures Total(law, ResolveUpTo(tree, s, n, query, dt, fuel)) == Total(law, s)
    decreases n
  {
    if n > 0 {
      ResolveUpToConserves(tree, s, n - 1, query, dt, fuel, law);
      var prev := ResolveUpTo(tree, s, n - 1, query, dt, fuel);
      assert PartnerOk(tree, prev, n - 1, query(tree, prev, n - 1));
      match query(tree, prev, n - 1)
      case None =>
      case Some(j) => BouncePairConserves(prev, n - 1, j, dt, fuel, law);
    }
  }

  lemma {:induction false} MoveAllConserves(s: seq<Disc>, dt: real, law: Law)
    ensures Total(law, MoveAll(s, dt)) == Total(law, s)
  {
    if s != [] {
      assert MoveAll(s, dt)[1..] == MoveAll(s[1..], dt);
      MoveAllConserves(s[1..], dt, law);
      QuantityOfMotion(law, Advance(s[0], dt), s[0]);
    }
  }

  /**
   * A frame of `update` keeps the total radius-weighted momentum and the
   * total energy of all circles on each axis.
   */
  lemma FrameConserves(s: seq<Disc>, dt: real, query: Query, fuel: nat, law: Law)
    requires PositiveRadii(s) && IsPartnerQuery(query)
    ensures Total(law, Frame(s, dt, query, fuel)) == Total(law, s)
  {
    var moved := MoveAll(s, dt);
    MoveAllConserves(s, dt, law);
    ResolveUpToConserves(moved, moved, |moved|, query, dt, fuel, law);
  }

  // ---------------------------------------------------------------------
  // The model object
  // ---------------------------------------------------------------------

  /** The demo model: its circles and the quad tree of the current frame. */
  class DemoModel {
    var circles: seq<Circle>
    /** The quad tree of the last frame, as the circle states it was built from. */
    var quadTree: Option<seq<Disc>>

    ghost predicate Valid()
      reads this
    {
      Distinct(circles) && forall k :: 0 <= k < |circles| ==> circles[k].radius > 0.0
    }

    constructor ()
      ensures Valid() && circles == [] && quadTree == None
    {
      circles := [];
      quadTree := None;
    }

    /**
     * Seed circles from the candidates until there are `numberOfCircles`
     * (the random draws of the demo are the sequence `candidates`).
     */
    method Initialize(numberOfCircles: nat, candidates: seq<Candidate>)
      requires Valid()
      modifies this
      ensures Valid() && quadTree == old(quadTree)
      ensures old(circles) <= circles
      ensures forall k :: |old(circles)| <= k < |circles| ==> fresh(circles[k])
      ensures StatesOf(circles) == Admit(old(StatesOf(circles)), candidates, numberOfCircles)
    {
      ghost var s0 := StatesOf(circles);
      var idx := 0;
      while |circles| < numberOfCircles && idx < |candidates|
        invariant idx <= |candidates|
        invariant Valid() && quadTree == old(quadTree)
        invariant old(circles) <= circles
        invariant forall k :: |old(circles)| <= k < |circles| ==> fresh(circles[k])
        invariant Admit(StatesOf(circles), candidates[idx..], numberOfCircles)
               == Admit(s0, candidates, numberOfCircles)
      {
        ghost var rest := candidates[idx + 1..];
        assert candidates[idx..] == [candidates[idx]] + rest;
        Seed(candidates[idx]);
        idx := idx + 1;
      }
    }

    /**
     * One draw of `initialize`: place the candidate and append it when no
     * circle overlaps it.
     */
    method Seed(cand: Candidate)
      requires Valid()
      modifies this
      ensures Valid() && quadTree == old(quadTree)
      ensures old(circles) <= circles
      ensures forall k :: |old(circles)| <= k < |circles| ==> fresh(circles[k])
      ensures var d := Place(cand);
              StatesOf(circles) == if OverlapsAny(old(StatesOf(circles)), d) then old(StatesOf(circles))
                                   else old(StatesOf(circles)) + [d]
    {
      ghost var before := StatesOf(circles);
      var add := PlaceCircle(cand);
      assert StatesOf(circles) == before;
      var intersectsAny := IntersectsAny(circles, add);
      if !intersectsAny {
        circles := circles + [add];
        assert StatesOf(circles) == before + [add.State()];
      }
    }

    /**
     * One frame: move every circle, rebuild the tree, then query each
     * circle in index order and bounce it off the partner found.
     */
    method Update(elapsedTime: real, query: Query, fuel: nat)
      requires Valid() && IsPartnerQuery(query)
      modifies this, circles
      ensures Valid() && circles == old(circles)
      ensures quadTree == Some(MoveAll(old(StatesOf(circles)), elapsedTime))
      ensures PositiveRadii(old(StatesOf(circles)))
      ensures StatesOf(circles) == Frame(old(StatesOf(circles)), elapsedTime, query, fuel)
    {
      MoveCircles(elapsedTime);
      var tree := StatesOf(circles);
      quadTree := Some(tree);
      ResolveAll(tree, query, elapsedTime, fuel);
    }

    /** The first loop of a frame: every circle moves once. */
    method MoveCircles(elapsedTime: real)
      requires Valid()
      modifies circles
      ensures StatesOf(circles) == MoveAll(old(StatesOf(circles)), elapsedTime)
    {
      ghost var s0 := StatesOf(circles);
      var i := 0;
      while i < |circles|
        invariant i <= |circles| && Distinct(circles)
        invariant forall k :: 0 <= k < i ==> circles[k].State() == Advance(s0[k], elapsedTime)
        invariant forall k :: i <= k < |circles| ==> circles[k].State() == s0[k]
      {
        circles[i].Update(elapsedTime);
        i := i + 1;
      }
      assert StatesOf(circles) == MoveAll(s0, elapsedTime);
    }

    /** The second loop of a frame: query and bounce every circle in index order. */
    method ResolveAll(tree: seq<Disc>, query: Query, elapsedTime: real, fuel: nat)
      requires Valid() && IsPartnerQuery(query) && StatesOf(circles) == tree
      modifies circles
      ensures PositiveRadii(tree)
      ensures StatesOf(circles) == ResolveUpTo(tree, tree, |tree|, query, elapsedTime, fuel)
    {
      assert PositiveRadii(tree);
      var i := 0;
      while i < |circles|
        invariant i <= |circles|
        invariant StatesOf(circles) == ResolveUpTo(tree, tree, i, query, elapsedTime, fuel)
      {
        ResolveCircle(tree, i, query, elapsedTime, fuel);
        ResolveUpToNext(tree, tree, i, query, elapsedTime, fuel);
        i := i + 1;
      }
    }

    /** The query of circle `i` and, when it finds a partner, the bounce. */
    method ResolveCircle(tree: seq<Disc>, i: nat, query: Query, elapsedTime: real, fuel: nat)
      requires Valid() && IsPartnerQuery(query) && i < |circles|
      modifies circles
      ensures PositiveRadii(old(StatesOf(circles)))
      ensures StatesOf(circles) == ResolveAt(tree, old(StatesOf(circles)), i, query, elapsedTime, fuel)
    {
      ghost var before := StatesOf(circles);
      assert PositiveRadii(before);
      var other := query(tree, StatesOf(circles), i);
      assert PartnerOk(tree, before, i, other);
      if other.Some? {
        var j := other.value;
        var _ := Bounce(circles[i], circles[j], elapsedTime, fuel);
        ghost var after := BouncePair(before, i, j, elapsedTime, fuel);
        forall k | 0 <= k < |circles|
          ensures circles[k].State() == after[k]
        {
          if k != i && k != j {
            assert circles[k] != circles[i] && circles[k] != circles[j];
          }
        }
      }
    }
  }
}
