# Bouncing circles, tiled viewport and tracking missile, in Dafny

This project models three small stateful pieces of a set of JavaScript game-technology demos. It proves their behaviour over mathematical reals.

- **Quad-tree demo model** (`quadtree_demo.dfy`, with the physics in `collision.dfy`). Circles in the unit square are seeded without overlap. Every frame each circle moves once. A spatial query then finds each circle at most one overlapping partner, and the two bounce.
  - A bounce is a per-axis 1D elastic collision that uses each circle's radius as its mass.
  - After the bounce, both circles are stepped along their new directions until they no longer overlap.
  - `Circle` is a class whose `center` and `direction` are updated in place. The demo model is a class holding the `circles` sequence and the frame's quad tree.
  - Every method is proved against pure functions of the circle states: `Admit` for seeding, `BounceDiscs` for a bounce, `Frame` for one update. The physics is proved about those functions:
    - radius-weighted momentum and energy are conserved per axis;
    - the relative velocity is reversed;
    - circles with equal radii swap directions;
    - the separation loop stops at the first step with no overlap;
    - a whole frame conserves the totals over all circles.
- **Tiled image** (`tiled_image.dfy`). A class with a `Viewport` object whose `left`/`top` fields `setViewport` assigns directly. `move` adds a scaled vector and clamps the result, `max` against 0 first and `min` against `size - 1` second. The image's size, pixel size and tile size are constants. `tilesX`/`tilesY` are the pixel size divided by the tile size.
- **Tracking missile** (`tracking_missile.dfy`). A class with centre, momentum and the `alive` counter.
  - Each `update` adds the elapsed time to `alive`.
  - Only while `alive < lifetime` does the missile re-aim and move.
  - It re-aims by turning towards the target by at most `rotateRate * elapsedTime`, in the direction given by the sign of the 2D cross product.
  - It skips the turn when the angle is within 0.01 of 0.

`geometry.dfy` holds the vector type and `Math.max`/`min`/`abs`. `wrappers.dfy` holds `Option`.

Behaviour of the code worth noting:
- The separation loop in `bounce` (`JavaScript/QuadTree/scripts/model.js`, lines 78-81) has no bound on its number of steps. The model bounds it with a `fuel` count, and its contracts say what holds when that count runs out.
- The model's `Circle` constructor has no precondition on the radius. Only `initialize` makes every radius at least 0.005, through `Math.max(0.005, ...)`.
- The clamps in `initialize` apply `max` against the radius first and `min` against `1 - radius` second. For a radius above 0.5 this leaves the centre at `1 - radius`, below the radius. So only `center <= 1 - radius` holds for every circle.
- The clamps in `move` (`JavaScript/TileRendering/scripts/Components/TiledImage.js`, lines 45-49) apply `max` against 0 first and `min` against `size - 1` second. For a world size below 1 this leaves the viewport at `size - 1`, below 0.

## Model

| member | source | states |
|---|---|---|
| Collision.Overlap | JavaScript/QuadTree/scripts/model.js:78 | the intersection test of two circles, taken as squared centre distance below the squared sum of the radii; it can hold only when the radii do not sum to 0 |
| Collision.Advance | JavaScript/QuadTree/scripts/model.js:79-80 | straight-line motion of one circle for a time `t`; it keeps the direction and the radius, and a zero time leaves the circle as it was |
| Collision.Collide1D | JavaScript/QuadTree/scripts/model.js:67-71 | one axis's new velocity component after the collision; equal components on both circles, or a partner of radius 0, leave it unchanged |
| Collision.CollideConservesMomentum | JavaScript/QuadTree/scripts/model.js:67-71 | on one axis, `r1*v1' + r2*v2' == r1*v1 + r2*v2` for the two new velocity components |
| Collision.CollideConservesEnergy | JavaScript/QuadTree/scripts/model.js:67-71 | on one axis, `r1*v1'^2 + r2*v2'^2 == r1*v1^2 + r2*v2^2`: the collision is elastic |
| Collision.CollideReversesRelativeVelocity | JavaScript/QuadTree/scripts/model.js:67-71 | on one axis, `v1' - v2' == -(v1 - v2)` |
| Collision.CollideEqualRadiiSwap | JavaScript/QuadTree/scripts/model.js:67-71 | with equal radii the new components are exactly the partner's old ones |
| Collision.BounceDirections | JavaScript/QuadTree/scripts/model.js:64-74 | the two new direction vectors, both computed from the old directions before either is assigned; its laws are stated by the rows below |
| Collision.BounceDirectionsLaws | JavaScript/QuadTree/scripts/model.js:64-74 | the two new direction vectors, both computed from the old directions before either is assigned, keep momentum and energy and reverse the relative velocity on each axis |
| Collision.BounceDirectionsEqualRadii | JavaScript/QuadTree/scripts/model.js:64-74 | with equal radii `bounce` swaps the two direction vectors |
| Collision.OverlapSymmetric | JavaScript/QuadTree/scripts/model.js:42 | the intersection test gives the same answer whichever circle asks |
| Collision.Separate | JavaScript/QuadTree/scripts/model.js:78-81 | the separation loop never takes more steps than the cap. When it stops before the cap the circles no longer overlap, and circles that are already apart take no step |
| Collision.SeparateSpec | JavaScript/QuadTree/scripts/model.js:78-81 | the separation loop moves both circles by the same number of steps along their directions; every step before the last still overlapped; when it stops before the step cap, the circles no longer overlap |
| Collision.SeparateKeepsMotion | JavaScript/QuadTree/scripts/model.js:78-81 | separation changes only centres and leaves the circles apart unless the step cap was reached |
| Collision.BounceDiscs | JavaScript/QuadTree/scripts/model.js:63-82 | `bounce` on two circle states: the circles leave with the collision's directions and their own radii, and are apart unless the step cap was reached |
| Collision.BounceDiscsSpec | JavaScript/QuadTree/scripts/model.js:63-82 | after `bounce` the circles carry the collision's directions and their radii, are apart unless the cap was reached, and keep their combined momentum and energy on each axis |
| QuadTreeDemo.Circle.Intersects | JavaScript/QuadTree/scripts/model.js:42 | a circle object's `intersects` is the overlap of the two states and gives the same answer whichever circle asks |
| QuadTreeDemo.Circle.Update | JavaScript/QuadTree/scripts/model.js:125 | a circle's update moves its centre by `direction * elapsedTime` and changes nothing else |
| QuadTreeDemo.Bounce | JavaScript/QuadTree/scripts/model.js:63-82 | only the two circles change; their new states and step count are those of the pure bounce; when the loop ends before the cap, `c1` no longer intersects `c2` |
| QuadTreeDemo.Place | JavaScript/QuadTree/scripts/model.js:29-36 | a seeded circle has radius at least 0.005 and centre at most `1 - radius` on both axes; the centre is at least `radius` whenever `radius <= 0.5`; a centre already inside is kept |
| QuadTreeDemo.PlaceCircle | JavaScript/QuadTree/scripts/model.js:26-36 | the new circle object, after its four clamping assignments, has exactly the placed state |
| QuadTreeDemo.IntersectsAny | JavaScript/QuadTree/scripts/model.js:40-45 | the scan answers true exactly when some accepted circle intersects the candidate |
| QuadTreeDemo.Admit | JavaScript/QuadTree/scripts/model.js:25-54 | the circles after `initialize` start with the circles already accepted, and there are at most `NumberOfCircles` of them when there were no more before |
| QuadTreeDemo.AdmitSpec | JavaScript/QuadTree/scripts/model.js:25-54 | seeding only appends; it appends up to `NumberOfCircles` circles and no more than that; every appended circle is placed in the world with radius at least 0.005; no appended circle overlaps any circle before it |
| QuadTreeDemo.AdmitKeepsDisjoint | JavaScript/QuadTree/scripts/model.js:40-47 | starting from pairwise non-overlapping circles, the seeded list stays pairwise non-overlapping, because the intersection test is symmetric |
| QuadTreeDemo.DemoModel.constructor | JavaScript/QuadTree/scripts/model.js:10-12 | a new model has no circles and no quad tree |
| QuadTreeDemo.DemoModel.Seed | JavaScript/QuadTree/scripts/model.js:26-53 | one draw appends the placed candidate exactly when no accepted circle overlaps it, and changes no existing circle |
| QuadTreeDemo.DemoModel.Initialize | JavaScript/QuadTree/scripts/model.js:19-55 | the circles afterwards are the old ones followed by fresh circles, exactly the result of drawing the candidates in order until `NumberOfCircles` is reached |
| QuadTreeDemo.ScanQueryIsPartnerQuery | JavaScript/QuadTree/scripts/model.js:153 | a query with the tree's contract exists: it returns another circle that overlaps now, and returns none on an up-to-date tree only when no circle overlaps |
| QuadTreeDemo.MoveAll | JavaScript/QuadTree/scripts/model.js:124-126 | every circle is moved exactly once by `elapsedTime` |
| QuadTreeDemo.ResolveAt | JavaScript/QuadTree/scripts/model.js:153-156 | querying one circle and bouncing it off the partner found keeps the number of circles and every radius |
| QuadTreeDemo.ResolveAtSpec | JavaScript/QuadTree/scripts/model.js:153-156 | a query that finds no partner changes nothing; otherwise only the circle and its partner (another circle) change, taking the collision's directions, and are left apart unless the cap was reached |
| QuadTreeDemo.ResolveUpTo | JavaScript/QuadTree/scripts/model.js:152-157 | querying and bouncing circles in index order keeps the number of circles and every radius |
| QuadTreeDemo.DemoModel.ResolveCircle | JavaScript/QuadTree/scripts/model.js:153-156 | the query of one circle on the current states, and the bounce when a partner is found, give exactly the pure resolution step |
| QuadTreeDemo.DemoModel.MoveCircles | JavaScript/QuadTree/scripts/model.js:124-126 | the first loop of `update` moves every circle object exactly once, in place |
| QuadTreeDemo.DemoModel.ResolveAll | JavaScript/QuadTree/scripts/model.js:152-157 | the second loop of `update`, on circles whose states are those the tree was built from, leaves exactly the states of querying and bouncing each circle once, in index order |
| QuadTreeDemo.DemoModel.Update | JavaScript/QuadTree/scripts/model.js:117-158 | every circle moves once; then the tree is built from the moved states; then each circle is queried once in index order and bounced only when the query names a partner; the circle list itself is unchanged |
| QuadTreeDemo.BouncePairConserves | JavaScript/QuadTree/scripts/model.js:155 | one bounce keeps the total momentum and energy summed over all circles |
| QuadTreeDemo.ResolveUpToConserves | JavaScript/QuadTree/scripts/model.js:152-157 | the whole query-and-bounce pass keeps the total momentum and energy on each axis |
| QuadTreeDemo.MoveAllConserves | JavaScript/QuadTree/scripts/model.js:124-126 | moving the circles does not change the totals |
| QuadTreeDemo.Frame | JavaScript/QuadTree/scripts/model.js:117-157 | one frame of `update` on the circle states keeps the number of circles and every radius |
| QuadTreeDemo.FrameConserves | JavaScript/QuadTree/scripts/model.js:117-157 | one whole frame of `update` keeps the total radius-weighted momentum and energy of all circles on each axis |
| TileRendering.Viewport.constructor | JavaScript/TileRendering/scripts/Components/TiledImage.js:20-23 | the viewport starts at (0, 0) |
| TileRendering.TiledImage.constructor | JavaScript/TileRendering/scripts/Components/TiledImage.js:18-32 | the image keeps its size, pixel size, tile size and asset key, and gets its own viewport at (0, 0) |
| TileRendering.TiledImage.TilesX | JavaScript/TileRendering/scripts/Components/TiledImage.js:30 | `tilesX` tiles of `tileSize` pixels cover the pixel width exactly |
| TileRendering.TiledImage.TilesY | JavaScript/TileRendering/scripts/Components/TiledImage.js:31 | `tilesY` tiles of `tileSize` pixels cover the pixel height exactly |
| TileRendering.TiledImage.SetViewport | JavaScript/TileRendering/scripts/Components/TiledImage.js:34-37 | the viewport is set exactly to the given left and top, without clamping, and nothing else changes |
| TileRendering.TiledImage.Move | JavaScript/TileRendering/scripts/Components/TiledImage.js:39-50 | each viewport coordinate becomes the clamped sum of the old coordinate and `vector * distance`; only the viewport changes |
| TileRendering.ClampedMove | JavaScript/TileRendering/scripts/Components/TiledImage.js:40-49 | after `move` a coordinate is at most `size - 1`. When `size >= 1` it is the plain sum if that lies in `[0, size - 1]`, exactly `size - 1` on overshoot and exactly 0 on undershoot. When `size < 1` it is `size - 1` |
| TileRendering.ClampedMoveMonotone | JavaScript/TileRendering/scripts/Components/TiledImage.js:39-50 | from an in-bounds viewport, a non-negative step never decreases the coordinate and a non-positive one never increases it; a zero step leaves it unchanged |
| SimpleGame.CrossProduct2d | JavaScript/SimpleGame/scripts/Components/TrackingMissile.js:47-49 | the 2D cross product is 0 for equal vectors and not negative when the second vector is the first turned a quarter turn counter-clockwise |
| SimpleGame.WithinTolerance | JavaScript/SimpleGame/scripts/Components/TrackingMissile.js:108 | a value is within the tolerance of a test value exactly when it lies strictly between `test - tolerance` and `test + tolerance` |
| SimpleGame.CrossProductAntisymmetric | JavaScript/SimpleGame/scripts/Components/TrackingMissile.js:47-49 | `cp(a, b) == -cp(b, a)` and `cp(v, v) == 0` |
| SimpleGame.NewRotation | JavaScript/SimpleGame/scripts/Components/TrackingMissile.js:109-121 | the turn is exactly the smaller of the angle to the target and the budget `rotateRate * elapsedTime`. It increases the rotation when the cross product is positive and decreases it otherwise |
| SimpleGame.Turn | JavaScript/SimpleGame/scripts/Components/TrackingMissile.js:108-121 | no turn happens exactly when the angle is within 0.01 of 0 |
| SimpleGame.Steer | JavaScript/SimpleGame/scripts/Components/TrackingMissile.js:107-133 | the momentum is kept when the angle to the target is within the tolerance of 0; otherwise it becomes the heading for the new rotation |
| SimpleGame.TrackingMissile.constructor | JavaScript/SimpleGame/scripts/Components/TrackingMissile.js:186-189 | a new missile has `alive == 0` and the fixed size 0.04 by 0.01 |
| SimpleGame.TrackingMissile.Update | JavaScript/SimpleGame/scripts/Components/TrackingMissile.js:99-144 | `alive` grows by `elapsedTime`; the result is true exactly when the new `alive < lifetime`; once expired, further non-negative steps keep it expired; when false, centre and momentum are untouched; when true, the momentum is re-aimed (or kept within the tolerance) and then the centre advances by `momentum * elapsedTime` |
| SimpleGame.TrackingMissile.BoundingRadius | JavaScript/SimpleGame/scripts/Components/TrackingMissile.js:31 | the bounding-circle radius is half the width 0.04, i.e. 0.02 |
| SimpleGame.TrackingMissile.Collide | JavaScript/SimpleGame/scripts/Components/TrackingMissile.js:172-184 | `collide` always answers false, whether or not an entity was hit |

## Left out

- The quad tree (`QuadTree`, `insert`, `intersects`, `root`) is not part of this model. `update` builds it from the moved circle states, recorded in `quadTree`. Its query is a function parameter with a contract: a returned partner is another circle that overlaps now. "None" is allowed only when the tree is up to date and no circle overlaps. Node layout, subdivision and depth are not modelled.
- The `Circle` component is not part of this model.
  - Its `update` is taken to be `center += direction * elapsedTime`.
  - Its `intersects` is taken to be "distance between centres below the sum of the radii", compared squared.
  - The tree holds object references; the model uses circle indices, and partners are distinct circles of the same list.
- Random generation in `initialize` is left out: `Random.nextDouble`, `nextCircleVector` and `nextGaussian`. The draws are a given sequence of candidates. Seeding also stops when that sequence runs out, whereas the source keeps drawing and need not terminate.
- QuadTreeDemo.Bounce: the separation loop runs at most `fuel` steps, because the source's loop has no bound. When the cap is reached the circles may still overlap. The contract says so instead of promising separation.
- QuadTreeDemo.Bounce: requires the two radii not to sum to 0. The source would divide by zero there. Seeded circles never have such radii.
- TileRendering.TiledImage.TilesX: requires a non-zero tile size. JavaScript's Infinity/NaN result is not modelled. TilesY likewise.
- `Demo.utilities.math.testTolerance` is not part of this model. It is taken to be `|value - test| < tolerance`.
- The missile's trigonometry is left out: `atan2`, `acos`, `cos`, `sin`, `sqrt`, the NaN guard of `computeAngle`, and the renormalisation of the momentum's magnitude. They are given as the functions of a `Trigonometry` value. The target's centre is a parameter of `update`.
- `Demo.utilities.math.circleCircleIntersect` is not part of this model, so the missile's `intersects` is left out. So are `vicinity`, which does nothing, and the getters that only return fields.
- Rendering and sprites are left out: `renderQuadTree`, both `render` functions, `Sprite`, `Sprite.update`, `ParticleSystem.createEffectExplosion` (the explosion started by `collide`) and `Demo.renderer`.
- The TileRendering demo model (input handlers and render calls) is left out.
- Floating point is left out: all quantities are mathematical reals, so rounding, NaN and Infinity are not modelled.
