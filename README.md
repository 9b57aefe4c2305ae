# OBB collision and movement physics, modelled in Dafny

This project models the physics core of a small Unity scene. The scene has oriented
bounding boxes (the `OBB` component) and one movable body (the `Movement` component).

Each fixed step, every box runs three stages against every other box in the scene:

- **Separating-axis test.** It checks up to 15 candidate axes:
  - the three world axes of each box;
  - the non-zero cross product of each pair of axes, normalised.
- **Minimum translation vector (MTD).** If every candidate axis has positive overlap, the MTD is the first axis of smallest overlap, scaled by that overlap. Otherwise it is zero. This includes boxes that only touch: an axis with zero overlap still passes the separating-axis test, so the boxes collide with a zero MTD.
- **Contact response.** It resolves the contact in two parts:
  - a restitution impulse: it changes both velocities along the normalised MTD;
  - a positional correction: it moves each box by its own mass share of the MTD.

The movable body integrates its velocity with three terms: an input term, drag and friction. It then advances its transform's position.

Everything is over `real`. Vectors are the `Geometry.Vec3` datatype.

**Modules**

- **Geometry**: vector algebra.
- **Transforms**: the part of a Unity `Transform` that is read and written. It is a class with a mutable `position`.
- **Sat**: the specification functions of the separating-axis test and the MTD scan:
  - projection intervals;
  - candidate axes in test order;
  - the `Colliding` predicate;
  - the `MtdFold` scan.
- **Contact**: the contact response as the pure function `Respond`, with its physical laws.
- **Collision**: the `Obb` class and the imperative methods of `Assets/OBB.cs`. Each method is proved against a function in Sat or Contact.
- **Integrator**: the `Movement` class and the linear part of `FixedUpdate`, with its closed form.

Two behaviours of the code are worth stating:

- **Positional correction.** The code moves each body by `mtd * ownMass / totalMass`, so the heavier body moves farther. An inverse-mass correction would move the lighter body farther. `Contact.DisplacementsInMassRatio` states the ratio as the code computes it.
- **MTD direction.** The MTD points along whichever candidate axis wins, with that axis's own sign. It is not oriented from one box toward the other. So `MTD(A, B) == -MTD(B, A)` is not claimed.

## Model

| member | source | states |
|---|---|---|
| Collision.CornerSigns | Assets/OBB.cs:305-312 | definition: the sign table of the eight corners, `corners[i]` taking `-` or `+` on each of x, y and z as the source writes them; its laws are CornerSignsBijective, CornerIndex and GetOBBVertices |
| Collision.GetOBBVertices | Assets/OBB.cs:299-315 | exactly eight corners; corner `i` is `center + (±ex, ±ey, ±ez)` with the sign pattern of `CornerSigns(i)`; corners 0–3 lie at `y = center.y - ey`; corner `i + 4` is corner `i` with the y sign flipped |
| Collision.CornerIndex | Assets/OBB.cs:305-312 | every one of the eight sign combinations is the sign pattern of some corner index in `[0, 8)` |
| Collision.CornerSignsBijective | Assets/OBB.cs:305-312 | no two corners share a sign pattern, and `CornerIndex` inverts `CornerSigns`, so each combination occurs exactly once |
| Collision.CornersDistinct | Assets/OBB.cs:299-315 | with positive extents the eight corners are pairwise distinct points |
| Collision.ProjectOnAxis | Assets/OBB.cs:170-185 | the min/max accumulator loop over a non-empty vertex array ends with the minimum and maximum of `Dot(v, axis)`, and `min <= max` |
| Collision.GetOverlapOnAxis | Assets/OBB.cs:167-189 | the result is `min(maxA - minB, maxB - minA)` of the two projection intervals; the same value results with the two vertex sets swapped |
| Collision.OverlapOnAxis | Assets/OBB.cs:206-228 | the result is `maxA >= minB && maxB >= minA`; it is true exactly when GetOverlapOnAxis is `>= 0` |
| Sat.OverlapDepth | Assets/OBB.cs:188 | the overlap depth is the smaller of the two gaps `maxA - minB` and `maxB - minA`: at most both, and equal to one |
| Sat.MinProj | Assets/OBB.cs:173-185 | definition: the `Mathf.Min` accumulator over `Dot(v, axis)`, folded over the vertex list in order from its first vertex; its laws are MinProjIsMinimum and ProjectionIntervalOrdered |
| Sat.MaxProj | Assets/OBB.cs:173-185 | definition: the `Mathf.Max` accumulator over `Dot(v, axis)`, folded over the vertex list in order from its first vertex; its laws are MaxProjIsMaximum and ProjectionIntervalOrdered |
| Sat.MinProjIsMinimum | Assets/OBB.cs:173-178 | the interval's lower end is at most every projection and equals one of them |
| Sat.MaxProjIsMaximum | Assets/OBB.cs:173-178 | the interval's upper end is at least every projection and equals one of them |
| Sat.Overlaps | Assets/OBB.cs:227 | the inclusive interval test holds exactly when the overlap depth is `>= 0` |
| Sat.ProjectionIntervalOrdered | Assets/OBB.cs:170-185 | the projection interval of a non-empty vertex set is never empty (`min <= max`) |
| Sat.OverlapsIffIntervalsIntersect | Assets/OBB.cs:206-228 | OverlapOnAxis holds exactly when some real point lies in both projection intervals |
| Sat.OverlapSymmetric | Assets/OBB.cs:167-228 | overlap depth and overlap test do not depend on which vertex set comes first |
| Sat.ProjectionsUnderNegatedAxis | Assets/OBB.cs:175-185 | projecting on `-axis` maps the interval `[min, max]` to `[-max, -min]` |
| Sat.OverlapUnderNegatedAxis | Assets/OBB.cs:175-188 | GetOverlapOnAxis and OverlapOnAxis give the same result on `-axis` as on `axis` |
| Sat.CrossCandidates | Assets/OBB.cs:80-85 | definition: for one `axis1`, the normalised cross product with each entry of `axes2` in inner-loop order, skipping zero ones; its laws are CrossCandidatesMembers and CrossCandidatesPrefix |
| Sat.CrossAxes | Assets/OBB.cs:78-86 | definition: the cross candidates of each entry of `axes1` in outer-loop order, concatenated; its laws are CrossAxesSound, CrossAxesComplete, CrossAxesMembers and CrossAxesPrefix |
| Sat.CandidateAxes | Assets/OBB.cs:66-86 | definition: every axis in the order both methods test them: `axes1`, then `axes2`, then the cross axes; its laws are CollidingIffAllCandidatesOverlap, MtdZeroOnSeparatingCandidate and MtdIsFirstMinimum, whose "first axis" is first in this order |
| Sat.CrossCandidatesMembers | Assets/OBB.cs:80-85 | an axis is tested in the inner cross loop of one `axis1` exactly when it is the normalised non-zero cross product of `axis1` with some entry of `axes2` |
| Sat.CrossAxesSound | Assets/OBB.cs:78-86 | every cross axis tested is the normalised non-zero cross product of an entry of `axes1` with an entry of `axes2` |
| Sat.CrossAxesComplete | Assets/OBB.cs:78-86 | every normalised non-zero cross product of an entry of `axes1` with an entry of `axes2` is tested |
| Sat.CrossAxesMembers | Assets/OBB.cs:78-86 | the cross axes tested are exactly the normalised non-zero cross products of an entry of `axes1` with an entry of `axes2`; zero cross products are skipped |
| Sat.CrossCandidatesPrefix | Assets/OBB.cs:146-161 | the cross candidates of a prefix of `axes2` are a prefix of those of all of `axes2` (the loop tests in order) |
| Sat.CrossAxesPrefix | Assets/OBB.cs:144-162 | the cross candidates of a prefix of `axes1` are a prefix of those of all of `axes1` |
| Sat.Colliding | Assets/OBB.cs:66-89 | IsCollidingWith's decision: every axis of both boxes overlaps, and so does the normalised cross product of every pair of axes whose cross product is non-zero |
| Sat.CollidingIffAllCandidatesOverlap | Assets/OBB.cs:66-89 | IsCollidingWith's decision holds exactly when every candidate axis overlaps: the axes of both boxes and every normalised non-zero cross product |
| Sat.CollidingOneWay | Assets/OBB.cs:66-89 | when `normalize` commutes with negation, a collision of `a` with `b` (axes `axes1`, `axes2`) is a collision of `b` with `a` (axes `axes2`, `axes1`): the overlap test is symmetric, and each swapped cross axis is the negated original |
| Sat.CollidingSymmetric | Assets/OBB.cs:66-89 | when `normalize` commutes with negation, IsCollidingWith's decision is the same in both orders of the boxes |
| Collision.SeparatingAxisTest | Assets/OBB.cs:66-89 | the three early-exit loops return true exactly when `Colliding` holds; a zero cross product is skipped, never failed |
| Collision.Obb.IsCollidingWith | Assets/OBB.cs:43-90 | the result is `Colliding` on the two boxes' world vertices and world axes; when `normalize` commutes with negation, it is also `Colliding` with the boxes swapped, so `a.IsCollidingWith(b) == b.IsCollidingWith(a)` |
| Sat.MtdStep | Assets/OBB.cs:120-128 | one axis of the scan returns early exactly when the scan had returned or the overlap is `<= 0`; otherwise the kept overlap is at most this axis's overlap and at most the one kept before |
| Sat.MtdFold | Assets/OBB.cs:118-162 | a scan that has not returned early saw only positive overlaps, and its kept overlap is at most the overlap of every axis scanned and at most the one it started from; a returned scan stays returned |
| Sat.FoldStopsAt | Assets/OBB.cs:121-122 | a candidate axis with overlap `<= 0` makes the scan return early, whatever came before it |
| Sat.MtdFoldStopped | Assets/OBB.cs:121-122 | once the scan has returned, later axes change nothing |
| Sat.MtdFoldAppend | Assets/OBB.cs:118-162 | scanning `p + q` is scanning `p` and then continuing with `q` from that state (the three loops share `minOverlap` and `mtd`) |
| Sat.MtdFoldStoppedPrefix | Assets/OBB.cs:118-162 | an early return within a prefix of the axes is an early return for all of them |
| Sat.MtdZeroOnNonPositive | Assets/OBB.cs:121-122 | if any axis in the list has overlap `<= 0`, CalculateMTD returns the zero vector |
| Sat.MtdZeroOnSeparatingCandidate | Assets/OBB.cs:118-164 | if any candidate axis of the two boxes has overlap `<= 0`, the MTD is zero |
| Sat.MtdZeroOnSeparatingCross | Assets/OBB.cs:148-153 | a non-zero cross product whose normalised axis has overlap `<= 0` makes the MTD zero |
| Sat.FirstArgminExtend | Assets/OBB.cs:124-128 | the strict `<` moves the kept position to a new last element only when that element is strictly smaller, so ties keep the earlier position |
| Sat.FoldTracksFirstArgmin | Assets/OBB.cs:118-162 | with all overlaps positive, the scan holds the smallest overlap and `axis * overlap` for the first axis that attains it |
| Sat.MtdIsFirstMinimum | Assets/OBB.cs:92-165 | with all overlaps positive, CalculateMTD returns `a * o`, where `o` is the minimum overlap over the tested axes and `a` is the first axis, in test order, that attains it |
| Sat.MtdNonZeroImpliesColliding | Assets/OBB.cs:92-165 | a non-zero MTD implies IsCollidingWith's decision on the same vertices and axes |
| Sat.TouchingAxisZeroesMtd | Assets/OBB.cs:121-122 | a candidate axis with overlap exactly 0 passes the inclusive overlap test of line 227 and still makes the MTD zero, so colliding boxes that only touch get a zero MTD |
| Sat.TouchingCollidesWithZeroMtd | Assets/OBB.cs:121-122 | the converse fails: two sets that touch at overlap 0 collide (the test at line 227 is inclusive) and still get a zero MTD |
| Sat.MtdOver | Assets/OBB.cs:118-164 | definition: the zero vector if the scan from the start state returned early, otherwise the `mtd` it kept; its laws are MtdZeroOnNonPositive and MtdIsFirstMinimum |
| Sat.Mtd | Assets/OBB.cs:92-165 | definition: what CalculateMTD returns, MtdOver of the CandidateAxes of the two boxes; its laws are MtdZeroOnSeparatingCandidate, MtdZeroOnSeparatingCross, MtdNonZeroImpliesColliding and TouchingAxisZeroesMtd |
| Collision.TestAxis | Assets/OBB.cs:120-128 | one axis of the MTD loop: it reports an early return exactly when the overlap is `<= 0`; otherwise its new state is `MtdStep` of the entry state |
| Collision.ScanFaceAxes | Assets/OBB.cs:118-141 | the loop over one box's axes, started from any scan state, ends in the state `MtdFold` reaches, or returns at the first overlap `<= 0` |
| Collision.ScanCrossRow | Assets/OBB.cs:146-161 | the inner cross loop for one `axis1` agrees with the fold over its cross candidates |
| Collision.ScanCrossAxes | Assets/OBB.cs:144-162 | the nested cross loops agree with the fold over all cross candidates |
| Collision.MinimumTranslation | Assets/OBB.cs:117-164 | the three loops with early returns compute `Mtd` over the candidate axes in order |
| Collision.Obb.CalculateMTD | Assets/OBB.cs:92-165 | the result is `Mtd` of the two boxes' world vertices and axes; when it is non-zero the boxes collide |
| Transforms.Place | Assets/OBB.cs:200 | definition: `MultiplyPoint3x4` of an unparented transform: the origin plus each local coordinate, times the scale on that axis, along the world axis `right`, `up` or `forward`; its laws are PlaceAll and Transform.ToWorld |
| Transforms.Transform.LocalToWorld | Assets/OBB.cs:194-200 | definition: Place with the transform's own orientation, scale and position; its law is Transform.ToWorld |
| Transforms.PlaceAll | Assets/OBB.cs:194-201 | placing a vertex list keeps its length and places each vertex through the unparented local-to-world map |
| Transforms.Transform.ToWorld | Assets/OBB.cs:198-201 | the map has the same length and sends each vertex through `localToWorld` |
| Collision.Obb.Axes | Assets/OBB.cs:46-59 | a box's three world axes, `transform.right`, `up` and `forward`, in that order |
| Collision.Obb.LocalCorners | Assets/OBB.cs:195-196 | the local corners of `Bounds(centerOffset, size)` are eight points |
| Collision.Obb.WorldVerticesAt | Assets/OBB.cs:194-201 | the box's eight world vertices when its transform stands at a given position |
| Collision.Obb.WorldVertices | Assets/OBB.cs:194-196 | a box has eight world-space vertices: the corners of `Bounds(centerOffset, size)`, whose extents are `size / 2` |
| Collision.Obb.GetWorldSpaceVertices | Assets/OBB.cs:192-204 | the freshly built array, overwritten in place, holds the world images of the eight local corners |
| Contact.VelocityAlongNormal | Assets/OBB.cs:236-237 | definition: `Dot(v2 - v1, normal)`, the relative velocity along the normal; its laws are RelativeNormalAfterKicks and RestitutionLaw |
| Contact.ImpulseScalar | Assets/OBB.cs:246-247 | definition: `-(1 + e) * vn / (1 / m1 + 1 / m2)`; its laws are ImpulseShares, MomentumConserved and RestitutionLaw |
| Contact.Respond | Assets/OBB.cs:233-257 | the contact response as a function of the two motions, masses, restitutions and MTD (no return when the bodies separate, else impulse and positional correction); its laws are the Contact lemmas below |
| Contact.ImpulseAlongNormal | Assets/OBB.cs:246-252 | the velocity changes are `-(j / m1) * n` and `+(j / m2) * n` for the impulse scalar `j`, and zero when the bodies separate |
| Contact.SeparatingBodiesUnchanged | Assets/OBB.cs:237-240 | if `velocityAlongNormal > 0`, both bodies' velocities and positions are unchanged |
| Contact.MomentumOfKicks | Assets/OBB.cs:250-252 | equal and opposite impulses leave `m1 * v1 + m2 * v2` unchanged |
| Contact.MomentumConserved | Assets/OBB.cs:236-252 | the contact response preserves `m1 * v1 + m2 * v2` |
| Contact.ImpulseShares | Assets/OBB.cs:246-252 | the velocity changes of the two bodies along the normal add up to `-(1 + e) * velocityAlongNormal` |
| Contact.RelativeNormalAfterKicks | Assets/OBB.cs:236-237 | along a unit normal, kicks of `s` and `t` raise the relative normal velocity by `s + t` |
| Contact.RestitutionLaw | Assets/OBB.cs:236-252 | with a unit normal, the relative normal velocity after the impulse is `-min(e1, e2)` times the one before |
| Contact.TangentialVelocityUnchanged | Assets/OBB.cs:250-252 | velocity components perpendicular to the normal are unchanged |
| Contact.EqualMassElasticExchange | Assets/OBB.cs:236-252 | with equal masses and restitution 1, the two bodies exchange their normal velocities |
| Contact.SeparationIsMtd | Assets/OBB.cs:255-257 | the second body's position relative to the first changes by exactly `mtd` |
| Contact.CorrectionShares | Assets/OBB.cs:255-257 | `this` moves by `-mtd * m1 / (m1 + m2)` and `other` by `+mtd * m2 / (m1 + m2)` |
| Contact.DisplacementsInMassRatio | Assets/OBB.cs:255-257 | the two displacements are opposite, in the ratio `m1 : m2`, so the heavier body moves farther |
| Contact.ZeroMtdChangesNothing | Assets/OBB.cs:233-257 | a zero MTD, whose normalisation is zero, changes neither body |
| Collision.Obb.OnCollisionDetected | Assets/OBB.cs:230-258 | the two bodies' new velocities and positions are `Respond` applied to their old ones; nothing else changes |
| Collision.Obb.VisitBody | Assets/OBB.cs:35-37 | for another body, the contact is resolved exactly when the boxes collide, using the MTD of the geometry at that moment; the new state is the contact response, or equals the old state when nothing is resolved; every other body whose transform is neither of the two keeps its motion, vertices and axes |
| Collision.ChainedFromSnoc | Assets/OBB.cs:32-40 | a visit that starts from the motion the logged visits left extends a chained log, and this body's motion after it is the visit's `after` (or unchanged for a skipped entry) |
| Collision.Obb.LogOfSnoc | Assets/OBB.cs:32-40 | a visit of the next entry that is skipped exactly at this body, starts where the log left off, saw the other body as it was at the start, and agrees with detector and response, extends the record of the loop by one |
| Collision.Obb.VisitEntry | Assets/OBB.cs:32-40 | one iteration of the loop: entry `k` is skipped exactly when it is this body; otherwise it is tested on this body's current motion and the other body's starting state, the two bodies end as the visit's `after`, and every other entry is left as it was |
| Collision.Obb.CheckForCollisions | Assets/OBB.cs:31-41 | one visit per list entry, in list order; an entry is skipped exactly when it is this body; the first tested visit starts from this body's initial motion and each later one from where the previous tested visit left it; each sees the other body's starting motion, vertices and axes and this body's vertices at its current position; it is resolved exactly when IsCollidingWith holds, with CalculateMTD's vector, and changes the two bodies as OnCollisionDetected does; at the end this body is where the last tested visit left it, and every other body is at its visit's `after` |
| Integrator.InputStep | Assets/Movement.cs:28-31 | the input term adds exactly `objectMove * dt`, whatever the (non-zero) mass |
| Integrator.DragStep | Assets/Movement.cs:34 | drag multiplies the velocity by `1 - drag * dt` |
| Integrator.FrictionStep | Assets/Movement.cs:37-38 | friction multiplies the velocity by `1 - friction * Mass * dt` |
| Integrator.Integrate | Assets/Movement.cs:28-41 | the linear part of FixedUpdate as a function of the old motion: input term, drag, friction, then the position step; its laws are the Integrator lemmas below |
| Integrator.IntegrateClosedForm | Assets/Movement.cs:28-41 | the new velocity is the input-updated velocity scaled by both damping factors; the position advances by the new velocity times `objectSpeed * dt` |
| Integrator.ZeroStepChangesNothing | Assets/Movement.cs:31-41 | with `dt == 0`, velocity and position are unchanged |
| Integrator.ShrinkVec | Assets/Movement.cs:34-38 | a damping factor in `[0, 1]` grows no velocity component's magnitude |
| Integrator.DampingNeverAccelerates | Assets/Movement.cs:34-38 | with no input and both damping factors `drag * dt` and `friction * Mass * dt` in `[0, 1]`, no velocity component grows in magnitude |
| Integrator.Movement.FixedUpdate | Assets/Movement.cs:25-41 | the three in-place updates of `velocity`, then of `transform.position`, yield `Integrate` of the old motion |

## Left out

- Floating point: the model is over exact reals, so rounding, NaN and infinity are absent.
- Sentinel start values: `float.MaxValue` and `float.MinValue` (Assets/OBB.cs:94, 170-171, 209-210) are not modelled.
  - The projection loops start from the first vertex instead.
  - The MTD scan replaces the `minOverlap = float.MaxValue` start with a `found` flag. This gives the same choices for every overlap below `float.MaxValue`.
- Collision.ProjectOnAxis requires a non-empty vertex array, because it starts from the first vertex. The same holds for GetOverlapOnAxis, OverlapOnAxis, SeparatingAxisTest and MinimumTranslation. Every caller passes the eight box corners.
- Collision.Obb.OnCollisionDetected requires positive masses, as do CheckForCollisions and VisitBody. The source divides by them, and a zero mass gives infinities.
- Integrator.Movement.FixedUpdate requires `mass != 0.0`, as do Integrator.Integrate and Integrator.InputStep. With mass 0 the source divides by zero at Assets/Movement.cs:31, and `velocity` becomes infinite or NaN.
- Sat.CollidingOneWay, Sat.CollidingSymmetric and the swapped-order ensures of Collision.Obb.IsCollidingWith require `normalize` to commute with negation (`Sat.OddMap`). Unity's `normalized` divides by the magnitude, or returns zero below `1e-5`, so it commutes with negation.
- Collision.Obb.OnCollisionDetected requires `this != other` and distinct transforms, as do CheckForCollisions and VisitBody. `this != other` is the loop's own test (Assets/OBB.cs:35). Distinct transforms exclude two OBB components on one GameObject: `Component.transform` is the GameObject's single Transform, so such a pair passes `other != this`. The source then moves that shared transform twice at Assets/OBB.cs:256-257, a net move of `mtd * (m2 - m1) / (m1 + m2)`. The model does not cover that case.
- Collision.Obb.CheckForCollisions requires the body list to hold each box once, with pairwise distinct transforms. `FindObjectsOfType<OBB>()` (Assets/OBB.cs:18) lists each component once; distinct transforms exclude, as above, two boxes on one GameObject.
- Sat.CrossCandidates tests a cross product for being exactly zero, and `normalize` is an arbitrary parameter. Unity's `Vector3 !=` (Assets/OBB.cs:83, 149) is a tolerance test: two vectors are equal when the squared magnitude of their difference is below `1e-10`. `Vector3.normalized` returns zero below magnitude `1e-5`. So for nearly parallel axes the source skips the cross product, while the model tests the axis `normalize` gives. Such an axis can have zero overlap, and the model then returns a zero MTD.
- `Vector3.normalized` needs a square root. It is the parameter `normalize` of every operation that uses it (Assets/OBB.cs:83, 151, 158, 233).
- The world axes `transform.right/up/forward` are given fields of the `Transform` class, not derived from a rotation.
- `localToWorldMatrix.MultiplyPoint3x4` (Assets/OBB.cs:194-200) is modelled as an unparented transform: scale, rotate onto the world axes, translate. Hierarchies of transforms are not modelled.
- The rotation part of FixedUpdate (`Quaternion.Euler`, `RotateTowards`, Assets/Movement.cs:43-48) is not modelled.
- Discovery of the boxes by `Awake`/`FindObjectsOfType` into the static `allOBBs` (Assets/OBB.cs:13-19) is not modelled. The body list is a parameter of CheckForCollisions.
- The engine hooks (`FixedUpdate`, `Update`) and their ordering across bodies are not modelled. Each box runs its own CheckForCollisions, so a colliding pair is resolved from both sides in one tick.
- `Debug.Log` (Assets/OBB.cs:38) is not modelled, and neither is the gizmo drawing in `OnDrawGizmosSelected`/`DrawOBB` (Assets/OBB.cs:270-297).
- `ApplyMomentum` and `angularVelocity` (Assets/OBB.cs:261-268) are never called, so they are left out.
- Input reading in `Movement.Update` (Assets/Movement.cs:52-57) is not modelled. `objectMove` is a field set from outside.
- The mass lookup in `Movement.Start` (Assets/Movement.cs:20-23) is not modelled. `mass` is a field.
- Assets/Follow.cs (camera follow, pause menu, scene reload) is not part of this model.
