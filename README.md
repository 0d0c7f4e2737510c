# Collision shapes, vector helpers and scene-graph bookkeeping, in Dafny

This project models three pieces of a WebGL walking game's logic and proves properties of
them.

- **The collision-shape library** (`Collision.js`). There are four shapes:
  - `NoCollision`;
  - a sphere, given by its centre and radius;
  - a vertical cylinder, given by the centre of its bottom face, its radius and its height;
  - an axis-aligned parallelepiped, given by the centre of its bottom face, its half-widths
    along x and z, and its height.

  Each shape answers the same queries:
  - a ray test (`checkRayIntersection`);
  - the player collision test (`checkCollision`). It samples 11 points from the player's feet
    up to the eyes and reports the first one within `EPSILON_FOR_DISTANCE` of the shape,
    labelled head, body or feet;
  - the distance of a point;
  - the coarse `isFarAway` pre-filter;
  - the contact response (`getCollisionForce` / `getCollisionVelocity`). It removes the part of
    a force or a velocity that points into the touched surface.
- **The vector helpers** of `lib/otherUtils.js`.
- **Two operations of `NodeC.js`.**
  - `setParent` moves a node from one parent's children list to another's.
  - `classT` / `searchClass` find a node's class by a binary search on the constructor name.

## Layout

- `wrappers.dfy`: module `Wrappers`, the `Option` type.
- `other_utils.dfy`: module `OtherUtils`.
  - `Vec3` and the vector helpers.
  - `copyArray` as a method with a loop.
  - The facts of real arithmetic the proofs need.
- `collision.dfy`: module `Collision`.
  - The constants, `PointType`, and the `Shape` datatype with one variant per class.
  - Every pure query as a function on `Shape`: the distances, the ray tests, the sample scan as
    the specification `BodyScan`, the contact response, and `isFarAway`.
  - The lemmas about all of these.
- `collision_objects.dfy`: module `CollisionObjects`.
  - The three classes with mutable fields: `SphereCollision`, `CylinderCollision` and
    `ParallelepipedCollision`.
  - The two loops of the source: the ray march, and the three sample loops of
    `checkCollision`. They are written as methods that write the out-arrays, and each is proved
    against the functions of `Collision`.
  - The position is an `array<real>` of three entries. `Value()` gives the `Shape` an object
    stands for, and the pure queries of a class are the `Collision` functions applied to
    `Value()`.
- `collision_tests.dfy`: module `CollisionTests`, the outcomes that the unit tests of
  `tests/Collision.spec.js` expect, derived from the model.
- `lists.dfy`: module `Lists`, `indexOf` and the one-element `splice` that `setParent` uses.
- `node.dfy`: module `Nodes`, class `NodeC` with its `children` and `parent` fields and
  `setParent`.
- `class_names.dfy`: module `ClassNames`.
  - `localeCompare` on class names.
  - The array of sixteen class names that `classT` searches, proved sorted.
- `class_lookup.dfy`: module `ClassLookup`, `searchClass` as written and guarded, and `classT`.

`Math.sqrt` is an input. Every operation that takes a square root receives a function `sqrt`
with `IsSqrt(sqrt)`. For every `a >= 0`, such a function gives a non-negative root whose square
is `a`.

Numbers are `real`. The source's `number`s are IEEE doubles, so the model is exact arithmetic
where the source rounds.

## Model

| member | source | states |
|---|---|---|
| OtherUtils.TakeDiagonal2 | lib/otherUtils.js:55-58 | the hypotenuse is non-negative and its square is the sum of the squared legs |
| OtherUtils.TakeDiagonal3 | lib/otherUtils.js:67-70 | the length is non-negative and its square is the sum of the three squared arguments |
| OtherUtils.DiagonalsIgnoreSigns | lib/otherUtils.js:55-70 | both diagonals are unchanged under every change of sign of their arguments: all three patterns for takeDiagonal2 and all seven for takeDiagonal3 |
| OtherUtils.TakeDiagonal2ThreeFour | tests/otherUtils.spec.js:62-65 | takeDiagonal2(3, 4) is 5 |
| OtherUtils.DiagonalBoundsLegs | lib/otherUtils.js:55-58 | the hypotenuse is at least as long as each leg |
| OtherUtils.CopyMatrix | lib/otherUtils.js:10-15 | the copy holds exactly the first sixteen entries of the matrix |
| OtherUtils.CopyArray | lib/otherUtils.js:40-47 | the copy is a fresh array with the same length and the same elements, the empty array included |
| OtherUtils.DotProduct | lib/otherUtils.js:78-80 | no contract of its own: DotProductSymmetric, DotProductSelf and DotProductExample state what it means |
| OtherUtils.DotProductSymmetric | lib/otherUtils.js:78-80 | the dot product does not depend on the order of its arguments |
| OtherUtils.DotProductSelf | lib/otherUtils.js:78-80 | a vector's dot product with itself is its squared length, which is non-negative |
| OtherUtils.DotProductExample | tests/otherUtils.spec.js:83-89 | [4, 7, -1] . [0.5, -2, 6] is -18 |
| OtherUtils.ProjectionOnVector2 | lib/otherUtils.js:88-94 | for a non-zero w, the projection is w scaled by dot(v, w) / \|w\|^2; the square of the root of \|w\|^2 is \|w\|^2 again |
| OtherUtils.ProjectionRestOrthogonal | lib/otherUtils.js:88-94 | v minus its projection on w is orthogonal to w |
| OtherUtils.ProjectionIdempotent | lib/otherUtils.js:88-94 | projecting the projection on w again gives it back |
| OtherUtils.ProjectionParallel | lib/otherUtils.js:88-94 | the projection is a multiple of w |
| OtherUtils.Max | lib/otherUtils.js:102-107 | the result is at least both arguments and equals one of them: value1 when it is strictly larger, value2 otherwise |
| OtherUtils.Abs | lib/otherUtils.js:114-119 | the result is non-negative, equals the argument or its negation, and has the argument's square |
| Collision.SphereDistance | Collision.js:547-558 | the distance is non-negative; for a non-negative radius it is zero exactly on the closed ball, and a positive distance plus the radius is the distance from the centre |
| Collision.CylinderDistance | Collision.js:940-970 | the distance is non-negative and is the exact euclidean distance to the solid cylinder: its square is the squared horizontal gap to the disc plus the squared vertical gap to [bottom, top] |
| Collision.SphereCylinderDistance | Collision.js:567-600 | getCylinderDistance is the cylinder distance of the vertical cylinder of the sphere's radius spanning centre.y - r to centre.y + r |
| Collision.BoxDistanceOverBelow | Collision.js:1332-1421 | no contract of its own: BoxOverBelowIsEuclidean proves every one of its columns exact |
| Collision.BoxDistanceSameLevel | Collision.js:1431-1479 | no contract of its own: BoxSameLevelIsEuclidean proves every one of its columns exact |
| Collision.BoxDistance | Collision.js:1309-1323 | no contract of its own: BoxDistanceIsEuclidean and BoxDistanceZeroIffInside state its meaning |
| Collision.GetDistance | Collision.js:121-123 | getDistance of each class (Collision.js:547-558, 940-970, 1309-1323) and 100000 for NoCollision; no contract of its own: DistanceZeroIffInside and NoCollisionIsInert state its meaning |
| Collision.IsPointInside | Collision.js:740-748 | the cylinder's _isPointInside, with the box's at Collision.js:1118-1126 and the closed ball for the sphere; no contract of its own: CylinderDistanceZeroIffInside, BoxDistanceZeroIffInside and DistanceZeroIffInside tie it to the distances |
| Collision.BoxOverBelowIsEuclidean | Collision.js:1332-1421 | over or below the box, each of the nine columns of _getDistanceOverBelow gives the exact euclidean distance to the box |
| Collision.BoxSameLevelIsEuclidean | Collision.js:1431-1479 | level with the box, each column of _getDistanceSameLevel gives the exact euclidean distance, zero inside |
| Collision.BoxDistanceIsEuclidean | Collision.js:1309-1323 | the box's getDistance is non-negative and its square is the sum of the squared gaps along the three axes |
| Collision.CylinderDistanceZeroIffInside | Collision.js:940-970 | the cylinder's distance is zero exactly when _isPointInside holds |
| Collision.BoxDistanceZeroIffInside | Collision.js:1309-1323 | the box's distance is zero exactly when _isPointInside holds |
| Collision.DistanceZeroIffInside | Collision.js:121-123 | every shape with well-formed sizes reports a non-negative distance, and zero exactly for the points of its solid |
| Collision.SphereRayIntersection | Collision.js:328-356 | the sphere's checkRayIntersection; no contract of its own: SphereRayHitIsSound, SphereRayHitIsComplete, SphereRayDistanceBound and SphereRayHeadOn state its meaning |
| Collision.RayIntersection | Collision.js:700-730 | checkRayIntersection of every class (the box's at Collision.js:1080-1110); no contract of its own: MarchedRayHitIsSound and NoCollisionIsInert state its meaning, and MarchRay and the classes' CheckRayIntersection methods are proved against it |
| Collision.FirstInsideSample | Collision.js:719-729 | the march over the probes; no contract of its own: FirstInsideSampleMiss, FirstInsideSampleHit and FirstInsideSampleSome state its meaning |
| Collision.SphereRayHitIsSound | Collision.js:328-356 | a sphere hit along a unit direction is backed by a point of the ray at t >= 0 inside the closed ball |
| Collision.SphereRayHitIsComplete | Collision.js:328-356 | a ray with a point at t >= 0 strictly inside the ball is reported as a hit |
| Collision.SphereRayDistanceBound | Collision.js:328-356 | the reported distance is at most how far along the ray any point of the ball lies |
| Collision.SphereRayHeadOn | Collision.js:328-356 | a ray aimed at the centre from one unit away hits a ball of radius r < 1 at distance 1 - r |
| Collision.FirstInsideSampleMiss | Collision.js:719-729 | the march from probe k misses exactly when none of the probes k .. 20 is inside |
| Collision.FirstInsideSampleHit | Collision.js:719-729 | when probe j is the first probe from k on that is inside, the march reports the distance from the origin to probe j |
| Collision.FirstInsideSampleSome | Collision.js:719-729 | a reported march hit is the distance to some probe that lies inside |
| Collision.HitDistanceIsParameter | Collision.js:719-729 | along a unit direction, the distance reported for the probe at t is t |
| Collision.SampleParameterRange | Collision.js:719-721 | every probe lies between 0 and MAX_DISTANCE along the ray |
| Collision.ScanEntry | Collision.js:369-411 | the sample tested k-th; no contract of its own: ScanOrderLayout states the layout it gives |
| Collision.ScanOrder | Collision.js:369-411 | the order in which checkCollision tests its samples; no contract of its own: ScanOrderLayout and HeadPointIsBodyPoint state its meaning |
| Collision.BodyScan | Collision.js:761-803 | checkCollision of every class (Collision.js:369-411, 1139-1181); no contract of its own: BodyScanFindsFirst and BodyScanPriority state its meaning, and ScanBody and the classes' CheckCollision methods are proved against it |
| Collision.MarchedRayHitIsSound | Collision.js:1080-1110 | a cylinder or box hit is a point of the solid on the ray, at most 3 along it, and for a unit direction the reported distance is exactly how far along it is |
| Collision.HeadPointIsBodyPoint | Collision.js:399-408 | the head samples, counted down from the eyes, are the two highest of the eleven body samples |
| Collision.ScanOrderLayout | Collision.js:369-411 | the scan tests each of the 11 samples exactly once, with its region: samples 2..8 as body first, then 0 and 1 as feet, then 10 and 9 as head |
| Collision.FirstContactFindsFirst | Collision.js:373-408 | the first-match search returns the first touching candidate, and nothing only when none touches |
| Collision.BodyScanFindsFirst | Collision.js:761-803 | checkCollision fails exactly when no sample is within EPSILON_FOR_DISTANCE; a reported contact is a touching sample with its region, and every sample tested before it misses |
| Collision.BodyScanPriority | Collision.js:1139-1181 | a feet contact means no body sample touches; a head contact means no body or feet sample touches |
| Collision.InsideNormalVector | Collision.js:535-540 | the normal is missing exactly on the vertical axis; otherwise it is a horizontal unit vector towards the axis |
| Collision.RemoveInwardPart | Collision.js:1279-1302 | v is kept when dot(v, n) <= 0; otherwise it loses its projection on n and ends orthogonal to n; the result never points into the surface |
| Collision.RoundFrontCollision | Collision.js:503-525 | the sphere's and the cylinder's lateral response keep the vertical component; they keep v on the axis and otherwise equal the removal along the inside normal |
| Collision.BoxFrontNormal | Collision.js:1279-1302 | the box normal is a unit vector chosen in priority order: -x beyond the right face, +x beyond the left, -z beyond the higher z face, +z beyond the lower, else straight down |
| Collision.RemoveAlongUnitNormal | Collision.js:1279-1302 | along a unit normal, the removal takes off exactly dot(v, n) times n |
| Collision.VerticalContact | Collision.js:1229-1267 | whether a contact counts as from above or below, with each class's thresholds (Collision.js:459-491, 851-884); no contract of its own: VerticalContactStopsVertical states what such a contact does |
| Collision.FrontNormal | Collision.js:851-884 | the inside normal of a side contact for each class; no contract of its own: InsideNormalVector and BoxFrontNormal state what it gives |
| Collision.GetCollisionVector | Collision.js:459-491 | _getCollisionVector of each class (Collision.js:851-884, 1229-1267); no contract of its own: VerticalContactStopsVertical, SideContactRemovesInwardPart and CollisionVectorIdempotent state its meaning |
| Collision.GetCollisionForce | Collision.js:425-427 | the correction applied to a force; no contract of its own: its meaning is GetCollisionVector's, and NoCollisionIsInert states NoCollision's zero |
| Collision.GetCollisionVelocity | Collision.js:441-443 | the correction applied to a velocity; no contract of its own: its meaning is GetCollisionVector's, and NoCollisionIsInert states NoCollision's zero |
| Collision.VerticalContactStopsVertical | Collision.js:1229-1267 | feet over the top stop only a downward velocity; a head under the bottom (the sphere's centre height) stops only an upward one; the same holds for all three classes |
| Collision.SideContactRemovesInwardPart | Collision.js:851-884 | a side contact keeps v when there is no normal or v does not point inside; otherwise it removes exactly the component along the unit normal |
| Collision.CollisionVectorIdempotent | Collision.js:425-491 | applying the contact response to its own result changes nothing |
| Collision.Extent | Collision.js:1489-1498 | the radius each class adds in isFarAway; no contract of its own: SolidWithinExtent proves every point of the solid lies within it |
| Collision.IsFarAway | Collision.js:610-619 | isFarAway of each class (the box's at Collision.js:1489-1498); no contract of its own: FarAwayIsSound proves it sound and NoCollisionIsInert covers NoCollision |
| Collision.SolidWithinExtent | Collision.js:1489-1498 | every point of a well-formed solid lies within Extent of the position: r, r + h or hx + hz + h |
| Collision.FarAwayIsSound | Collision.js:610-619 | when isFarAway holds, every point of the solid is farther from the point than bodyAllowance + extraAllowance |
| Collision.NoCollisionIsInert | Collision.js:157-263 | NoCollision is never hit or touched, reports distance 100000, is always far away, and its force and velocity responses are zero |
| CollisionObjects.MarchRay | Collision.js:700-730 | the cylinder and box ray test writes distance[0] exactly on a hit, with the value of the ray specification, and reports whether it hit |
| CollisionObjects.ProbeRay | Collision.js:719-729 | the loop over the 20 probes finds the first probe inside and writes its distance, or writes nothing |
| CollisionObjects.ScanBodySamples | Collision.js:373-383 | the body loop reports the first touching body sample, or leaves the out-arrays alone when none touches |
| CollisionObjects.ScanFeetSamples | Collision.js:386-395 | the feet loop does the same for the two feet samples |
| CollisionObjects.ScanHeadSamples | Collision.js:399-408 | the head loop does the same for the two head samples |
| CollisionObjects.ScanBody | Collision.js:761-803 | checkCollision returns true exactly when BodyScan finds a contact; it then writes that contact's point and region; otherwise it writes nothing |
| CollisionObjects.SphereCollision.constructor | Collision.js:290-296 | the centre is a copy of the given array, or the origin when none is given, and the radius is the given one |
| CollisionObjects.SphereCollision.SetPosition | Collision.js:303-305 | the centre becomes a fresh copy of the given position and the radius is kept |
| CollisionObjects.SphereCollision.SetScaling | Collision.js:625-627 | the radius is multiplied by scaling[0] and the centre is kept |
| CollisionObjects.SphereCollision.Copy | Collision.js:311-313 | the copy is an equal sphere with a position array of its own |
| CollisionObjects.SphereCollision.CheckRayIntersection | Collision.js:328-356 | true exactly on a hit, with distance[0] set to the specified distance; nothing is written on a miss |
| CollisionObjects.SphereCollision.CheckCollision | Collision.js:369-411 | the scan with getCylinderDistance, specified by BodyScan as in ScanBody |
| CollisionObjects.CylinderCollision.constructor | Collision.js:661-668 | the bottom centre is a copy of the given array, or the origin; radius and height are the given ones |
| CollisionObjects.CylinderCollision.SetPosition | Collision.js:675-677 | only the position changes, to a fresh copy of the given one |
| CollisionObjects.CylinderCollision.SetScaling | Collision.js:995-998 | the radius is multiplied by scaling[0] and the height by scaling[1]; the position is kept |
| CollisionObjects.CylinderCollision.Copy | Collision.js:683-685 | the copy is an equal cylinder with a position array of its own |
| CollisionObjects.CylinderCollision.CheckRayIntersection | Collision.js:700-730 | the ray march, as MarchRay states |
| CollisionObjects.CylinderCollision.CheckCollision | Collision.js:761-803 | the scan with the cylinder's getDistance, as ScanBody states |
| CollisionObjects.ParallelepipedCollision.constructor | Collision.js:1039-1047 | the bottom centre is a copy of the given array, or the origin; the three sizes are the given ones |
| CollisionObjects.ParallelepipedCollision.SetPosition | Collision.js:1054-1056 | only the position changes, to a fresh copy of the given one |
| CollisionObjects.ParallelepipedCollision.SetScaling | Collision.js:1504-1508 | hwidthX, height and hwidthZ are multiplied by scaling[0], scaling[1] and scaling[2]; the position is kept |
| CollisionObjects.ParallelepipedCollision.Copy | Collision.js:1062-1064 | the copy is an equal box with a position array of its own |
| CollisionObjects.ParallelepipedCollision.CheckRayIntersection | Collision.js:1080-1110 | the ray march, as MarchRay states |
| CollisionObjects.ParallelepipedCollision.CheckCollision | Collision.js:1139-1181 | the scan with the box's getDistance, as ScanBody states |
| CollisionTests.SphereRayTestCase | tests/Collision.spec.js:2-8 | a ball of radius 0.7 at the origin, seen from (0, 0, 1) looking down, is hit at distance 0.3 |
| CollisionTests.SphereBodyTestCase | tests/Collision.spec.js:31-41 | with the eyes at (0, 0, 0.71) and height 1.7, the first contact is the body sample at height -0.85 |
| CollisionTests.SphereFeetTestCase | tests/Collision.spec.js:43-53 | with the eyes at (0, 2.5, 0), no body sample touches and the lowest feet sample at height 0.8 is reported |
| CollisionTests.SphereMissTestCase | tests/Collision.spec.js:55-61 | with the eyes at (0, 0, 5), no contact is reported |
| Lists.IndexOf | NodeC.js:1171 | the index of the first occurrence, or -1 exactly when the element is absent |
| Lists.RemoveFirst | NodeC.js:1171-1174 | the list without the first occurrence of the element; no contract of its own: SpliceAbsent, SplicePresent, RemoveFirstCounts and RemoveFirstLength state its meaning |
| Lists.SpliceAbsent | NodeC.js:1171-1174 | when indexOf finds nothing the children list is what removing the first occurrence leaves |
| Lists.SplicePresent | NodeC.js:1171-1174 | splicing out the element at indexOf's index removes the first occurrence |
| Lists.RemoveFirstCounts | NodeC.js:1171-1174 | removing the first occurrence drops exactly one copy of the node and keeps all others |
| Lists.RemoveFirstLength | NodeC.js:1171-1174 | removing the first occurrence of a present node shortens the list by one |
| Nodes.NodeC.constructor | NodeC.js:276-288 | a new node has no children and no parent |
| Nodes.NodeC.SetParent | NodeC.js:1168-1182 | the parent becomes the new one; the old parent loses its first link to the node and the new parent gains one at the end; no other node's parent changes and only the two parents' lists change |
| Nodes.RemoveChild | NodeC.js:1170-1175 | the parent's children list loses the node's first occurrence and nothing else |
| Nodes.AddChild | NodeC.js:1178-1180 | the node is appended to the parent's children |
| Nodes.AttachedLast | NodeC.js:1177-1181 | after setParent(p), the node is p's last child, after p's old children |
| Nodes.DetachedOnce | NodeC.js:1170-1175 | the old parent, when it is not the new one, keeps its other children in order and holds one link fewer to the node |
| Nodes.SetParentScenario | tests/NodeC.spec.js:1-16 | after setParent(parent) and then setParent(newParent), the node is newParent's only child and has newParent as its parent; parent has no children; neither parent has a parent; the node has no children |
| ClassNames.Compare | NodeC.js:4993 | the comparison answers -1, 0 or 1 |
| ClassNames.CompareZeroIffEqual | NodeC.js:4993 | two names compare equal exactly when they are the same |
| ClassNames.CompareFlips | NodeC.js:4993 | swapping the arguments flips the sign |
| ClassNames.CompareTransitive | NodeC.js:4993 | "comes first" is transitive |
| ClassNames.ClassNamesSorted | NodeC.js:4973-4975 | the sixteen class names classT searches are strictly sorted |
| ClassLookup.SearchClass | NodeC.js:4990-5007 | a found index lies between the bounds and holds the name |
| ClassLookup.SearchClassComplete | NodeC.js:4990-5007 | on a sorted array the search misses only names absent between the bounds |
| ClassLookup.ClassT | NodeC.js:4971-4977 | searchClass over the sixteen class names; no contract of its own: ClassTFindsListedClasses states its meaning |
| ClassLookup.ClassTFindsListedClasses | NodeC.js:4971-4977 | classT finds a name exactly when it is one of the sixteen, at its own index |
| ClassLookup.SearchClassAsWritten | NodeC.js:4990-5007 | searchClass as written: a found index lies between the bounds, inside the array, and holds the name |
| ClassLookup.AsWrittenAgreesUnlessThrown | NodeC.js:4990-5007 | whenever searchClass as written does not throw, it answers as the guarded search does |
| ClassLookup.AsWrittenThrowsBeforeFirst | NodeC.js:4990-5007 | on a sorted array, searchClass as written throws exactly when the search starts at 0 and the name sorts before every class in range |
| ClassLookup.BaseNodeCThrows | NodeC.js:4990-5007 | classT on "BaseNodeC" throws as written and finds no class when guarded |

## Left out

- Floating point: the model computes over exact reals. Rounding, NaN and infinities are not
  modelled, except for the one NaN below.
- `Math.sqrt` is the parameter `sqrt`, constrained by `IsSqrt`.
- `_insideNormalVector` of the sphere and the cylinder at a contact on the vertical axis: the
  source divides 0 by 0. The NaN components make `dot > 0` false, so the source returns the
  vector unchanged. The model gives `None` there and returns the vector unchanged, as the code
  does. It has no precondition excluding the axis.
- The ray march of the cylinder and the box accumulates its parameter in floating point
  (`i = i + MAX_DISTANCE/NUMBER_OF_POINTS`). The model probes at exactly k * 3/20 for
  k = 1 .. 20. In doubles the loop also runs 20 times, but the later probes are off by a
  rounding error.
- The out-arguments `distance`, `collidedPoint` and `pointType` are arrays of a fixed length
  (at least 1, 3 and 1). The source's tests pass `[]`, which JavaScript grows, and even a
  `PointType` object. `PointType` is a datatype rather than the source's objects with `id`.
- The `Collision` base class is an interface with placeholder bodies and is not modelled.
- `NoCollision` is the `NoShape` value of `Shape`, not a class: it has no fields to update, and
  its `copy` gives the same value.
- The queries `getDistance`, `getCylinderDistance`, `isFarAway`, `getCollisionForce`,
  `getCollisionVelocity`, `_getCollisionVector`, `_getFrontCollision` and `_projectOnTheNormal`
  are functions of `Collision` applied to `Value()`. They are not repeated as methods of each
  class.
- `String.prototype.localeCompare` is modelled as code-point lexicographic order with results
  -1, 0 and 1. Locale collation is not modelled. It agrees on the sixteen class names, which
  are ASCII and differ in case-consistent positions. `searchClass` compares the result with
  `-1`, which only -1, 0, 1 answers make safe.
- ClassLookup.SearchClass: requires `0 <= firstIndex` and `lastIndex < |classes|`, the bounds
  under which the index read is safe. The as-written model, `SearchClassAsWritten`, has no
  bounds and throws where the source throws.
- ClassLookup.SearchClassComplete: states only that a miss means the name is absent. The
  converse, that a found index holds the name, is the ensures of `SearchClass`.
- In `classT` and `searchClass`, node classes are represented by their names. The class
  objects themselves and `node.constructor.name` are not modelled.
- OtherUtils.CopyMatrix: requires at least sixteen entries. On a shorter array the source fills the missing entries with `undefined`; every caller passes a 4x4 matrix.
- Everything else in `NodeC.js` is not part of this model, including `updateWorldMatrix`,
  drawing, and the loaders. `otherUtils.degToRad` and `otherUtils.invTransp` are not modelled
  either. The first involves pi; the second calls matrix routines that are not part of this
  model.
- `mainScript.js`, `Life.js` and `audio.js` are not part of this model.
- The concrete test cases of the contact response (tests/Collision.spec.js:63-151 and the
  corresponding cylinder and box cases) are not restated one by one. The general lemmas
  `VerticalContactStopsVertical` and `SideContactRemovesInwardPart` state the rules those tests
  check.

## Findings

| source | as written | input that shows it | evidently intended | confidence | as-written member | corrected member |
|---|---|---|---|---|---|---|
| NodeC.js:4990-5007 | `searchClass` reads `classes[middleIndex].name` before it checks `lastIndex < firstIndex`. When the search narrows to the empty range [0, -1], the middle index is `Math.floor(-1/2) = -1`, so `classes[-1]` is `undefined` and reading `.name` throws a TypeError. | `classT` on a node whose `constructor.name` sorts before "BirdNodeC", e.g. "BaseNodeC" | return `null` for an empty range before touching the array, as the doc comment says | not executed | ClassLookup.AsWrittenThrowsBeforeFirst, ClassLookup.BaseNodeCThrows | ClassLookup.SearchClass, ClassLookup.SearchClassComplete, ClassLookup.ClassTFindsListedClasses |
