/** The collision-shape library of Collision.js: a closed family of shapes, their distance
  * queries, ray tests, the humanoid body-sample scan and the contact response that removes
  * the part of a force or velocity pointing into a surface. */
module Collision {
  import opened OtherUtils
  import opened Wrappers

  /** A distance at or below this one is a touch. */
  const EPSILON_FOR_DISTANCE: real := 0.2
  /** Margin that decides on which side of a face boundary a point lies. */
  const EPSILON_FOR_SEPARATION: real := 0.0
  /** Points sampled along the player, from the feet up to the eyes. */
  const NUMBER_OF_POINTS_FOR_BODY: nat := 11
  /** Lowest points that are feet; as many highest points are head. */
  const FEET_POINTS: nat := 2
  /** What a shape without geometry reports as its distance. */
  const NO_COLLISION_DISTANCE: real := 100000.0
  /** The ray march of the cylinder and the parallelepiped probes up to this far ... */
  const RAY_MAX_DISTANCE: real := 3.0
  /** ... in this many equal steps. */
  const RAY_NUMBER_OF_POINTS: nat := 20

  /** Region of the player a sampled point belongs to. */
  datatype PointType = Head | Body | Feet

  /** The four shape classes, with the fields each of them keeps. `position` is the centre of
    * the sphere and the centre of the bottom face of the cylinder and of the parallelepiped. */
  datatype Shape =
    | NoShape
    | Sphere(position: Vec3, radius: real)
    | Cylinder(position: Vec3, radius: real, height: real)
    | Parallelepiped(position: Vec3, hwidthX: real, height: real, hwidthZ: real)

  /** Sizes are never negative. */
  predicate WellFormed(s: Shape)
  {
    match s
    case NoShape => true
    case Sphere(_, r) => 0.0 <= r
    case Cylinder(_, r, h) => 0.0 <= r && 0.0 <= h
    case Parallelepiped(_, hx, h, hz) => 0.0 <= hx && 0.0 <= h && 0.0 <= hz
  }

  /** How far v lies outside the interval [lo, hi]. */
  function Gap(v: real, lo: real, hi: real): (g: real)
    ensures 0.0 <= g
    ensures g == 0.0 <==> lo <= v <= hi
  {
    if v < lo then lo - v else if v > hi then v - hi else 0.0
  }

  /** The solid of a shape: the closed ball, the solid cylinder, the solid box; nothing for
    * the shape without geometry. The cylinder and parallelepiped cases are `_isPointInside`. */
  predicate IsPointInside(sqrt: real -> real, s: Shape, p: Vec3)
    requires IsSqrt(sqrt)
  {
    match s
    case NoShape => false
    case Sphere(c, r) => LengthSquared(Sub(p, c)) <= r * r
    case Cylinder(b, r, h) =>
      TakeDiagonal2(sqrt, p.x - b.x, p.z - b.z) <= r && p.y >= b.y && p.y <= b.y + h
    case Parallelepiped(b, hx, h, hz) =>
      (p.x >= b.x - hx && p.x <= b.x + hx) &&
      (p.z >= b.z - hz && p.z <= b.z + hz) &&
      p.y >= b.y && p.y <= b.y + h
  }

  // ---------------------------------------------------------------------------------------
  // Distances
  // ---------------------------------------------------------------------------------------

  /** SphereCollision.getDistance: how far p is from the ball; zero inside it. */
  function SphereDistance(sqrt: real -> real, centre: Vec3, radius: real, p: Vec3): (d: real)
    requires IsSqrt(sqrt)
    ensures 0.0 <= d
    ensures 0.0 <= radius ==> (d == 0.0 <==> LengthSquared(Sub(p, centre)) <= radius * radius)
    ensures 0.0 < d ==> (d + radius) * (d + radius) == LengthSquared(Sub(p, centre))
  {
    var distanceFromCenter := TakeDiagonal3(sqrt, p.x - centre.x, p.y - centre.y, p.z - centre.z);
    SquareLeIff(distanceFromCenter, if radius < 0.0 then 0.0 else radius);
    if distanceFromCenter <= radius then 0.0 else distanceFromCenter - radius
  }

  /** CylinderCollision.getDistance: below, over or level with the cylinder, and in each of
    * the first two cases straight under/over the disc or beside it. The result is the exact
    * euclidean distance to the solid cylinder: its square is the square of the horizontal
    * gap to the disc plus the square of the vertical gap to [bottom, top]. */
  function CylinderDistance(sqrt: real -> real, position: Vec3, radius: real, height: real, p: Vec3): (d: real)
    requires IsSqrt(sqrt)
    ensures 0.0 <= d
    ensures Sq(d) == Sq(Max(0.0, TakeDiagonal2(sqrt, p.x - position.x, p.z - position.z) - radius))
                     + Sq(Gap(p.y, position.y, position.y + height))
  {
    if p.y < position.y then
      // below
      var distanceFromCenter := TakeDiagonal2(sqrt, p.x - position.x, p.z - position.z);
      if distanceFromCenter < radius then Abs(position.y - p.y)
      else TakeDiagonal2(sqrt, distanceFromCenter - radius, position.y - p.y)
    else if p.y > position.y + height then
      // over
      var distanceFromCenter := TakeDiagonal2(sqrt, p.x - position.x, p.z - position.z);
      if distanceFromCenter < radius then Abs(p.y - (position.y + height))
      else TakeDiagonal2(sqrt, distanceFromCenter - radius, p.y - (position.y + height))
    else
      // front
      var distanceFromBorder := TakeDiagonal2(sqrt, p.x - position.x, p.z - position.z) - radius;
      if distanceFromBorder < 0.0 then 0.0 else distanceFromBorder
  }

  /** SphereCollision.getCylinderDistance: the distance the body scan uses for a sphere, that
    * of the vertical cylinder with the sphere's radius spanning centre.y - r .. centre.y + r. */
  function SphereCylinderDistance(sqrt: real -> real, centre: Vec3, radius: real, p: Vec3): (d: real)
    requires IsSqrt(sqrt)
    ensures d == CylinderDistance(sqrt, Vec3(centre.x, centre.y - radius, centre.z), radius, 2.0 * radius, p)
  {
    var cylinderPosition := Vec3(centre.x, centre.y - radius, centre.z);
    var cylinderHeight := 2.0 * radius;
    if p.y < cylinderPosition.y then
      // below
      var planarDistanceFromCenter := TakeDiagonal2(sqrt, p.x - cylinderPosition.x, p.z - cylinderPosition.z);
      if planarDistanceFromCenter < radius then Abs(cylinderPosition.y - p.y)
      else TakeDiagonal2(sqrt, planarDistanceFromCenter - radius, cylinderPosition.y - p.y)
    else if p.y > cylinderPosition.y + cylinderHeight then
      // over
      var planarDistanceFromCenter := TakeDiagonal2(sqrt, p.x - cylinderPosition.x, p.z - cylinderPosition.z);
      if planarDistanceFromCenter < radius then Abs(p.y - (cylinderPosition.y + cylinderHeight))
      else TakeDiagonal2(sqrt, planarDistanceFromCenter - radius, p.y - (cylinderPosition.y + cylinderHeight))
    else
      // front
      var distanceFromBorder := TakeDiagonal2(sqrt, p.x - cylinderPosition.x, p.z - cylinderPosition.z) - radius;
      if distanceFromBorder < 0.0 then 0.0 else distanceFromBorder
  }

  /** ParallelepipedCollision._getDistanceOverBelow: the distance of a point over (isOver) or
    * below the box, by the nine columns right/left/middle times higher z/lower z/middle. */
  function BoxDistanceOverBelow(sqrt: real -> real, position: Vec3, hwidthX: real, height: real,
                                hwidthZ: real, p: Vec3, isOver: bool): real
    requires IsSqrt(sqrt)
  {
    var yShift := if isOver then height else 0.0;
    if p.x > position.x + hwidthX - EPSILON_FOR_SEPARATION then
      // on the right
      if p.z > position.z - hwidthZ then
        if p.z < position.z + hwidthZ then
          // center-right
          TakeDiagonal2(sqrt, p.x - (position.x + hwidthX), p.y - (position.y + yShift))
        else
          // higherZ-right
          TakeDiagonal3(sqrt, p.x - (position.x + hwidthX), p.y - (position.y + yShift), p.z - (position.z + hwidthZ))
      else
        // lowerZ-right
        TakeDiagonal3(sqrt, p.x - (position.x + hwidthX), p.y - (position.y + yShift), p.z - (position.z - hwidthZ))
    else if p.x < position.x - hwidthX + EPSILON_FOR_SEPARATION then
      // on the left
      if p.z > position.z - hwidthZ then
        if p.z < position.z + hwidthZ then
          // center-left
          TakeDiagonal2(sqrt, p.x - (position.x - hwidthX), p.y - (position.y + yShift))
        else
          // higherZ-left
          TakeDiagonal3(sqrt, p.x - (position.x - hwidthX), p.y - (position.y + yShift), p.z - (position.z + hwidthZ))
      else
        // lowerZ-left
        TakeDiagonal3(sqrt, p.x - (position.x - hwidthX), p.y - (position.y + yShift), p.z - (position.z - hwidthZ))
    else if p.z < position.z - hwidthZ + EPSILON_FOR_SEPARATION then
      // lowerZ-middle
      TakeDiagonal2(sqrt, p.z - (position.z - hwidthZ), p.y - (position.y + yShift))
    else if p.z > position.z + hwidthZ - EPSILON_FOR_SEPARATION then
      // higherZ-middle
      TakeDiagonal2(sqrt, p.z - (position.z + hwidthZ), p.y - (position.y + yShift))
    else
      // directly over or below
      Abs(p.y - (position.y + yShift))
  }

  /** ParallelepipedCollision._getDistanceSameLevel: the distance of a point whose height is
    * within the box's, by the same nine columns; zero in the middle one. */
  function BoxDistanceSameLevel(sqrt: real -> real, position: Vec3, hwidthX: real, hwidthZ: real, p: Vec3): real
    requires IsSqrt(sqrt)
  {
    if p.x > position.x + hwidthX - EPSILON_FOR_SEPARATION then
      // on the right
      if p.z > position.z - hwidthZ then
        if p.z < position.z + hwidthZ then Abs(p.x - (position.x + hwidthX))
        else TakeDiagonal2(sqrt, p.x - (position.x + hwidthX), p.z - (position.z + hwidthZ))
      else TakeDiagonal2(sqrt, p.x - (position.x + hwidthX), p.z - (position.z - hwidthZ))
    else if p.x < position.x - hwidthX + EPSILON_FOR_SEPARATION then
      // on the left
      if p.z > position.z - hwidthZ then
        if p.z < position.z + hwidthZ then Abs(p.x - (position.x - hwidthX))
        else TakeDiagonal2(sqrt, p.x - (position.x - hwidthX), p.z - (position.z + hwidthZ))
      else TakeDiagonal2(sqrt, p.x - (position.x - hwidthX), p.z - (position.z - hwidthZ))
    else if p.z < position.z - hwidthZ + EPSILON_FOR_SEPARATION then
      // lowerZ-middle
      Abs(p.z - (position.z - hwidthZ))
    else if p.z > position.z + hwidthZ - EPSILON_FOR_SEPARATION then
      // higherZ-middle
      Abs(p.z - (position.z + hwidthZ))
    else
      // inside
      0.0
  }

  /** ParallelepipedCollision.getDistance: over, below or level with the box. */
  function BoxDistance(sqrt: real -> real, position: Vec3, hwidthX: real, height: real, hwidthZ: real, p: Vec3): real
    requires IsSqrt(sqrt)
  {
    if p.y > position.y + height - EPSILON_FOR_SEPARATION then
      BoxDistanceOverBelow(sqrt, position, hwidthX, height, hwidthZ, p, true)
    else if p.y < position.y + EPSILON_FOR_SEPARATION then
      BoxDistanceOverBelow(sqrt, position, hwidthX, height, hwidthZ, p, false)
    else
      BoxDistanceSameLevel(sqrt, position, hwidthX, hwidthZ, p)
  }

  /** getDistance of each shape class. */
  function GetDistance(sqrt: real -> real, s: Shape, p: Vec3): real
    requires IsSqrt(sqrt)
  {
    match s
    case NoShape => NO_COLLISION_DISTANCE
    case Sphere(c, r) => SphereDistance(sqrt, c, r, p)
    case Cylinder(b, r, h) => CylinderDistance(sqrt, b, r, h, p)
    case Parallelepiped(b, hx, h, hz) => BoxDistance(sqrt, b, hx, h, hz, p)
  }

  // ---------------------------------------------------------------------------------------
  // Ray intersection
  // ---------------------------------------------------------------------------------------

  /** The point at parameter t along the ray from o in direction d. */
  function RayPoint(o: Vec3, d: Vec3, t: real): Vec3 { Add(o, Scale(d, t)) }

  /** Parameter of the k-th probe of the ray march: k steps of MAX_DISTANCE / NUMBER_OF_POINTS. */
  function SampleParameter(k: int): real
  {
    (k as real) * (RAY_MAX_DISTANCE / RAY_NUMBER_OF_POINTS as real)
  }

  /** Distance reported for a probe that lies inside the shape: from the ray origin to it. */
  function HitDistance(sqrt: real -> real, o: Vec3, p: Vec3): real
    requires IsSqrt(sqrt)
  {
    TakeDiagonal3(sqrt, o.x - p.x, o.y - p.y, o.z - p.z)
  }

  /** The ray march of CylinderCollision and ParallelepipedCollision.checkRayIntersection from
    * probe k on: the distance to the first probe inside the shape, None when no probe up to
    * the last one is. */
  function FirstInsideSample(sqrt: real -> real, inside: Vec3 -> bool, o: Vec3, d: Vec3, k: nat): Option<real>
    requires IsSqrt(sqrt)
    decreases RAY_NUMBER_OF_POINTS + 1 - k
  {
    if k > RAY_NUMBER_OF_POINTS then None
    else if inside(RayPoint(o, d, SampleParameter(k))) then
      Some(HitDistance(sqrt, o, RayPoint(o, d, SampleParameter(k))))
    else FirstInsideSample(sqrt, inside, o, d, k + 1)
  }

  /** The solid of a shape as a test on points, the form the ray march takes it in. */
  function InsideTest(sqrt: real -> real, s: Shape): (inside: Vec3 -> bool)
    requires IsSqrt(sqrt)
    ensures forall p :: inside(p) == IsPointInside(sqrt, s, p)
  {
    p => IsPointInside(sqrt, s, p)
  }

  /** SphereCollision.checkRayIntersection: the origin strictly inside the ball is a hit at
    * distance zero; a ball behind the origin, or one the ray's line passes beside, is a miss;
    * otherwise a hit reported at the distance of the origin from the ball. */
  function SphereRayIntersection(sqrt: real -> real, centre: Vec3, radius: real, o: Vec3, d: Vec3): Option<real>
    requires IsSqrt(sqrt)
  {
    var l := Sub(centre, o);
    var lSquared := LengthSquared(l);
    if lSquared < radius * radius then Some(0.0)
    else
      var s := DotProduct(l, d);
      if s < 0.0 then None
      else
        var mSquared := lSquared - s * s;
        if mSquared > radius * radius then None
        else Some(SphereDistance(sqrt, centre, radius, o))
  }

  /** checkRayIntersection of each shape class: None for a miss, Some(distance) for a hit. */
  function RayIntersection(sqrt: real -> real, s: Shape, o: Vec3, d: Vec3): Option<real>
    requires IsSqrt(sqrt)
  {
    match s
    case NoShape => None
    case Sphere(c, r) => SphereRayIntersection(sqrt, c, r, o, d)
    case _ =>
      if IsPointInside(sqrt, s, o) then Some(0.0)
      else if DotProduct(Sub(s.position, o), d) < 0.0 then None
      else FirstInsideSample(sqrt, InsideTest(sqrt, s), o, d, 1)
  }

  // ---------------------------------------------------------------------------------------
  // Body scan
  // ---------------------------------------------------------------------------------------

  /** A sampled point of the player and the region it belongs to. */
  datatype Contact = Contact(point: Vec3, pointType: PointType)

  /** Vertical spacing of the body samples. */
  function Step(personHeight: real): real
  {
    personHeight / (NUMBER_OF_POINTS_FOR_BODY - 1) as real
  }

  /** The i-th sample counted up from the feet. */
  function BodyPoint(cameraPosition: Vec3, personHeight: real, i: int): Vec3
  {
    Vec3(cameraPosition.x, cameraPosition.y - personHeight + (i as real) * Step(personHeight), cameraPosition.z)
  }

  /** The i-th sample counted down from the eyes. */
  function HeadPoint(cameraPosition: Vec3, personHeight: real, i: int): Vec3
  {
    Vec3(cameraPosition.x, cameraPosition.y - (i as real) * Step(personHeight), cameraPosition.z)
  }

  /** The k-th sample in the order checkCollision tests them: the body points from FEET_POINTS
    * up to the last but FEET_POINTS, then the feet points, then the head points. */
  function ScanEntry(cameraPosition: Vec3, personHeight: real, k: int): Contact
  {
    if k < 7 then Contact(BodyPoint(cameraPosition, personHeight, k + FEET_POINTS), Body)
    else if k < 9 then Contact(BodyPoint(cameraPosition, personHeight, k - 7), Feet)
    else Contact(HeadPoint(cameraPosition, personHeight, k - 9), Head)
  }

  function ScanOrder(cameraPosition: Vec3, personHeight: real): seq<Contact>
  {
    seq(NUMBER_OF_POINTS_FOR_BODY, k => ScanEntry(cameraPosition, personHeight, k))
  }

  /** The distance checkCollision compares with EPSILON_FOR_DISTANCE: the sphere stands in for
    * the cylinder around it, the other shapes use their own getDistance. */
  function ContactDistance(sqrt: real -> real, s: Shape, p: Vec3): real
    requires IsSqrt(sqrt)
  {
    match s
    case Sphere(c, r) => SphereCylinderDistance(sqrt, c, r, p)
    case _ => GetDistance(sqrt, s, p)
  }

  predicate Touches(sqrt: real -> real, s: Shape, p: Vec3)
    requires IsSqrt(sqrt)
  {
    ContactDistance(sqrt, s, p) <= EPSILON_FOR_DISTANCE
  }

  /** The first candidate, in order, that touches the shape. */
  function FirstContact(touches: Vec3 -> bool, candidates: seq<Contact>): Option<Contact>
  {
    if |candidates| == 0 then None
    else if touches(candidates[0].point) then Some(candidates[0])
    else FirstContact(touches, candidates[1..])
  }

  /** The touch test of a shape as a test on points, the form the scan takes it in. */
  function TouchTest(sqrt: real -> real, s: Shape): (touches: Vec3 -> bool)
    requires IsSqrt(sqrt)
    ensures forall p :: touches(p) == Touches(sqrt, s, p)
  {
    p => Touches(sqrt, s, p)
  }

  /** checkCollision: the first sample of the player touching the shape, None if none does;
    * the shape without geometry is never touched. */
  function BodyScan(sqrt: real -> real, s: Shape, cameraPosition: Vec3, personHeight: real): Option<Contact>
    requires IsSqrt(sqrt)
  {
    if s.NoShape? then None
    else FirstContact(TouchTest(sqrt, s), ScanOrder(cameraPosition, personHeight))
  }

  // ---------------------------------------------------------------------------------------
  // Contact response
  // ---------------------------------------------------------------------------------------

  /** _insideNormalVector of the sphere and the cylinder: the horizontal unit vector from the
    * contact point towards the vertical axis. On the axis the source divides zero by zero and
    * gets NaN components, which is None here. */
  function InsideNormalVector(sqrt: real -> real, axis: Vec3, collidedPoint: Vec3): (n: Option<Vec3>)
    requires IsSqrt(sqrt)
    ensures n.None? <==> axis.x == collidedPoint.x && axis.z == collidedPoint.z
    ensures n.Some? ==> n.value.y == 0.0 && LengthSquared(n.value) == 1.0
    ensures n.Some? ==> 0.0 < DotProduct(n.value, Vec3(axis.x - collidedPoint.x, 0.0, axis.z - collidedPoint.z))
    ensures n.Some? ==> n.value.x * (axis.z - collidedPoint.z) == n.value.z * (axis.x - collidedPoint.x)
  {
    var insideVector := Vec3(axis.x - collidedPoint.x, 0.0, axis.z - collidedPoint.z);
    var insideVectorLength := sqrt(LengthSquared(insideVector));
    NormalOfHorizontal(sqrt, insideVector);
    if insideVectorLength == 0.0 then None
    else Some(Vec3(insideVector.x / insideVectorLength, 0.0, insideVector.z / insideVectorLength))
  }

  lemma NormalOfHorizontal(sqrt: real -> real, w: Vec3)
    requires IsSqrt(sqrt) && w.y == 0.0
    ensures sqrt(LengthSquared(w)) == 0.0 <==> w.x == 0.0 && w.z == 0.0
    ensures sqrt(LengthSquared(w)) != 0.0 ==>
      var len := sqrt(LengthSquared(w));
      var n := Vec3(w.x / len, 0.0, w.z / len);
      LengthSquared(n) == 1.0 && 0.0 < DotProduct(n, w) && n.x * w.z == n.z * w.x
  {
    DotProductSelf(w);
    RootFacts(sqrt, LengthSquared(w));
    var len := sqrt(LengthSquared(w));
    if w.x != 0.0 || w.z != 0.0 {
      NonZeroLength(w);
      assert len != 0.0;
      assert len * len == w.x * w.x + w.z * w.z;
      DividedByLength(w.x, w.z, len);
    } else {
      assert len * len == 0.0 * 0.0;
      SqrtOfSquare(0.0, len);
    }
  }

  /** (x, z) divided by its positive length is a unit vector pointing the same way. */
  lemma DividedByLength(x: real, z: real, len: real)
    requires 0.0 < len && len * len == x * x + z * z
    ensures (x / len) * (x / len) + (z / len) * (z / len) == 1.0
    ensures 0.0 < (x / len) * x + (z / len) * z
    ensures (x / len) * z == (z / len) * x
  {
    var a, b := x / len, z / len;
    ScaledSquares(a, b, len);
    assert a * len == x && b * len == z;
    SquareLess(0.0, len);
    CancelPositive(a * a + b * b, len * len, x * x + z * z);
    assert a * x + b * z == (a * a + b * b) * len;
  }

  lemma ScaledSquares(a: real, b: real, len: real)
    ensures (a * a + b * b) * (len * len) == (a * len) * (a * len) + (b * len) * (b * len)
  {
  }

  /** A factor that maps a positive number to itself is one. */
  lemma CancelPositive(q: real, l: real, s: real)
    requires q * l == s && l == s && 0.0 < l
    ensures q == 1.0
  {
    assert q == (q * l) / l;
  }

  /** The removal every shape performs: when v points into the surface (dot(v, n) > 0) its
    * projection on the inside normal n is subtracted, otherwise v is kept. */
  function RemoveInwardPart(sqrt: real -> real, v: Vec3, n: Vec3): (r: Vec3)
    requires IsSqrt(sqrt) && n != Vec3(0.0, 0.0, 0.0)
    ensures DotProduct(v, n) <= 0.0 ==> r == v
    ensures DotProduct(v, n) > 0.0 ==> DotProduct(r, n) == 0.0 && Sub(v, r) == ProjectionOnVector2(sqrt, v, n)
    ensures DotProduct(r, n) <= 0.0
  {
    var projectionOnTheNormal := ProjectionOnVector2(sqrt, v, n);
    ProjectionRestOrthogonal(sqrt, v, n);
    if DotProduct(v, n) > 0.0 then Sub(v, projectionOnTheNormal) else v
  }

  /** _getFrontCollision of the sphere and the cylinder: only the horizontal components are
    * corrected, the vertical one is kept. */
  function RoundFrontCollision(sqrt: real -> real, axis: Vec3, v: Vec3, collidedPoint: Vec3): (r: Vec3)
    requires IsSqrt(sqrt)
    ensures r.y == v.y
    ensures InsideNormalVector(sqrt, axis, collidedPoint).None? ==> r == v
    ensures InsideNormalVector(sqrt, axis, collidedPoint).Some? ==>
      r == RemoveInwardPart(sqrt, v, InsideNormalVector(sqrt, axis, collidedPoint).value)
  {
    match InsideNormalVector(sqrt, axis, collidedPoint)
    case None => v
    case Some(n) =>
      assert n != Vec3(0.0, 0.0, 0.0);
      var projectionOnTheNormal := ProjectionOnVector2(sqrt, v, n);
      if DotProduct(v, n) > 0.0 then Vec3(v.x - projectionOnTheNormal.x, v.y, v.z - projectionOnTheNormal.z)
      else v
  }

  /** The inside normal ParallelepipedCollision._getFrontCollision picks: the face beyond which
    * the contact lies, tried right, left, higher z, lower z; straight down otherwise. */
  function BoxFrontNormal(position: Vec3, hwidthX: real, hwidthZ: real, collidedPoint: Vec3): (n: Vec3)
    ensures LengthSquared(n) == 1.0
    ensures collidedPoint.x > position.x + hwidthX - EPSILON_FOR_SEPARATION ==> n == Vec3(-1.0, 0.0, 0.0)
    ensures (collidedPoint.x <= position.x + hwidthX - EPSILON_FOR_SEPARATION &&
             collidedPoint.x < position.x - hwidthX + EPSILON_FOR_SEPARATION) ==> n == Vec3(1.0, 0.0, 0.0)
    ensures position.x - hwidthX + EPSILON_FOR_SEPARATION <= collidedPoint.x <= position.x + hwidthX - EPSILON_FOR_SEPARATION ==>
      (collidedPoint.z > position.z + hwidthZ - EPSILON_FOR_SEPARATION ==> n == Vec3(0.0, 0.0, -1.0)) &&
      ((collidedPoint.z <= position.z + hwidthZ - EPSILON_FOR_SEPARATION &&
        collidedPoint.z < position.z - hwidthZ + EPSILON_FOR_SEPARATION) ==> n == Vec3(0.0, 0.0, 1.0)) &&
      (position.z - hwidthZ + EPSILON_FOR_SEPARATION <= collidedPoint.z <= position.z + hwidthZ - EPSILON_FOR_SEPARATION ==>
        n == Vec3(0.0, -1.0, 0.0))
  {
    if collidedPoint.x > position.x + hwidthX - EPSILON_FOR_SEPARATION then Vec3(-1.0, 0.0, 0.0)
    else if collidedPoint.x < position.x - hwidthX + EPSILON_FOR_SEPARATION then Vec3(1.0, 0.0, 0.0)
    else if collidedPoint.z > position.z + hwidthZ - EPSILON_FOR_SEPARATION then Vec3(0.0, 0.0, -1.0)
    else if collidedPoint.z < position.z - hwidthZ + EPSILON_FOR_SEPARATION then Vec3(0.0, 0.0, 1.0)
    else Vec3(0.0, -1.0, 0.0)
  }

  /** Whether a contact is handled as one from above or below rather than from the side: feet
    * over the top or head under the bottom, with each class's own comparison. */
  predicate VerticalContact(s: Shape, collidedPoint: Vec3, pointType: PointType)
  {
    match s
    case NoShape => false
    case Sphere(c, r) =>
      (pointType == Feet && collidedPoint.y >= c.y + r - EPSILON_FOR_SEPARATION) ||
      (pointType == Head && collidedPoint.y <= c.y + EPSILON_FOR_SEPARATION)
    case Cylinder(b, _, h) =>
      (pointType == Feet && collidedPoint.y > b.y + h - EPSILON_FOR_SEPARATION) ||
      (pointType == Head && collidedPoint.y < b.y + EPSILON_FOR_SEPARATION)
    case Parallelepiped(b, _, h, _) =>
      (pointType == Feet && collidedPoint.y > b.y + h - EPSILON_FOR_SEPARATION) ||
      (pointType == Head && collidedPoint.y < b.y + EPSILON_FOR_SEPARATION)
  }

  /** The inside normal of a side contact, None where the round shapes have none. */
  function FrontNormal(sqrt: real -> real, s: Shape, collidedPoint: Vec3): Option<Vec3>
    requires IsSqrt(sqrt)
  {
    match s
    case NoShape => None
    case Sphere(c, _) => InsideNormalVector(sqrt, c, collidedPoint)
    case Cylinder(b, _, _) => InsideNormalVector(sqrt, b, collidedPoint)
    case Parallelepiped(b, hx, _, hz) => Some(BoxFrontNormal(b, hx, hz, collidedPoint))
  }

  /** _getCollisionVector of each shape class (and the zero vector of NoCollision). */
  function GetCollisionVector(sqrt: real -> real, s: Shape, v: Vec3, collidedPoint: Vec3, pointType: PointType): Vec3
    requires IsSqrt(sqrt)
  {
    match s
    case NoShape => Vec3(0.0, 0.0, 0.0)
    case Sphere(c, r) =>
      (match pointType
      case Body => RoundFrontCollision(sqrt, c, v, collidedPoint)
      case Feet =>
        if collidedPoint.y >= c.y + r - EPSILON_FOR_SEPARATION then
          (if v.y < 0.0 then Vec3(v.x, 0.0, v.z) else v)
        else RoundFrontCollision(sqrt, c, v, collidedPoint)
      case Head =>
        if collidedPoint.y <= c.y + EPSILON_FOR_SEPARATION then
          (if v.y > 0.0 then Vec3(v.x, 0.0, v.z) else v)
        else RoundFrontCollision(sqrt, c, v, collidedPoint))
    case Cylinder(b, _, h) =>
      (match pointType
      case Body => RoundFrontCollision(sqrt, b, v, collidedPoint)
      case Feet =>
        if collidedPoint.y > b.y + h - EPSILON_FOR_SEPARATION then
          (if v.y < 0.0 then Vec3(v.x, 0.0, v.z) else v)
        else RoundFrontCollision(sqrt, b, v, collidedPoint)
      case Head =>
        if collidedPoint.y < b.y + EPSILON_FOR_SEPARATION then
          (if v.y > 0.0 then Vec3(v.x, 0.0, v.z) else v)
        else RoundFrontCollision(sqrt, b, v, collidedPoint))
    case Parallelepiped(b, hx, h, hz) =>
      (match pointType
      case Body => RemoveInwardPart(sqrt, v, BoxFrontNormal(b, hx, hz, collidedPoint))
      case Feet =>
        if collidedPoint.y > b.y + h - EPSILON_FOR_SEPARATION then RemoveInwardPart(sqrt, v, Vec3(0.0, -1.0, 0.0))
        else RemoveInwardPart(sqrt, v, BoxFrontNormal(b, hx, hz, collidedPoint))
      case Head =>
        if collidedPoint.y < b.y + EPSILON_FOR_SEPARATION then RemoveInwardPart(sqrt, v, Vec3(0.0, 1.0, 0.0))
        else RemoveInwardPart(sqrt, v, BoxFrontNormal(b, hx, hz, collidedPoint)))
  }

  /** getCollisionForce: the force left once the part pushing into the surface is removed. */
  function GetCollisionForce(sqrt: real -> real, s: Shape, cameraForce: Vec3, collidedPoint: Vec3, pointType: PointType): Vec3
    requires IsSqrt(sqrt)
  {
    GetCollisionVector(sqrt, s, cameraForce, collidedPoint, pointType)
  }

  /** getCollisionVelocity: the same correction applied to a velocity. */
  function GetCollisionVelocity(sqrt: real -> real, s: Shape, cameraVelocity: Vec3, collidedPoint: Vec3, pointType: PointType): Vec3
    requires IsSqrt(sqrt)
  {
    GetCollisionVector(sqrt, s, cameraVelocity, collidedPoint, pointType)
  }

  // ---------------------------------------------------------------------------------------
  // Broad phase
  // ---------------------------------------------------------------------------------------

  /** The radius of the ball around `position` that each class takes as its extent. */
  function Extent(s: Shape): real
  {
    match s
    case NoShape => 0.0
    case Sphere(_, r) => r
    case Cylinder(_, r, h) => r + h
    case Parallelepiped(_, hx, h, hz) => hx + hz + h
  }

  /** isFarAway: the point is farther from the shape's position than its extent plus both
    * allowances; the shape without geometry is always far away. */
  predicate IsFarAway(sqrt: real -> real, s: Shape, point: Vec3, bodyAllowance: real, extraAllowance: real)
    requires IsSqrt(sqrt)
  {
    s.NoShape? ||
    TakeDiagonal3(sqrt, point.x - s.position.x, point.y - s.position.y, point.z - s.position.z)
      > Extent(s) + bodyAllowance + extraAllowance
  }

  // ---------------------------------------------------------------------------------------
  // Properties of the distances
  // ---------------------------------------------------------------------------------------

  /** A sum of squares vanishes exactly when every term does. */
  lemma SumOfSquaresZero(a: real, b: real, c: real)
    ensures Sq(a) + Sq(b) + Sq(c) == 0.0 <==> a == 0.0 && b == 0.0 && c == 0.0
    ensures 0.0 <= Sq(a) + Sq(b) + Sq(c)
  {
    SquareNonNeg(a);
    SquareNonNeg(b);
    SquareNonNeg(c);
    if a != 0.0 { SquareLess(0.0, Abs(a)); }
    if b != 0.0 { SquareLess(0.0, Abs(b)); }
    if c != 0.0 { SquareLess(0.0, Abs(c)); }
  }

  /** A non-negative number is zero exactly when its square is. */
  lemma ZeroIffSquareZero(d: real)
    requires 0.0 <= d
    ensures d == 0.0 <==> Sq(d) == 0.0
  {
    if d > 0.0 { SquareLess(0.0, d); }
  }

  /** The squared gap of v to the interval [lo, hi] against the distance to the end beyond
    * which v lies. */
  lemma GapBeyond(v: real, lo: real, hi: real)
    requires lo <= hi
    ensures v >= hi ==> Sq(Gap(v, lo, hi)) == Sq(v - hi)
    ensures v <= lo ==> Sq(Gap(v, lo, hi)) == Sq(v - lo)
    ensures lo <= v <= hi ==> Gap(v, lo, hi) == 0.0
  {
  }

  /** Collects the squared gaps of one branch into the squared distance. */
  lemma SquaresAdd(d: real, a: real, b: real, c: real, ga: real, gb: real, gc: real)
    requires Sq(d) == Sq(a) + Sq(b) + Sq(c)
    requires Sq(ga) == Sq(a) && Sq(gb) == Sq(b) && Sq(gc) == Sq(c)
    ensures Sq(d) == Sq(ga) + Sq(gb) + Sq(gc)
  {
  }

  /** The squared euclidean distance of p to the box, axis by axis. */
  function BoxGapsSquared(b: Vec3, hx: real, h: real, hz: real, p: Vec3): real
  {
    Sq(Gap(p.x, b.x - hx, b.x + hx)) + Sq(Gap(p.y, b.y, b.y + h)) + Sq(Gap(p.z, b.z - hz, b.z + hz))
  }

  /** The x-column of a point: beyond the right face, beyond the left one, or between. */
  predicate RightOfBox(b: Vec3, hx: real, p: Vec3) { p.x > b.x + hx - EPSILON_FOR_SEPARATION }
  predicate LeftOfBox(b: Vec3, hx: real, p: Vec3) { !RightOfBox(b, hx, p) && p.x < b.x - hx + EPSILON_FOR_SEPARATION }

  /** The plane x = SideFace of the face the point lies beyond, in the right or left column. */
  function SideFace(b: Vec3, hx: real, p: Vec3): real
  {
    if RightOfBox(b, hx, p) then b.x + hx else b.x - hx
  }

  /** Strictly between the two faces perpendicular to z, as the side columns test it. */
  predicate WithinZ(b: Vec3, hz: real, p: Vec3) { p.z > b.z - hz && p.z < b.z + hz }

  /** The plane z = CornerZ of the face a point outside WithinZ is nearest, as the side
    * columns pick it: the higher one unless the point is at or below the lower. */
  function CornerZ(b: Vec3, hz: real, p: Vec3): real
  {
    if p.z > b.z - hz then b.z + hz else b.z - hz
  }

  /** Beyond the higher or lower z-face, as the middle column tests it. */
  predicate BeyondZ(b: Vec3, hz: real, p: Vec3)
  {
    p.z < b.z - hz + EPSILON_FOR_SEPARATION || p.z > b.z + hz - EPSILON_FOR_SEPARATION
  }

  /** The plane of the z-face a point satisfying BeyondZ lies beyond. */
  function MiddleZ(b: Vec3, hz: real, p: Vec3): real
  {
    if p.z < b.z - hz + EPSILON_FOR_SEPARATION then b.z - hz else b.z + hz
  }

  /** The height of the horizontal face a point over or below the box faces. */
  function FaceY(b: Vec3, h: real, isOver: bool): real
  {
    if isOver then b.y + h else b.y
  }

  /** Over/below the box, beside an x-face, within the z-extent: an edge. */
  lemma BoxOverBelowSideEdge(sqrt: real -> real, b: Vec3, hx: real, h: real, hz: real, p: Vec3, isOver: bool)
    requires IsSqrt(sqrt) && 0.0 <= hx && 0.0 <= h && 0.0 <= hz
    requires if isOver then p.y > b.y + h else p.y < b.y
    requires (RightOfBox(b, hx, p) || LeftOfBox(b, hx, p)) && WithinZ(b, hz, p)
    ensures var d := BoxDistanceOverBelow(sqrt, b, hx, h, hz, p, isOver);
      0.0 <= d && Sq(d) == BoxGapsSquared(b, hx, h, hz, p)
  {
    var dx, dy := p.x - SideFace(b, hx, p), p.y - FaceY(b, h, isOver);
    var gx, gy, gz := Gap(p.x, b.x - hx, b.x + hx), Gap(p.y, b.y, b.y + h), Gap(p.z, b.z - hz, b.z + hz);
    assert Sq(gy) == Sq(dy);
    GapBeyond(p.x, b.x - hx, b.x + hx);
    assert Sq(gx) == Sq(dx) && gz == 0.0;
    var d := BoxDistanceOverBelow(sqrt, b, hx, h, hz, p, isOver);
    assert d == TakeDiagonal2(sqrt, dx, dy);
    SquaresAdd(d, dx, dy, 0.0, gx, gy, gz);
  }

  /** Over/below the box, beyond the right x-face and the higher z-face: a vertex. */
  lemma BoxOverBelowVertexRightHigherZ(sqrt: real -> real, b: Vec3, hx: real, h: real, hz: real, p: Vec3, isOver: bool)
    requires IsSqrt(sqrt) && 0.0 <= hx && 0.0 <= h && 0.0 <= hz
    requires if isOver then p.y > b.y + h else p.y < b.y
    requires RightOfBox(b, hx, p) && p.z >= b.z + hz
    ensures var d := BoxDistanceOverBelow(sqrt, b, hx, h, hz, p, isOver);
      0.0 <= d && Sq(d) == BoxGapsSquared(b, hx, h, hz, p)
  {
    var dx, dy, dz := p.x - (b.x + hx), p.y - FaceY(b, h, isOver), p.z - (b.z + hz);
    var gx, gy, gz := Gap(p.x, b.x - hx, b.x + hx), Gap(p.y, b.y, b.y + h), Gap(p.z, b.z - hz, b.z + hz);
    assert Sq(gy) == Sq(dy);
    GapBeyond(p.x, b.x - hx, b.x + hx);
    GapBeyond(p.z, b.z - hz, b.z + hz);
    assert Sq(gx) == Sq(dx) && Sq(gz) == Sq(dz);
    var d := BoxDistanceOverBelow(sqrt, b, hx, h, hz, p, isOver);
    assert d == TakeDiagonal3(sqrt, dx, dy, dz);
    SquaresAdd(d, dx, dy, dz, gx, gy, gz);
  }

  /** Over/below the box, beyond the right x-face and the lower z-face: a vertex. */
  lemma BoxOverBelowVertexRightLowerZ(sqrt: real -> real, b: Vec3, hx: real, h: real, hz: real, p: Vec3, isOver: bool)
    requires IsSqrt(sqrt) && 0.0 <= hx && 0.0 <= h && 0.0 <= hz
    requires if isOver then p.y > b.y + h else p.y < b.y
    requires RightOfBox(b, hx, p) && p.z <= b.z - hz
    ensures var d := BoxDistanceOverBelow(sqrt, b, hx, h, hz, p, isOver);
      0.0 <= d && Sq(d) == BoxGapsSquared(b, hx, h, hz, p)
  {
    var dx, dy, dz := p.x - (b.x + hx), p.y - FaceY(b, h, isOver), p.z - (b.z - hz);
    var gx, gy, gz := Gap(p.x, b.x - hx, b.x + hx), Gap(p.y, b.y, b.y + h), Gap(p.z, b.z - hz, b.z + hz);
    assert Sq(gy) == Sq(dy);
    GapBeyond(p.x, b.x - hx, b.x + hx);
    GapBeyond(p.z, b.z - hz, b.z + hz);
    assert Sq(gx) == Sq(dx) && Sq(gz) == Sq(dz);
    var d := BoxDistanceOverBelow(sqrt, b, hx, h, hz, p, isOver);
    assert d == TakeDiagonal3(sqrt, dx, dy, dz);
    SquaresAdd(d, dx, dy, dz, gx, gy, gz);
  }

  /** Over/below the box, beyond the left x-face and the higher z-face: a vertex. */
  lemma BoxOverBelowVertexLeftHigherZ(sqrt: real -> real, b: Vec3, hx: real, h: real, hz: real, p: Vec3, isOver: bool)
    requires IsSqrt(sqrt) && 0.0 <= hx && 0.0 <= h && 0.0 <= hz
    requires if isOver then p.y > b.y + h else p.y < b.y
    requires LeftOfBox(b, hx, p) && p.z >= b.z + hz
    ensures var d := BoxDistanceOverBelow(sqrt, b, hx, h, hz, p, isOver);
      0.0 <= d && Sq(d) == BoxGapsSquared(b, hx, h, hz, p)
  {
    var dx, dy, dz := p.x - (b.x - hx), p.y - FaceY(b, h, isOver), p.z - (b.z + hz);
    var gx, gy, gz := Gap(p.x, b.x - hx, b.x + hx), Gap(p.y, b.y, b.y + h), Gap(p.z, b.z - hz, b.z + hz);
    assert Sq(gy) == Sq(dy);
    GapBeyond(p.x, b.x - hx, b.x + hx);
    GapBeyond(p.z, b.z - hz, b.z + hz);
    assert Sq(gx) == Sq(dx) && Sq(gz) == Sq(dz);
    var d := BoxDistanceOverBelow(sqrt, b, hx, h, hz, p, isOver);
    assert d == TakeDiagonal3(sqrt, dx, dy, dz);
    SquaresAdd(d, dx, dy, dz, gx, gy, gz);
  }

  /** Over/below the box, beyond the left x-face and the lower z-face: a vertex. */
  lemma BoxOverBelowVertexLeftLowerZ(sqrt: real -> real, b: Vec3, hx: real, h: real, hz: real, p: Vec3, isOver: bool)
    requires IsSqrt(sqrt) && 0.0 <= hx && 0.0 <= h && 0.0 <= hz
    requires if isOver then p.y > b.y + h else p.y < b.y
    requires LeftOfBox(b, hx, p) && p.z <= b.z - hz
    ensures var d := BoxDistanceOverBelow(sqrt, b, hx, h, hz, p, isOver);
      0.0 <= d && Sq(d) == BoxGapsSquared(b, hx, h, hz, p)
  {
    var dx, dy, dz := p.x - (b.x - hx), p.y - FaceY(b, h, isOver), p.z - (b.z - hz);
    var gx, gy, gz := Gap(p.x, b.x - hx, b.x + hx), Gap(p.y, b.y, b.y + h), Gap(p.z, b.z - hz, b.z + hz);
    assert Sq(gy) == Sq(dy);
    GapBeyond(p.x, b.x - hx, b.x + hx);
    GapBeyond(p.z, b.z - hz, b.z + hz);
    assert Sq(gx) == Sq(dx) && Sq(gz) == Sq(dz);
    var d := BoxDistanceOverBelow(sqrt, b, hx, h, hz, p, isOver);
    assert d == TakeDiagonal3(sqrt, dx, dy, dz);
    SquaresAdd(d, dx, dy, dz, gx, gy, gz);
  }

  /** Over/below the box, within the x-extent, beyond a z-face: an edge. */
  lemma BoxOverBelowMiddleEdge(sqrt: real -> real, b: Vec3, hx: real, h: real, hz: real, p: Vec3, isOver: bool)
    requires IsSqrt(sqrt) && 0.0 <= hx && 0.0 <= h && 0.0 <= hz
    requires if isOver then p.y > b.y + h else p.y < b.y
    requires !RightOfBox(b, hx, p) && !LeftOfBox(b, hx, p) && BeyondZ(b, hz, p)
    ensures var d := BoxDistanceOverBelow(sqrt, b, hx, h, hz, p, isOver);
      0.0 <= d && Sq(d) == BoxGapsSquared(b, hx, h, hz, p)
  {
    var dy, dz := p.y - FaceY(b, h, isOver), p.z - MiddleZ(b, hz, p);
    var gx, gy, gz := Gap(p.x, b.x - hx, b.x + hx), Gap(p.y, b.y, b.y + h), Gap(p.z, b.z - hz, b.z + hz);
    assert Sq(gy) == Sq(dy);
    GapBeyond(p.z, b.z - hz, b.z + hz);
    assert gx == 0.0 && Sq(gz) == Sq(dz);
    var d := BoxDistanceOverBelow(sqrt, b, hx, h, hz, p, isOver);
    assert d == TakeDiagonal2(sqrt, dz, dy);
    SquaresAdd(d, 0.0, dy, dz, gx, gy, gz);
  }

  /** Straight over or under the box: a horizontal face. */
  lemma BoxOverBelowFace(sqrt: real -> real, b: Vec3, hx: real, h: real, hz: real, p: Vec3, isOver: bool)
    requires IsSqrt(sqrt) && 0.0 <= hx && 0.0 <= h && 0.0 <= hz
    requires if isOver then p.y > b.y + h else p.y < b.y
    requires !RightOfBox(b, hx, p) && !LeftOfBox(b, hx, p) && !BeyondZ(b, hz, p)
    ensures var d := BoxDistanceOverBelow(sqrt, b, hx, h, hz, p, isOver);
      0.0 <= d && Sq(d) == BoxGapsSquared(b, hx, h, hz, p)
  {
    var dy := p.y - FaceY(b, h, isOver);
    var gx, gy, gz := Gap(p.x, b.x - hx, b.x + hx), Gap(p.y, b.y, b.y + h), Gap(p.z, b.z - hz, b.z + hz);
    assert Sq(gy) == Sq(dy);
    assert gx == 0.0 && gz == 0.0;
    var d := BoxDistanceOverBelow(sqrt, b, hx, h, hz, p, isOver);
    assert d == Abs(dy);
    SquaresAdd(d, 0.0, dy, 0.0, gx, gy, gz);
  }

  /** Level with the box, beside an x-face, within the z-extent: a vertical face. */
  lemma BoxSameLevelSideFace(sqrt: real -> real, b: Vec3, hx: real, h: real, hz: real, p: Vec3)
    requires IsSqrt(sqrt) && 0.0 <= hx && 0.0 <= hz
    requires b.y <= p.y <= b.y + h
    requires (RightOfBox(b, hx, p) || LeftOfBox(b, hx, p)) && WithinZ(b, hz, p)
    ensures var d := BoxDistanceSameLevel(sqrt, b, hx, hz, p);
      0.0 <= d && Sq(d) == BoxGapsSquared(b, hx, h, hz, p)
  {
    var dx := p.x - SideFace(b, hx, p);
    var gx, gy, gz := Gap(p.x, b.x - hx, b.x + hx), Gap(p.y, b.y, b.y + h), Gap(p.z, b.z - hz, b.z + hz);
    GapBeyond(p.x, b.x - hx, b.x + hx);
    assert Sq(gx) == Sq(dx) && gy == 0.0 && gz == 0.0;
    var d := BoxDistanceSameLevel(sqrt, b, hx, hz, p);
    assert d == Abs(dx);
    SquaresAdd(d, dx, 0.0, 0.0, gx, gy, gz);
  }

  /** Level with the box, beside an x-face, outside the z-extent: a vertical edge. */
  lemma BoxSameLevelSideEdge(sqrt: real -> real, b: Vec3, hx: real, h: real, hz: real, p: Vec3)
    requires IsSqrt(sqrt) && 0.0 <= hx && 0.0 <= hz
    requires b.y <= p.y <= b.y + h
    requires (RightOfBox(b, hx, p) || LeftOfBox(b, hx, p)) && !WithinZ(b, hz, p)
    ensures var d := BoxDistanceSameLevel(sqrt, b, hx, hz, p);
      0.0 <= d && Sq(d) == BoxGapsSquared(b, hx, h, hz, p)
  {
    var dx, dz := p.x - SideFace(b, hx, p), p.z - CornerZ(b, hz, p);
    var gx, gy, gz := Gap(p.x, b.x - hx, b.x + hx), Gap(p.y, b.y, b.y + h), Gap(p.z, b.z - hz, b.z + hz);
    GapBeyond(p.x, b.x - hx, b.x + hx);
    GapBeyond(p.z, b.z - hz, b.z + hz);
    assert Sq(gx) == Sq(dx) && gy == 0.0 && Sq(gz) == Sq(dz);
    var d := BoxDistanceSameLevel(sqrt, b, hx, hz, p);
    assert d == TakeDiagonal2(sqrt, dx, dz);
    SquaresAdd(d, dx, 0.0, dz, gx, gy, gz);
  }

  /** Level with the box and within its x-extent: a z-face, or inside. */
  lemma BoxSameLevelMiddle(sqrt: real -> real, b: Vec3, hx: real, h: real, hz: real, p: Vec3)
    requires IsSqrt(sqrt) && 0.0 <= hx && 0.0 <= hz
    requires b.y <= p.y <= b.y + h
    requires !RightOfBox(b, hx, p) && !LeftOfBox(b, hx, p)
    ensures var d := BoxDistanceSameLevel(sqrt, b, hx, hz, p);
      0.0 <= d && Sq(d) == BoxGapsSquared(b, hx, h, hz, p)
  {
    var gx, gy, gz := Gap(p.x, b.x - hx, b.x + hx), Gap(p.y, b.y, b.y + h), Gap(p.z, b.z - hz, b.z + hz);
    assert gx == 0.0 && gy == 0.0;
    GapBeyond(p.z, b.z - hz, b.z + hz);
    var d := BoxDistanceSameLevel(sqrt, b, hx, hz, p);
    if BeyondZ(b, hz, p) {
      var dz := p.z - MiddleZ(b, hz, p);
      assert Sq(gz) == Sq(dz);
      assert d == Abs(dz);
      SquaresAdd(d, 0.0, 0.0, dz, gx, gy, gz);
    } else {
      assert d == 0.0;
      SquaresAdd(d, 0.0, 0.0, 0.0, gx, gy, gz);
    }
  }

  /** Over or below the box: one of the nine columns. */
  lemma BoxOverBelowIsEuclidean(sqrt: real -> real, b: Vec3, hx: real, h: real, hz: real, p: Vec3, isOver: bool)
    requires IsSqrt(sqrt) && 0.0 <= hx && 0.0 <= h && 0.0 <= hz
    requires if isOver then p.y > b.y + h else p.y < b.y
    ensures var d := BoxDistanceOverBelow(sqrt, b, hx, h, hz, p, isOver);
      0.0 <= d && Sq(d) == BoxGapsSquared(b, hx, h, hz, p)
  {
    if RightOfBox(b, hx, p) || LeftOfBox(b, hx, p) {
      if WithinZ(b, hz, p) { BoxOverBelowSideEdge(sqrt, b, hx, h, hz, p, isOver); }
      else if RightOfBox(b, hx, p) && p.z > b.z - hz { BoxOverBelowVertexRightHigherZ(sqrt, b, hx, h, hz, p, isOver); }
      else if RightOfBox(b, hx, p) { BoxOverBelowVertexRightLowerZ(sqrt, b, hx, h, hz, p, isOver); }
      else if p.z > b.z - hz { BoxOverBelowVertexLeftHigherZ(sqrt, b, hx, h, hz, p, isOver); }
      else { BoxOverBelowVertexLeftLowerZ(sqrt, b, hx, h, hz, p, isOver); }
    } else if BeyondZ(b, hz, p) {
      BoxOverBelowMiddleEdge(sqrt, b, hx, h, hz, p, isOver);
    } else {
      BoxOverBelowFace(sqrt, b, hx, h, hz, p, isOver);
    }
  }

  /** Level with the box: one of the nine columns. */
  lemma BoxSameLevelIsEuclidean(sqrt: real -> real, b: Vec3, hx: real, h: real, hz: real, p: Vec3)
    requires IsSqrt(sqrt) && 0.0 <= hx && 0.0 <= hz
    requires b.y <= p.y <= b.y + h
    ensures var d := BoxDistanceSameLevel(sqrt, b, hx, hz, p);
      0.0 <= d && Sq(d) == BoxGapsSquared(b, hx, h, hz, p)
  {
    if RightOfBox(b, hx, p) || LeftOfBox(b, hx, p) {
      if WithinZ(b, hz, p) { BoxSameLevelSideFace(sqrt, b, hx, h, hz, p); }
      else { BoxSameLevelSideEdge(sqrt, b, hx, h, hz, p); }
    } else {
      BoxSameLevelMiddle(sqrt, b, hx, h, hz, p);
    }
  }

  /** ParallelepipedCollision.getDistance is the exact euclidean distance from the point to
    * the solid box: its square is the sum of the squared gaps along the three axes. */
  lemma BoxDistanceIsEuclidean(sqrt: real -> real, b: Vec3, hx: real, h: real, hz: real, p: Vec3)
    requires IsSqrt(sqrt) && 0.0 <= hx && 0.0 <= h && 0.0 <= hz
    ensures var d := BoxDistance(sqrt, b, hx, h, hz, p);
      0.0 <= d && Sq(d) == BoxGapsSquared(b, hx, h, hz, p)
  {
    var d := BoxDistance(sqrt, b, hx, h, hz, p);
    if p.y > b.y + h - EPSILON_FOR_SEPARATION {
      assert d == BoxDistanceOverBelow(sqrt, b, hx, h, hz, p, true);
      BoxOverBelowIsEuclidean(sqrt, b, hx, h, hz, p, true);
    } else if p.y < b.y + EPSILON_FOR_SEPARATION {
      assert d == BoxDistanceOverBelow(sqrt, b, hx, h, hz, p, false);
      BoxOverBelowIsEuclidean(sqrt, b, hx, h, hz, p, false);
    } else {
      assert d == BoxDistanceSameLevel(sqrt, b, hx, hz, p);
      BoxSameLevelIsEuclidean(sqrt, b, hx, h, hz, p);
    }
  }

  /** The cylinder's distance vanishes exactly on the solid cylinder. */
  lemma CylinderDistanceZeroIffInside(sqrt: real -> real, b: Vec3, r: real, h: real, p: Vec3)
    requires IsSqrt(sqrt) && 0.0 <= r && 0.0 <= h
    ensures CylinderDistance(sqrt, b, r, h, p) == 0.0 <==> IsPointInside(sqrt, Cylinder(b, r, h), p)
  {
    var d := CylinderDistance(sqrt, b, r, h, p);
    var m := Max(0.0, TakeDiagonal2(sqrt, p.x - b.x, p.z - b.z) - r);
    var g := Gap(p.y, b.y, b.y + h);
    ZeroIffSquareZero(d);
    SumOfSquaresZero(m, g, 0.0);
  }

  /** The parallelepiped's distance vanishes exactly on the solid box. */
  lemma BoxDistanceZeroIffInside(sqrt: real -> real, b: Vec3, hx: real, h: real, hz: real, p: Vec3)
    requires IsSqrt(sqrt) && 0.0 <= hx && 0.0 <= h && 0.0 <= hz
    ensures BoxDistance(sqrt, b, hx, h, hz, p) == 0.0 <==> IsPointInside(sqrt, Parallelepiped(b, hx, h, hz), p)
  {
    var d := BoxDistance(sqrt, b, hx, h, hz, p);
    BoxDistanceIsEuclidean(sqrt, b, hx, h, hz, p);
    ZeroIffSquareZero(d);
    SumOfSquaresZero(Gap(p.x, b.x - hx, b.x + hx), Gap(p.y, b.y, b.y + h), Gap(p.z, b.z - hz, b.z + hz));
  }

  /** Every shape with geometry reports a non-negative distance, and zero exactly for the
    * points of its solid. */
  lemma DistanceZeroIffInside(sqrt: real -> real, s: Shape, p: Vec3)
    requires IsSqrt(sqrt) && WellFormed(s) && !s.NoShape?
    ensures 0.0 <= GetDistance(sqrt, s, p)
    ensures GetDistance(sqrt, s, p) == 0.0 <==> IsPointInside(sqrt, s, p)
  {
    match s
    case Sphere(c, r) =>
    case Cylinder(b, r, h) => CylinderDistanceZeroIffInside(sqrt, b, r, h, p);
    case Parallelepiped(b, hx, h, hz) =>
      BoxDistanceIsEuclidean(sqrt, b, hx, h, hz, p);
      BoxDistanceZeroIffInside(sqrt, b, hx, h, hz, p);
  }

  // ---- Ray tests ----

  /** Whether the k-th probe of the ray march lies in the solid. */
  predicate ProbeInside(inside: Vec3 -> bool, o: Vec3, d: Vec3, k: int)
  {
    inside(RayPoint(o, d, SampleParameter(k)))
  }

  /** The march from probe k misses exactly when none of the probes k .. 20 is inside. */
  lemma {:induction false} FirstInsideSampleMiss(sqrt: real -> real, inside: Vec3 -> bool, o: Vec3, d: Vec3, k: nat)
    requires IsSqrt(sqrt)
    ensures FirstInsideSample(sqrt, inside, o, d, k).None? <==>
      forall j :: k <= j <= RAY_NUMBER_OF_POINTS ==> !ProbeInside(inside, o, d, j)
    decreases RAY_NUMBER_OF_POINTS + 1 - k
  {
    if k <= RAY_NUMBER_OF_POINTS && !ProbeInside(inside, o, d, k) {
      FirstInsideSampleMiss(sqrt, inside, o, d, k + 1);
    }
  }

  /** When probe j is the first inside one from k on, the march reports the distance from the
    * origin to probe j. */
  lemma {:induction false} FirstInsideSampleHit(sqrt: real -> real, inside: Vec3 -> bool, o: Vec3, d: Vec3, k: nat, j: nat)
    requires IsSqrt(sqrt)
    requires k <= j <= RAY_NUMBER_OF_POINTS && ProbeInside(inside, o, d, j)
    requires forall i :: k <= i < j ==> !ProbeInside(inside, o, d, i)
    ensures FirstInsideSample(sqrt, inside, o, d, k) == Some(HitDistance(sqrt, o, RayPoint(o, d, SampleParameter(j))))
    decreases j - k
  {
    if k < j {
      assert !ProbeInside(inside, o, d, k);
      FirstInsideSampleHit(sqrt, inside, o, d, k + 1, j);
    }
  }

  /** |t d|^2 == |d|^2 t^2. */
  lemma ScaledLength(d: Vec3, t: real)
    ensures LengthSquared(Scale(d, t)) == LengthSquared(d) * (t * t)
  {
  }

  /** Along a unit direction the distance from the origin to the point at t >= 0 is t. */
  lemma HitDistanceIsParameter(sqrt: real -> real, o: Vec3, d: Vec3, t: real)
    requires IsSqrt(sqrt) && LengthSquared(d) == 1.0 && 0.0 <= t
    ensures HitDistance(sqrt, o, RayPoint(o, d, t)) == t
  {
    var p := RayPoint(o, d, t);
    var h := HitDistance(sqrt, o, p);
    ScaledLength(d, t);
    assert Sq(o.x - p.x) + Sq(o.y - p.y) + Sq(o.z - p.z) == LengthSquared(Scale(d, t));
    SqrtOfSquare(t, h);
  }

  /** |o + t d - c|^2 for a unit d, with l = c - o: |l|^2 - 2 t (l . d) + t^2. */
  lemma DistanceAlongRay(o: Vec3, d: Vec3, c: Vec3, t: real)
    requires LengthSquared(d) == 1.0
    ensures LengthSquared(Sub(RayPoint(o, d, t), c)) ==
      LengthSquared(Sub(c, o)) - 2.0 * t * DotProduct(Sub(c, o), d) + t * t
  {
    var l := Sub(c, o);
    assert Sub(RayPoint(o, d, t), c) == Sub(Scale(d, t), l);
    ScaledLength(d, t);
    assert LengthSquared(Sub(Scale(d, t), l)) == LengthSquared(Scale(d, t)) - 2.0 * t * DotProduct(l, d) + LengthSquared(l);
  }

  /** A hit of the sphere's ray test is backed by a point of the ray, at t >= 0, in the closed
    * ball: the origin itself, or the point of the ray closest to the centre. */
  lemma SphereRayHitIsSound(sqrt: real -> real, c: Vec3, r: real, o: Vec3, d: Vec3)
    requires IsSqrt(sqrt) && LengthSquared(d) == 1.0
    requires SphereRayIntersection(sqrt, c, r, o, d).Some?
    ensures exists t :: 0.0 <= t && LengthSquared(Sub(RayPoint(o, d, t), c)) <= r * r
  {
    var l := Sub(c, o);
    if LengthSquared(l) < r * r {
      assert Sub(RayPoint(o, d, 0.0), c) == Scale(l, -1.0);
      assert LengthSquared(Scale(l, -1.0)) == LengthSquared(l);
    } else {
      var s := DotProduct(l, d);
      DistanceAlongRay(o, d, c, s);
      assert LengthSquared(Sub(RayPoint(o, d, s), c)) == LengthSquared(l) - s * s;
    }
  }

  /** The sphere's ray test finds every ball the ray enters: a point of the ray at t >= 0
    * strictly inside the ball means a hit. */
  lemma SphereRayHitIsComplete(sqrt: real -> real, c: Vec3, r: real, o: Vec3, d: Vec3, t: real)
    requires IsSqrt(sqrt) && LengthSquared(d) == 1.0 && 0.0 <= t
    requires LengthSquared(Sub(RayPoint(o, d, t), c)) < r * r
    ensures SphereRayIntersection(sqrt, c, r, o, d).Some?
  {
    var l := Sub(c, o);
    var s := DotProduct(l, d);
    DistanceAlongRay(o, d, c, t);
    if LengthSquared(l) >= r * r {
      SquareNonNeg(t);
      if s < 0.0 {
        MulNonNeg(t, -s);
        assert false;
      }
      SquareNonNeg(t - s);
      assert (t - s) * (t - s) == t * t - 2.0 * t * s + s * s;
    }
  }

  /** The distance the sphere reports for a hit is at most how far along the ray any point of
    * the ball lies. */
  lemma SphereRayDistanceBound(sqrt: real -> real, c: Vec3, r: real, o: Vec3, d: Vec3, t: real)
    requires IsSqrt(sqrt) && LengthSquared(d) == 1.0 && 0.0 <= t && 0.0 <= r
    requires SphereRayIntersection(sqrt, c, r, o, d).Some?
    requires LengthSquared(Sub(RayPoint(o, d, t), c)) <= r * r
    ensures SphereRayIntersection(sqrt, c, r, o, d).value <= t
  {
    var l := Sub(c, o);
    if LengthSquared(l) >= r * r {
      OriginToRayPoint(o, d, t);
      SphereDistanceBound(sqrt, c, r, o, RayPoint(o, d, t), t);
      assert SphereRayIntersection(sqrt, c, r, o, d) == Some(SphereDistance(sqrt, c, r, o));
    }
  }

  /** Along a unit direction the point at t is t^2 away (squared) from the origin. */
  lemma OriginToRayPoint(o: Vec3, d: Vec3, t: real)
    requires LengthSquared(d) == 1.0
    ensures LengthSquared(Sub(o, RayPoint(o, d, t))) == t * t
  {
    assert Sub(o, RayPoint(o, d, t)) == Scale(d, -t);
    ScaledLength(d, -t);
  }

  /** The distance from o to a ball is at most the distance from o to any point q of it. */
  lemma SphereDistanceBound(sqrt: real -> real, c: Vec3, r: real, o: Vec3, q: Vec3, t: real)
    requires IsSqrt(sqrt) && 0.0 <= t && 0.0 <= r
    requires LengthSquared(Sub(o, q)) == t * t && LengthSquared(Sub(q, c)) <= r * r
    ensures SphereDistance(sqrt, c, r, o) <= t
  {
    var dist := SphereDistance(sqrt, c, r, o);
    if dist > 0.0 {
      GapAtMost(o, q, c, t, r, dist);
    }
  }

  /** A reported march hit comes from some probe from k on that lies in the solid. */
  lemma {:induction false} FirstInsideSampleSome(sqrt: real -> real, inside: Vec3 -> bool, o: Vec3, d: Vec3, k: nat)
    requires IsSqrt(sqrt)
    ensures FirstInsideSample(sqrt, inside, o, d, k).Some? ==>
      exists j :: k <= j <= RAY_NUMBER_OF_POINTS && ProbeInside(inside, o, d, j) &&
        FirstInsideSample(sqrt, inside, o, d, k).value == HitDistance(sqrt, o, RayPoint(o, d, SampleParameter(j)))
    decreases RAY_NUMBER_OF_POINTS + 1 - k
  {
    if k <= RAY_NUMBER_OF_POINTS && !ProbeInside(inside, o, d, k) {
      FirstInsideSampleSome(sqrt, inside, o, d, k + 1);
    }
  }

  /** A hit of the cylinder's or the parallelepiped's ray test is a point of the solid on the
    * ray, at most RAY_MAX_DISTANCE along it, and for a unit direction the reported distance is
    * how far along the ray that point lies. */
  lemma MarchedRayHitIsSound(sqrt: real -> real, s: Shape, o: Vec3, d: Vec3)
    requires IsSqrt(sqrt) && (s.Cylinder? || s.Parallelepiped?)
    requires RayIntersection(sqrt, s, o, d).Some?
    ensures exists t :: (0.0 <= t <= RAY_MAX_DISTANCE && IsPointInside(sqrt, s, RayPoint(o, d, t)) &&
      (LengthSquared(d) == 1.0 ==> RayIntersection(sqrt, s, o, d).value == t))
  {
    var r := RayIntersection(sqrt, s, o, d);
    if IsPointInside(sqrt, s, o) {
      assert r.value == 0.0;
      assert RayPoint(o, d, 0.0) == o;
    } else {
      var inside := InsideTest(sqrt, s);
      assert r == FirstInsideSample(sqrt, inside, o, d, 1);
      FirstInsideSampleSome(sqrt, inside, o, d, 1);
      var j :| 1 <= j <= RAY_NUMBER_OF_POINTS && ProbeInside(inside, o, d, j) &&
        r.value == HitDistance(sqrt, o, RayPoint(o, d, SampleParameter(j)));
      var t := SampleParameter(j);
      SampleParameterRange(j);
      if LengthSquared(d) == 1.0 {
        HitDistanceIsParameter(sqrt, o, d, t);
      }
    }
  }

  /** Every probe parameter lies in [0, RAY_MAX_DISTANCE]. */
  lemma SampleParameterRange(k: int)
    requires 0 <= k <= RAY_NUMBER_OF_POINTS
    ensures 0.0 <= SampleParameter(k) <= RAY_MAX_DISTANCE
  {
  }

  // ---- Body scan ----

  /** The region of the i-th body sample counted up from the feet: the lowest FEET_POINTS are
    * feet, the highest FEET_POINTS head, the rest body. */
  function RegionOf(i: int): PointType
  {
    if i < FEET_POINTS then Feet
    else if i > (NUMBER_OF_POINTS_FOR_BODY - 1) - FEET_POINTS then Head
    else Body
  }

  /** Where the i-th body sample comes in the scan: the 7 body samples first, upwards, then
    * the 2 feet samples, upwards, then the 2 head samples from the eyes down. */
  function ScanPosition(i: int): int
  {
    if i < FEET_POINTS then 7 + i
    else if i > (NUMBER_OF_POINTS_FOR_BODY - 1) - FEET_POINTS then 9 + (NUMBER_OF_POINTS_FOR_BODY - 1 - i)
    else i - FEET_POINTS
  }

  /** The sample tested k-th, counted up from the feet. */
  function BodyIndex(k: int): int
  {
    if k < 7 then k + FEET_POINTS
    else if k < 9 then k - 7
    else 9 + (NUMBER_OF_POINTS_FOR_BODY - 1) - k
  }

  /** The head samples are the highest body samples. */
  lemma HeadPointIsBodyPoint(cameraPosition: Vec3, personHeight: real, j: int)
    requires 0 <= j < FEET_POINTS
    ensures HeadPoint(cameraPosition, personHeight, j) ==
      BodyPoint(cameraPosition, personHeight, NUMBER_OF_POINTS_FOR_BODY - 1 - j)
  {
    if j == 0 {
      assert (10 as real) * Step(personHeight) == personHeight;
    } else {
      assert (9 as real) * Step(personHeight) == personHeight - Step(personHeight);
    }
  }

  /** The scan tests each of the 11 body samples exactly once, labelled with its region:
    * position `ScanPosition(i)` holds sample i, and `BodyIndex` undoes `ScanPosition`. */
  lemma ScanOrderLayout(cameraPosition: Vec3, personHeight: real)
    ensures |ScanOrder(cameraPosition, personHeight)| == NUMBER_OF_POINTS_FOR_BODY
    ensures forall i :: 0 <= i < NUMBER_OF_POINTS_FOR_BODY ==>
      0 <= ScanPosition(i) < NUMBER_OF_POINTS_FOR_BODY && BodyIndex(ScanPosition(i)) == i &&
      ScanOrder(cameraPosition, personHeight)[ScanPosition(i)] == Contact(BodyPoint(cameraPosition, personHeight, i), RegionOf(i))
    ensures forall k :: 0 <= k < NUMBER_OF_POINTS_FOR_BODY ==>
      0 <= BodyIndex(k) < NUMBER_OF_POINTS_FOR_BODY && ScanPosition(BodyIndex(k)) == k
  {
    var scan := ScanOrder(cameraPosition, personHeight);
    forall i | 0 <= i < NUMBER_OF_POINTS_FOR_BODY
      ensures scan[ScanPosition(i)] == Contact(BodyPoint(cameraPosition, personHeight, i), RegionOf(i))
    {
      if i > (NUMBER_OF_POINTS_FOR_BODY - 1) - FEET_POINTS {
        HeadPointIsBodyPoint(cameraPosition, personHeight, NUMBER_OF_POINTS_FOR_BODY - 1 - i);
      }
    }
  }

  /** FirstContact returns the first candidate that touches, and None only when none does. */
  lemma {:induction false} FirstContactFindsFirst(touches: Vec3 -> bool, candidates: seq<Contact>)
    ensures FirstContact(touches, candidates).None? <==>
      forall k :: 0 <= k < |candidates| ==> !touches(candidates[k].point)
    ensures FirstContact(touches, candidates).Some? ==>
      exists k :: 0 <= k < |candidates| && FirstContact(touches, candidates) == Some(candidates[k]) &&
        touches(candidates[k].point) &&
        forall m :: 0 <= m < k ==> !touches(candidates[m].point)
    decreases |candidates|
  {
    if |candidates| > 0 && !touches(candidates[0].point) {
      var rest := candidates[1..];
      FirstContactFindsFirst(touches, rest);
      assert forall k :: 0 <= k < |rest| ==> rest[k] == candidates[k + 1];
      if FirstContact(touches, rest).Some? {
        var k :| 0 <= k < |rest| && FirstContact(touches, rest) == Some(rest[k]) &&
          touches(rest[k].point) && forall m :: 0 <= m < k ==> !touches(rest[m].point);
        assert forall m :: 0 <= m < k + 1 ==> !touches(candidates[m].point) by {
          forall m | 0 <= m < k + 1 ensures !touches(candidates[m].point) {
            if m > 0 { assert candidates[m] == rest[m - 1]; }
          }
        }
      } else {
        forall k | 0 <= k < |candidates| ensures !touches(candidates[k].point) {
          if k > 0 { assert candidates[k] == rest[k - 1]; }
        }
      }
    }
  }

  /** checkCollision reports no contact exactly when no body sample touches the shape; a
    * reported contact is a touching sample with its region, and every sample the scan tests
    * before it misses. */
  lemma BodyScanFindsFirst(sqrt: real -> real, s: Shape, cameraPosition: Vec3, personHeight: real)
    requires IsSqrt(sqrt) && !s.NoShape?
    ensures BodyScan(sqrt, s, cameraPosition, personHeight).None? <==>
      forall i :: 0 <= i < NUMBER_OF_POINTS_FOR_BODY ==> !Touches(sqrt, s, BodyPoint(cameraPosition, personHeight, i))
    ensures BodyScan(sqrt, s, cameraPosition, personHeight).Some? ==>
      exists i :: (0 <= i < NUMBER_OF_POINTS_FOR_BODY &&
        BodyScan(sqrt, s, cameraPosition, personHeight) == Some(Contact(BodyPoint(cameraPosition, personHeight, i), RegionOf(i))) &&
        Touches(sqrt, s, BodyPoint(cameraPosition, personHeight, i)) &&
        forall j :: 0 <= j < NUMBER_OF_POINTS_FOR_BODY && ScanPosition(j) < ScanPosition(i) ==>
          !Touches(sqrt, s, BodyPoint(cameraPosition, personHeight, j)))
  {
    var scan := ScanOrder(cameraPosition, personHeight);
    var touches := TouchTest(sqrt, s);
    ScanOrderLayout(cameraPosition, personHeight);
    FirstContactFindsFirst(touches, scan);
    if BodyScan(sqrt, s, cameraPosition, personHeight).None? {
      forall i | 0 <= i < NUMBER_OF_POINTS_FOR_BODY
        ensures !Touches(sqrt, s, BodyPoint(cameraPosition, personHeight, i))
      {
        assert scan[ScanPosition(i)].point == BodyPoint(cameraPosition, personHeight, i);
      }
    } else {
      var k :| 0 <= k < |scan| && FirstContact(touches, scan) == Some(scan[k]) &&
        touches(scan[k].point) && forall m :: 0 <= m < k ==> !touches(scan[m].point);
      var i := BodyIndex(k);
      assert scan[ScanPosition(i)] == Contact(BodyPoint(cameraPosition, personHeight, i), RegionOf(i));
      forall j | 0 <= j < NUMBER_OF_POINTS_FOR_BODY && ScanPosition(j) < ScanPosition(i)
        ensures !Touches(sqrt, s, BodyPoint(cameraPosition, personHeight, j))
      {
        assert scan[ScanPosition(j)].point == BodyPoint(cameraPosition, personHeight, j);
      }
    }
  }

  /** The priority checkCollision gives the regions: a feet contact means no body sample
    * touches, a head contact means neither a body nor a feet sample does. */
  lemma BodyScanPriority(sqrt: real -> real, s: Shape, cameraPosition: Vec3, personHeight: real)
    requires IsSqrt(sqrt)
    requires BodyScan(sqrt, s, cameraPosition, personHeight).Some?
    ensures Touches(sqrt, s, BodyScan(sqrt, s, cameraPosition, personHeight).value.point)
    ensures BodyScan(sqrt, s, cameraPosition, personHeight).value.pointType == Feet ==>
      forall i :: FEET_POINTS <= i <= (NUMBER_OF_POINTS_FOR_BODY - 1) - FEET_POINTS ==>
        !Touches(sqrt, s, BodyPoint(cameraPosition, personHeight, i))
    ensures BodyScan(sqrt, s, cameraPosition, personHeight).value.pointType == Head ==>
      forall i :: 0 <= i <= (NUMBER_OF_POINTS_FOR_BODY - 1) - FEET_POINTS ==>
        !Touches(sqrt, s, BodyPoint(cameraPosition, personHeight, i))
  {
    BodyScanFindsFirst(sqrt, s, cameraPosition, personHeight);
    var i :| (0 <= i < NUMBER_OF_POINTS_FOR_BODY &&
        BodyScan(sqrt, s, cameraPosition, personHeight) == Some(Contact(BodyPoint(cameraPosition, personHeight, i), RegionOf(i))) &&
        Touches(sqrt, s, BodyPoint(cameraPosition, personHeight, i)) &&
        forall j :: 0 <= j < NUMBER_OF_POINTS_FOR_BODY && ScanPosition(j) < ScanPosition(i) ==>
          !Touches(sqrt, s, BodyPoint(cameraPosition, personHeight, j)));
  }

  // ---- Contact response ----

  /** Removing the inward part along a unit normal takes off exactly dot(v, n) times n. */
  lemma RemoveAlongUnitNormal(sqrt: real -> real, v: Vec3, n: Vec3)
    requires IsSqrt(sqrt) && LengthSquared(n) == 1.0
    ensures n != Vec3(0.0, 0.0, 0.0)
    ensures DotProduct(v, n) > 0.0 ==> Sub(v, RemoveInwardPart(sqrt, v, n)) == Scale(n, DotProduct(v, n))
  {
    assert n != Vec3(0.0, 0.0, 0.0);
    var p := ProjectionOnVector2(sqrt, v, n);
    assert p == Scale(n, DotProduct(v, n) / 1.0);
  }

  /** A contact from above (feet) or below (head) stops only the vertical motion into the
    * shape, the same way for all three classes: the parallelepiped's removal along its
    * vertical normal zeroes the y component just as the sphere and the cylinder do. */
  lemma VerticalContactStopsVertical(sqrt: real -> real, s: Shape, v: Vec3, collidedPoint: Vec3, pointType: PointType)
    requires IsSqrt(sqrt) && VerticalContact(s, collidedPoint, pointType)
    ensures pointType == Feet ==>
      GetCollisionVector(sqrt, s, v, collidedPoint, pointType) == (if v.y < 0.0 then Vec3(v.x, 0.0, v.z) else v)
    ensures pointType == Head ==>
      GetCollisionVector(sqrt, s, v, collidedPoint, pointType) == (if v.y > 0.0 then Vec3(v.x, 0.0, v.z) else v)
  {
    if s.Parallelepiped? {
      var down, up := Vec3(0.0, -1.0, 0.0), Vec3(0.0, 1.0, 0.0);
      if pointType == Feet {
        RemoveAlongUnitNormal(sqrt, v, down);
        assert Scale(down, DotProduct(v, down)) == Vec3(0.0, v.y, 0.0);
      } else {
        RemoveAlongUnitNormal(sqrt, v, up);
        assert Scale(up, DotProduct(v, up)) == Vec3(0.0, v.y, 0.0);
      }
    }
  }

  /** A side contact removes from v exactly its component along the inside normal when v
    * points into the surface, keeps v otherwise, and keeps v where a round shape has no
    * normal (the contact on its axis). */
  lemma SideContactRemovesInwardPart(sqrt: real -> real, s: Shape, v: Vec3, collidedPoint: Vec3, pointType: PointType)
    requires IsSqrt(sqrt) && !s.NoShape? && !VerticalContact(s, collidedPoint, pointType)
    ensures FrontNormal(sqrt, s, collidedPoint).None? ==> GetCollisionVector(sqrt, s, v, collidedPoint, pointType) == v
    ensures FrontNormal(sqrt, s, collidedPoint).Some? ==>
      var n := FrontNormal(sqrt, s, collidedPoint).value;
      var r := GetCollisionVector(sqrt, s, v, collidedPoint, pointType);
      LengthSquared(n) == 1.0 && DotProduct(r, n) <= 0.0 &&
      (DotProduct(v, n) <= 0.0 ==> r == v) &&
      (DotProduct(v, n) > 0.0 ==> DotProduct(r, n) == 0.0 && Sub(v, r) == Scale(n, DotProduct(v, n)))
  {
    match FrontNormal(sqrt, s, collidedPoint)
    case None =>
    case Some(n) =>
      RemoveAlongUnitNormal(sqrt, v, n);
  }

  /** Correcting an already corrected vector changes nothing. */
  lemma CollisionVectorIdempotent(sqrt: real -> real, s: Shape, v: Vec3, collidedPoint: Vec3, pointType: PointType)
    requires IsSqrt(sqrt)
    ensures var r := GetCollisionVector(sqrt, s, v, collidedPoint, pointType);
      GetCollisionVector(sqrt, s, r, collidedPoint, pointType) == r
  {
    var r := GetCollisionVector(sqrt, s, v, collidedPoint, pointType);
    if s.NoShape? {
    } else if VerticalContact(s, collidedPoint, pointType) {
      VerticalContactStopsVertical(sqrt, s, v, collidedPoint, pointType);
      VerticalContactStopsVertical(sqrt, s, r, collidedPoint, pointType);
    } else {
      SideContactRemovesInwardPart(sqrt, s, v, collidedPoint, pointType);
      SideContactRemovesInwardPart(sqrt, s, r, collidedPoint, pointType);
    }
  }

  // ---- Broad phase ----

  /** Three coordinates bounded in absolute value lie in the ball of the summed bounds. */
  lemma SquaresWithinSum(a: real, b: real, c: real, boundA: real, boundB: real, boundC: real)
    requires -boundA <= a <= boundA && -boundB <= b <= boundB && -boundC <= c <= boundC
    ensures a * a + b * b + c * c <= (boundA + boundB + boundC) * (boundA + boundB + boundC)
  {
    SquareBound(a, boundA);
    SquareBound(b, boundB);
    SquareBound(c, boundC);
    MulNonNeg(boundA, boundB);
    MulNonNeg(boundA, boundC);
    MulNonNeg(boundB, boundC);
  }

  lemma CylinderWithinExtent(sqrt: real -> real, b: Vec3, r: real, h: real, q: Vec3)
    requires IsSqrt(sqrt) && 0.0 <= r && 0.0 <= h
    requires TakeDiagonal2(sqrt, q.x - b.x, q.z - b.z) <= r && b.y <= q.y <= b.y + h
    ensures LengthSquared(Sub(q, b)) <= (r + h) * (r + h)
  {
    var horizontal := TakeDiagonal2(sqrt, q.x - b.x, q.z - b.z);
    SquareLeIff(horizontal, r);
    assert Sq(q.x - b.x) + Sq(q.z - b.z) <= r * r;
    SquareBound(q.y - b.y, h);
    MulNonNeg(r, h);
  }

  /** Every point of a well-formed solid lies within Extent of the shape's position. */
  lemma SolidWithinExtent(sqrt: real -> real, s: Shape, q: Vec3)
    requires IsSqrt(sqrt) && WellFormed(s) && IsPointInside(sqrt, s, q)
    ensures LengthSquared(Sub(q, s.position)) <= Extent(s) * Extent(s)
  {
    match s
    case Sphere(_, _) =>
    case Cylinder(b, r, h) =>
      CylinderWithinExtent(sqrt, b, r, h, q);
    case Parallelepiped(b, hx, h, hz) =>
      SquaresWithinSum(q.x - b.x, q.z - b.z, q.y - b.y, hx, hz, h);
  }

  /** A point whose distance from a centre exceeds extent + allowance is farther than
    * allowance from every point within extent of that centre. */
  lemma FartherThanBall(sqrt: real -> real, point: Vec3, q: Vec3, centre: Vec3, allowance: real, extent: real)
    requires IsSqrt(sqrt) && 0.0 <= allowance && 0.0 <= extent
    requires LengthSquared(Sub(q, centre)) <= extent * extent
    requires TakeDiagonal3(sqrt, point.x - centre.x, point.y - centre.y, point.z - centre.z) > allowance + extent
    ensures LengthSquared(Sub(point, q)) > Sq(allowance)
  {
    var diagonal := TakeDiagonal3(sqrt, point.x - centre.x, point.y - centre.y, point.z - centre.z);
    FartherThanSum(point, q, centre, allowance, extent, diagonal);
  }

  /** isFarAway is sound: when it holds, every point of the solid is farther from the given
    * point than bodyAllowance + extraAllowance. */
  lemma FarAwayIsSound(sqrt: real -> real, s: Shape, point: Vec3, q: Vec3, bodyAllowance: real, extraAllowance: real)
    requires IsSqrt(sqrt) && WellFormed(s) && 0.0 <= bodyAllowance + extraAllowance
    requires IsFarAway(sqrt, s, point, bodyAllowance, extraAllowance) && IsPointInside(sqrt, s, q)
    ensures LengthSquared(Sub(point, q)) > Sq(bodyAllowance + extraAllowance)
  {
    SolidWithinExtent(sqrt, s, q);
    FartherThanBall(sqrt, point, q, s.position, bodyAllowance + extraAllowance, Extent(s));
  }

  /** NoCollision: never hit by a ray, never touched by the body, always far away, at the
    * fixed distance NO_COLLISION_DISTANCE, and stopping no push and no motion. */
  lemma NoCollisionIsInert(sqrt: real -> real, o: Vec3, d: Vec3, cameraPosition: Vec3, personHeight: real,
                          v: Vec3, collidedPoint: Vec3, pointType: PointType, bodyAllowance: real, extraAllowance: real)
    requires IsSqrt(sqrt)
    ensures RayIntersection(sqrt, NoShape, o, d).None?
    ensures BodyScan(sqrt, NoShape, cameraPosition, personHeight).None?
    ensures GetDistance(sqrt, NoShape, o) == 100000.0
    ensures IsFarAway(sqrt, NoShape, o, bodyAllowance, extraAllowance)
    ensures GetCollisionForce(sqrt, NoShape, v, collidedPoint, pointType) == Vec3(0.0, 0.0, 0.0)
    ensures GetCollisionVelocity(sqrt, NoShape, v, collidedPoint, pointType) == Vec3(0.0, 0.0, 0.0)
  {
  }

  /** A ray aimed straight at the centre of a ball from one unit away hits it at one unit
    * less its radius: with r = 0.7 this is the sphere test case, distance 0.3. */
  lemma SphereRayHeadOn(sqrt: real -> real, c: Vec3, r: real, o: Vec3, d: Vec3)
    requires IsSqrt(sqrt) && Sub(c, o) == d && LengthSquared(d) == 1.0 && 0.0 <= r < 1.0
    ensures SphereRayIntersection(sqrt, c, r, o, d) == Some(1.0 - r)
  {
    SquareLess(r, 1.0);
    assert DotProduct(Sub(c, o), d) == 1.0;
    assert LengthSquared(Sub(o, c)) == LengthSquared(d);
    var dist := SphereDistance(sqrt, c, r, o);
    SqrtOfSquare(1.0, dist + r);
  }
}
