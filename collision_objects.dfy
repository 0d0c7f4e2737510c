/** The collision-object classes of Collision.js with their mutable fields, and the two
  * loops every class runs: the ray march of the cylinder and the parallelepiped, and the
  * body-sample scan of checkCollision. Each method is proved against the pure definitions
  * of module Collision, whose properties are proved there. */
module CollisionObjects {
  import opened OtherUtils
  import opened Collision
  import opened Wrappers

  /** The vector a three-element array holds. */
  function ToVec3(a: array<real>): Vec3
    reads a
    requires a.Length == 3
  {
    Vec3(a[0], a[1], a[2])
  }

  /** checkRayIntersection of CylinderCollision and ParallelepipedCollision: a start point
    * inside is a hit at distance zero, a shape behind the start point a miss, otherwise the
    * ray is marched. `distance[0]` is written on a hit only. */
  method MarchRay(sqrt: real -> real, s: Shape, rayStartPoint: Vec3, rayNormalisedDir: Vec3, distance: array<real>)
    returns (hit: bool)
    requires IsSqrt(sqrt) && (s.Cylinder? || s.Parallelepiped?) && 1 <= distance.Length
    modifies distance
    ensures hit <==> RayIntersection(sqrt, s, rayStartPoint, rayNormalisedDir).Some?
    ensures hit ==> distance[..] == old(distance[..])[0 := RayIntersection(sqrt, s, rayStartPoint, rayNormalisedDir).value]
    ensures !hit ==> distance[..] == old(distance[..])
  {
    if IsPointInside(sqrt, s, rayStartPoint) {
      distance[0] := 0.0;
      return true;
    }
    var l3Dimensions := Sub(s.position, rayStartPoint);
    var projection := DotProduct(l3Dimensions, rayNormalisedDir);
    if projection < 0.0 {
      return false;
    }
    hit := ProbeRay(sqrt, InsideTest(sqrt, s), rayStartPoint, rayNormalisedDir, distance);
  }

  /** One probe of the march: a probe inside ends it, one outside passes to the next. */
  lemma FirstInsideSampleStep(sqrt: real -> real, inside: Vec3 -> bool, o: Vec3, d: Vec3, k: nat)
    requires IsSqrt(sqrt) && k <= RAY_NUMBER_OF_POINTS
    ensures ProbeInside(inside, o, d, k) ==>
      FirstInsideSample(sqrt, inside, o, d, k) == Some(HitDistance(sqrt, o, RayPoint(o, d, SampleParameter(k))))
    ensures !ProbeInside(inside, o, d, k) ==> FirstInsideSample(sqrt, inside, o, d, k) == FirstInsideSample(sqrt, inside, o, d, k + 1)
  {
  }

  /** The loop of the ray march: the ray is probed at k * 3/20 for k = 1 .. 20 and the
    * first probe inside the solid is the hit, at its distance from the start point. */
  method ProbeRay(sqrt: real -> real, inside: Vec3 -> bool, rayStartPoint: Vec3, rayNormalisedDir: Vec3, distance: array<real>)
    returns (hit: bool)
    requires IsSqrt(sqrt) && 1 <= distance.Length
    modifies distance
    ensures hit <==> FirstInsideSample(sqrt, inside, rayStartPoint, rayNormalisedDir, 1).Some?
    ensures hit ==> distance[..] == old(distance[..])[0 := FirstInsideSample(sqrt, inside, rayStartPoint, rayNormalisedDir, 1).value]
    ensures !hit ==> distance[..] == old(distance[..])
  {
    ghost var before := distance[..];
    var k := 1;
    while k <= RAY_NUMBER_OF_POINTS
      invariant 1 <= k <= RAY_NUMBER_OF_POINTS + 1
      invariant FirstInsideSample(sqrt, inside, rayStartPoint, rayNormalisedDir, 1) ==
        FirstInsideSample(sqrt, inside, rayStartPoint, rayNormalisedDir, k)
      invariant distance[..] == before
      decreases RAY_NUMBER_OF_POINTS + 1 - k
    {
      var point := RayPoint(rayStartPoint, rayNormalisedDir, SampleParameter(k));
      FirstInsideSampleStep(sqrt, inside, rayStartPoint, rayNormalisedDir, k);
      if inside(point) {
        // takeDiagonal3 of the start point minus the probe
        var found := HitDistance(sqrt, rayStartPoint, point);
        assert ProbeInside(inside, rayStartPoint, rayNormalisedDir, k);
        distance[0] := found;
        assert distance[..] == before[0 := found];
        return true;
      }
      k := k + 1;
    }
    return false;
  }

  /** The out-arrays of checkCollision hold contact c: the old contents with the point
    * written to entries 0 .. 2 and its region to entry 0 of the type array. */
  ghost predicate Reported(point: seq<real>, kind: seq<PointType>, oldPoint: seq<real>, oldKind: seq<PointType>, c: Contact)
  {
    |oldPoint| >= 3 && |oldKind| >= 1 &&
    point == oldPoint[0 := c.point.x][1 := c.point.y][2 := c.point.z] && kind == oldKind[0 := c.pointType]
  }

  /** Writes a contact into the out-arrays of checkCollision. */
  method SetContact(collidedPoint: array<real>, pointType: array<PointType>, c: Contact)
    requires 3 <= collidedPoint.Length && 1 <= pointType.Length
    modifies collidedPoint, pointType
    ensures Reported(collidedPoint[..], pointType[..], old(collidedPoint[..]), old(pointType[..]), c)
  {
    collidedPoint[0] := c.point.x;
    collidedPoint[1] := c.point.y;
    collidedPoint[2] := c.point.z;
    pointType[0] := c.pointType;
  }

  /** Skipping a candidate that does not touch leaves the first contact of the rest. */
  lemma FirstContactSkip(touches: Vec3 -> bool, scan: seq<Contact>, k: nat)
    requires k < |scan| && !touches(scan[k].point)
    ensures FirstContact(touches, scan[k..]) == FirstContact(touches, scan[k + 1..])
  {
    assert scan[k..][1..] == scan[k + 1..];
  }

  /** A first candidate that touches is the first contact. */
  lemma FirstContactHit(touches: Vec3 -> bool, scan: seq<Contact>, k: nat)
    requires k < |scan| && touches(scan[k].point)
    ensures FirstContact(touches, scan[k..]) == Some(scan[k])
  {
    assert scan[k..][0] == scan[k];
  }

  /** The body loop of checkCollision: samples FEET_POINTS .. 8, upwards. */
  method ScanBodySamples(touches: Vec3 -> bool, cameraPosition: Vec3, personHeight: real,
                         collidedPoint: array<real>, pointType: array<PointType>) returns (hit: bool)
    requires 3 <= collidedPoint.Length && 1 <= pointType.Length
    modifies collidedPoint, pointType
    ensures var scan := ScanOrder(cameraPosition, personHeight);
      if hit then
        FirstContact(touches, scan).Some? &&
        Reported(collidedPoint[..], pointType[..], old(collidedPoint[..]), old(pointType[..]), FirstContact(touches, scan).value)
      else
        (FirstContact(touches, scan) == FirstContact(touches, scan[7..]) &&
         collidedPoint[..] == old(collidedPoint[..]) && pointType[..] == old(pointType[..]))
  {
    ghost var scan := ScanOrder(cameraPosition, personHeight);
    var i := FEET_POINTS;
    while i <= (NUMBER_OF_POINTS_FOR_BODY - 1) - FEET_POINTS
      invariant FEET_POINTS <= i <= NUMBER_OF_POINTS_FOR_BODY - FEET_POINTS
      invariant FirstContact(touches, scan) == FirstContact(touches, scan[i - FEET_POINTS..])
      invariant collidedPoint[..] == old(collidedPoint[..]) && pointType[..] == old(pointType[..])
    {
      var pointToTest := BodyPoint(cameraPosition, personHeight, i);
      assert scan[i - FEET_POINTS] == Contact(pointToTest, Body);
      if touches(pointToTest) {
        FirstContactHit(touches, scan, i - FEET_POINTS);
        SetContact(collidedPoint, pointType, Contact(pointToTest, Body));
        return true;
      }
      FirstContactSkip(touches, scan, i - FEET_POINTS);
      i := i + 1;
    }
    return false;
  }

  /** The feet loop of checkCollision: samples 0 .. FEET_POINTS - 1, upwards. */
  method ScanFeetSamples(touches: Vec3 -> bool, cameraPosition: Vec3, personHeight: real,
                         collidedPoint: array<real>, pointType: array<PointType>) returns (hit: bool)
    requires 3 <= collidedPoint.Length && 1 <= pointType.Length
    modifies collidedPoint, pointType
    ensures var scan := ScanOrder(cameraPosition, personHeight);
      if hit then
        FirstContact(touches, scan[7..]).Some? &&
        Reported(collidedPoint[..], pointType[..], old(collidedPoint[..]), old(pointType[..]), FirstContact(touches, scan[7..]).value)
      else
        (FirstContact(touches, scan[7..]) == FirstContact(touches, scan[9..]) &&
         collidedPoint[..] == old(collidedPoint[..]) && pointType[..] == old(pointType[..]))
  {
    ghost var scan := ScanOrder(cameraPosition, personHeight);
    var i := 0;
    while i < FEET_POINTS
      invariant 0 <= i <= FEET_POINTS
      invariant FirstContact(touches, scan[7..]) == FirstContact(touches, scan[7 + i..])
      invariant collidedPoint[..] == old(collidedPoint[..]) && pointType[..] == old(pointType[..])
    {
      var pointToTest := BodyPoint(cameraPosition, personHeight, i);
      assert scan[7 + i] == Contact(pointToTest, Feet);
      if touches(pointToTest) {
        FirstContactHit(touches, scan, 7 + i);
        SetContact(collidedPoint, pointType, Contact(pointToTest, Feet));
        return true;
      }
      FirstContactSkip(touches, scan, 7 + i);
      i := i + 1;
    }
    return false;
  }

  /** The head loop of checkCollision: the eyes, then one step below them. */
  method ScanHeadSamples(touches: Vec3 -> bool, cameraPosition: Vec3, personHeight: real,
                         collidedPoint: array<real>, pointType: array<PointType>) returns (hit: bool)
    requires 3 <= collidedPoint.Length && 1 <= pointType.Length
    modifies collidedPoint, pointType
    ensures var scan := ScanOrder(cameraPosition, personHeight);
      if hit then
        FirstContact(touches, scan[9..]).Some? &&
        Reported(collidedPoint[..], pointType[..], old(collidedPoint[..]), old(pointType[..]), FirstContact(touches, scan[9..]).value)
      else
        (FirstContact(touches, scan[9..]).None? &&
         collidedPoint[..] == old(collidedPoint[..]) && pointType[..] == old(pointType[..]))
  {
    ghost var scan := ScanOrder(cameraPosition, personHeight);
    var i := 0;
    while i < FEET_POINTS
      invariant 0 <= i <= FEET_POINTS
      invariant FirstContact(touches, scan[9..]) == FirstContact(touches, scan[9 + i..])
      invariant collidedPoint[..] == old(collidedPoint[..]) && pointType[..] == old(pointType[..])
    {
      var pointToTest := HeadPoint(cameraPosition, personHeight, i);
      assert scan[9 + i] == Contact(pointToTest, Head);
      if touches(pointToTest) {
        FirstContactHit(touches, scan, 9 + i);
        SetContact(collidedPoint, pointType, Contact(pointToTest, Head));
        return true;
      }
      FirstContactSkip(touches, scan, 9 + i);
      i := i + 1;
    }
    assert scan[NUMBER_OF_POINTS_FOR_BODY..] == [];
    return false;
  }

  /** checkCollision of SphereCollision, CylinderCollision and ParallelepipedCollision: the
    * body samples, then the feet samples, then the head samples, each tested with the
    * class's own distance against EPSILON_FOR_DISTANCE; the first one that touches is
    * written to the out-arrays and reported. Nothing is written when none touches. */
  method ScanBody(sqrt: real -> real, s: Shape, cameraPosition: Vec3, personHeight: real,
                  collidedPoint: array<real>, pointType: array<PointType>) returns (hit: bool)
    requires IsSqrt(sqrt) && !s.NoShape? && 3 <= collidedPoint.Length && 1 <= pointType.Length
    modifies collidedPoint, pointType
    ensures hit <==> BodyScan(sqrt, s, cameraPosition, personHeight).Some?
    ensures hit ==> Reported(collidedPoint[..], pointType[..], old(collidedPoint[..]), old(pointType[..]),
                             BodyScan(sqrt, s, cameraPosition, personHeight).value)
    ensures !hit ==> collidedPoint[..] == old(collidedPoint[..]) && pointType[..] == old(pointType[..])
  {
    var touches := TouchTest(sqrt, s);
    hit := ScanBodySamples(touches, cameraPosition, personHeight, collidedPoint, pointType);
    if !hit {
      hit := ScanFeetSamples(touches, cameraPosition, personHeight, collidedPoint, pointType);
      if !hit {
        hit := ScanHeadSamples(touches, cameraPosition, personHeight, collidedPoint, pointType);
      }
    }
  }

  /** SphereCollision: a ball given by its centre and radius. */
  class SphereCollision {
    var position: array<real>
    var radius: real

    ghost predicate Valid()
      reads this
    {
      position.Length == 3
    }

    function Value(): Shape
      reads this, position
      requires Valid()
    {
      Sphere(ToVec3(position), radius)
    }

    /** A missing centre leaves the initial [0, 0, 0]; a given one is copied. */
    constructor(sphereCentre: array?<real>, sphereRadius: real)
      requires sphereCentre != null ==> sphereCentre.Length == 3
      ensures Valid() && fresh(position)
      ensures Value() == Sphere(if sphereCentre == null then Vec3(0.0, 0.0, 0.0) else ToVec3(sphereCentre), sphereRadius)
    {
      var p := new real[3](_ => 0.0);
      if sphereCentre != null {
        p := CopyArray(sphereCentre);
      }
      position := p;
      radius := sphereRadius;
    }

    /** setPosition: the centre becomes a copy of the given position; nothing else changes. */
    method SetPosition(newPosition: array<real>)
      requires Valid() && newPosition.Length == 3
      modifies this
      ensures Valid() && fresh(position)
      ensures Value() == Sphere(ToVec3(newPosition), old(radius))
    {
      position := CopyArray(newPosition);
    }

    /** setScaling: the radius is multiplied by scaling[0]; the centre is kept. */
    method SetScaling(scaling: array<real>)
      requires Valid() && 1 <= scaling.Length
      modifies this
      ensures Valid() && position == old(position)
      ensures Value() == Sphere(old(ToVec3(position)), old(radius) * scaling[0])
    {
      radius := radius * scaling[0];
    }

    /** copy: an equal sphere with a position array of its own. */
    method Copy() returns (c: SphereCollision)
      requires Valid()
      ensures fresh(c) && fresh(c.position) && c.Valid() && c.Value() == Value()
    {
      var p := CopyArray(position);
      c := new SphereCollision(p, radius);
    }

    /** checkRayIntersection: the closed-form test, `distance[0]` written on a hit only. */
    method CheckRayIntersection(sqrt: real -> real, rayStartPoint: Vec3, rayNormalisedDir: Vec3, distance: array<real>)
      returns (hit: bool)
      requires IsSqrt(sqrt) && Valid() && 1 <= distance.Length && distance != position
      modifies distance
      ensures hit <==> RayIntersection(sqrt, Value(), rayStartPoint, rayNormalisedDir).Some?
      ensures hit ==> distance[..] == old(distance[..])[0 := RayIntersection(sqrt, Value(), rayStartPoint, rayNormalisedDir).value]
      ensures !hit ==> distance[..] == old(distance[..])
    {
      var result := SphereRayIntersection(sqrt, ToVec3(position), radius, rayStartPoint, rayNormalisedDir);
      if result.Some? {
        distance[0] := result.value;
        return true;
      }
      return false;
    }

    /** checkCollision, with getCylinderDistance as the distance of each sample. */
    method CheckCollision(sqrt: real -> real, cameraPosition: Vec3, personHeight: real,
                          collidedPoint: array<real>, pointType: array<PointType>) returns (hit: bool)
      requires IsSqrt(sqrt) && Valid() && 3 <= collidedPoint.Length && 1 <= pointType.Length
      requires collidedPoint != position
      modifies collidedPoint, pointType
      ensures hit <==> BodyScan(sqrt, Value(), cameraPosition, personHeight).Some?
      ensures hit ==> Reported(collidedPoint[..], pointType[..], old(collidedPoint[..]), old(pointType[..]),
                               BodyScan(sqrt, Value(), cameraPosition, personHeight).value)
      ensures !hit ==> collidedPoint[..] == old(collidedPoint[..]) && pointType[..] == old(pointType[..])
    {
      hit := ScanBody(sqrt, Value(), cameraPosition, personHeight, collidedPoint, pointType);
    }
  }

  /** CylinderCollision: a vertical cylinder given by the centre of its bottom face, its
    * radius and its height. */
  class CylinderCollision {
    var position: array<real>
    var radius: real
    var height: real

    ghost predicate Valid()
      reads this
    {
      position.Length == 3
    }

    function Value(): Shape
      reads this, position
      requires Valid()
    {
      Cylinder(ToVec3(position), radius, height)
    }

    constructor(bottomCentre: array?<real>, cylinderRadius: real, cylinderHeight: real)
      requires bottomCentre != null ==> bottomCentre.Length == 3
      ensures Valid() && fresh(position)
      ensures Value() == Cylinder(if bottomCentre == null then Vec3(0.0, 0.0, 0.0) else ToVec3(bottomCentre),
                                  cylinderRadius, cylinderHeight)
    {
      var p := new real[3](_ => 0.0);
      if bottomCentre != null {
        p := CopyArray(bottomCentre);
      }
      position := p;
      radius := cylinderRadius;
      height := cylinderHeight;
    }

    method SetPosition(newPosition: array<real>)
      requires Valid() && newPosition.Length == 3
      modifies this
      ensures Valid() && fresh(position)
      ensures Value() == Cylinder(ToVec3(newPosition), old(radius), old(height))
    {
      position := CopyArray(newPosition);
    }

    /** setScaling: radius times scaling[0], height times scaling[1]. */
    method SetScaling(scaling: array<real>)
      requires Valid() && 2 <= scaling.Length
      modifies this
      ensures Valid() && position == old(position)
      ensures Value() == Cylinder(old(ToVec3(position)), old(radius) * scaling[0], old(height) * scaling[1])
    {
      radius := radius * scaling[0];
      height := height * scaling[1];
    }

    method Copy() returns (c: CylinderCollision)
      requires Valid()
      ensures fresh(c) && fresh(c.position) && c.Valid() && c.Value() == Value()
    {
      var p := CopyArray(position);
      c := new CylinderCollision(p, radius, height);
    }

    method CheckRayIntersection(sqrt: real -> real, rayStartPoint: Vec3, rayNormalisedDir: Vec3, distance: array<real>)
      returns (hit: bool)
      requires IsSqrt(sqrt) && Valid() && 1 <= distance.Length && distance != position
      modifies distance
      ensures hit <==> RayIntersection(sqrt, Value(), rayStartPoint, rayNormalisedDir).Some?
      ensures hit ==> distance[..] == old(distance[..])[0 := RayIntersection(sqrt, Value(), rayStartPoint, rayNormalisedDir).value]
      ensures !hit ==> distance[..] == old(distance[..])
    {
      hit := MarchRay(sqrt, Value(), rayStartPoint, rayNormalisedDir, distance);
    }

    method CheckCollision(sqrt: real -> real, cameraPosition: Vec3, personHeight: real,
                          collidedPoint: array<real>, pointType: array<PointType>) returns (hit: bool)
      requires IsSqrt(sqrt) && Valid() && 3 <= collidedPoint.Length && 1 <= pointType.Length
      requires collidedPoint != position
      modifies collidedPoint, pointType
      ensures hit <==> BodyScan(sqrt, Value(), cameraPosition, personHeight).Some?
      ensures hit ==> Reported(collidedPoint[..], pointType[..], old(collidedPoint[..]), old(pointType[..]),
                               BodyScan(sqrt, Value(), cameraPosition, personHeight).value)
      ensures !hit ==> collidedPoint[..] == old(collidedPoint[..]) && pointType[..] == old(pointType[..])
    {
      hit := ScanBody(sqrt, Value(), cameraPosition, personHeight, collidedPoint, pointType);
    }
  }

  /** ParallelepipedCollision: an axis-aligned box given by the centre of its bottom face,
    * its half-widths along x and z and its height. */
  class ParallelepipedCollision {
    var position: array<real>
    var hwidthX: real
    var height: real
    var hwidthZ: real

    ghost predicate Valid()
      reads this
    {
      position.Length == 3
    }

    function Value(): Shape
      reads this, position
      requires Valid()
    {
      Parallelepiped(ToVec3(position), hwidthX, height, hwidthZ)
    }

    constructor(bottomCentre: array?<real>, halfWidthX: real, boxHeight: real, halfWidthZ: real)
      requires bottomCentre != null ==> bottomCentre.Length == 3
      ensures Valid() && fresh(position)
      ensures Value() == Parallelepiped(if bottomCentre == null then Vec3(0.0, 0.0, 0.0) else ToVec3(bottomCentre),
                                        halfWidthX, boxHeight, halfWidthZ)
    {
      var p := new real[3](_ => 0.0);
      if bottomCentre != null {
        p := CopyArray(bottomCentre);
      }
      position := p;
      hwidthX := halfWidthX;
      height := boxHeight;
      hwidthZ := halfWidthZ;
    }

    method SetPosition(newPosition: array<real>)
      requires Valid() && newPosition.Length == 3
      modifies this
      ensures Valid() && fresh(position)
      ensures Value() == Parallelepiped(ToVec3(newPosition), old(hwidthX), old(height), old(hwidthZ))
    {
      position := CopyArray(newPosition);
    }

    /** setScaling: the half-width along x, the height and the half-width along z times
      * scaling[0], scaling[1] and scaling[2]. */
    method SetScaling(scaling: array<real>)
      requires Valid() && 3 <= scaling.Length
      modifies this
      ensures Valid() && position == old(position)
      ensures Value() == Parallelepiped(old(ToVec3(position)), old(hwidthX) * scaling[0], old(height) * scaling[1],
                                        old(hwidthZ) * scaling[2])
    {
      hwidthX := hwidthX * scaling[0];
      height := height * scaling[1];
      hwidthZ := hwidthZ * scaling[2];
    }

    method Copy() returns (c: ParallelepipedCollision)
      requires Valid()
      ensures fresh(c) && fresh(c.position) && c.Valid() && c.Value() == Value()
    {
      var p := CopyArray(position);
      c := new ParallelepipedCollision(p, hwidthX, height, hwidthZ);
    }

    method CheckRayIntersection(sqrt: real -> real, rayStartPoint: Vec3, rayNormalisedDir: Vec3, distance: array<real>)
      returns (hit: bool)
      requires IsSqrt(sqrt) && Valid() && 1 <= distance.Length && distance != position
      modifies distance
      ensures hit <==> RayIntersection(sqrt, Value(), rayStartPoint, rayNormalisedDir).Some?
      ensures hit ==> distance[..] == old(distance[..])[0 := RayIntersection(sqrt, Value(), rayStartPoint, rayNormalisedDir).value]
      ensures !hit ==> distance[..] == old(distance[..])
    {
      hit := MarchRay(sqrt, Value(), rayStartPoint, rayNormalisedDir, distance);
    }

    method CheckCollision(sqrt: real -> real, cameraPosition: Vec3, personHeight: real,
                          collidedPoint: array<real>, pointType: array<PointType>) returns (hit: bool)
      requires IsSqrt(sqrt) && Valid() && 3 <= collidedPoint.Length && 1 <= pointType.Length
      requires collidedPoint != position
      modifies collidedPoint, pointType
      ensures hit <==> BodyScan(sqrt, Value(), cameraPosition, personHeight).Some?
      ensures hit ==> Reported(collidedPoint[..], pointType[..], old(collidedPoint[..]), old(pointType[..]),
                               BodyScan(sqrt, Value(), cameraPosition, personHeight).value)
      ensures !hit ==> collidedPoint[..] == old(collidedPoint[..]) && pointType[..] == old(pointType[..])
    {
      hit := ScanBody(sqrt, Value(), cameraPosition, personHeight, collidedPoint, pointType);
    }
  }
}
