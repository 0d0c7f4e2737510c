/** The outcomes the unit tests of SphereCollision expect (tests/Collision.spec.js), derived
  * from the model. The arithmetic on the test's numbers is done in lemmas without the square
  * root, whose quantifier slows down reasoning about literals. */
module CollisionTests {
  import opened OtherUtils
  import opened Wrappers
  import opened Collision
  import opened CollisionObjects

  /** The ray test: a ball of radius 0.7 at the origin, a ray from (0, 0, 1) straight down,
    * hit at distance 0.3. */
  lemma SphereRayTestCase(sqrt: real -> real)
    requires IsSqrt(sqrt)
    ensures SphereRayIntersection(sqrt, Vec3(0.0, 0.0, 0.0), 0.7, Vec3(0.0, 0.0, 1.0), Vec3(0.0, 0.0, -1.0)) == Some(0.3)
  {
    RayTestVectors();
    SphereRayHeadOn(sqrt, Vec3(0.0, 0.0, 0.0), 0.7, Vec3(0.0, 0.0, 1.0), Vec3(0.0, 0.0, -1.0));
  }

  lemma RayTestVectors()
    ensures Sub(Vec3(0.0, 0.0, 0.0), Vec3(0.0, 0.0, 1.0)) == Vec3(0.0, 0.0, -1.0)
    ensures LengthSquared(Vec3(0.0, 0.0, -1.0)) == 1.0
  {
    assert (-1.0) * (-1.0) == 1.0;
  }

  /** A point under the cylinder that stands in for a sphere, more than EPSILON_FOR_DISTANCE
    * below its bottom, does not touch the sphere. */
  lemma FarBelowSphere(sqrt: real -> real, c: Vec3, r: real, p: Vec3)
    requires IsSqrt(sqrt) && 0.0 <= r
    requires c.y - r - p.y > EPSILON_FOR_DISTANCE
    ensures !Touches(sqrt, Sphere(c, r), p)
  {
    var d := SphereCylinderDistance(sqrt, c, r, p);
    var lo := c.y - r;
    GapBeyond(p.y, lo, lo + 2.0 * r);
    SquareNonNeg(Max(0.0, TakeDiagonal2(sqrt, p.x - c.x, p.z - c.z) - r));
    SquareLess(EPSILON_FOR_DISTANCE, lo - p.y);
    SquareLeIff(d, EPSILON_FOR_DISTANCE);
  }

  /** A point under the stand-in cylinder, horizontally h beyond its side, within
    * EPSILON_FOR_DISTANCE of its bottom rim, touches the sphere. */
  lemma NearBelowSphere(sqrt: real -> real, c: Vec3, r: real, p: Vec3, h: real)
    requires IsSqrt(sqrt) && 0.0 <= r && 0.0 <= h && p.y < c.y - r
    requires Sq(p.x - c.x) + Sq(p.z - c.z) == Sq(r + h)
    requires Sq(h) + Sq(c.y - r - p.y) <= Sq(EPSILON_FOR_DISTANCE)
    ensures Touches(sqrt, Sphere(c, r), p)
  {
    var d := SphereCylinderDistance(sqrt, c, r, p);
    var lo := c.y - r;
    var planar := TakeDiagonal2(sqrt, p.x - c.x, p.z - c.z);
    SqrtOfSquare(r + h, planar);
    assert Max(0.0, planar - r) == h;
    GapBeyond(p.y, lo, lo + 2.0 * r);
    assert Sq(p.y - lo) == Sq(lo - p.y);
    assert Sq(d) == Sq(h) + Sq(lo - p.y);
    SquareLeIff(d, EPSILON_FOR_DISTANCE);
  }

  /** The first four samples checkCollision tests for a player with eyes at (0, 0, 0.71) and
    * height 1.7: body samples 2 .. 5, at heights -1.36, -1.19, -1.02 and -0.85. */
  lemma BodyTestSamples()
    ensures |ScanOrder(Vec3(0.0, 0.0, 0.71), 1.7)| == 11
    ensures ScanOrder(Vec3(0.0, 0.0, 0.71), 1.7)[0] == Contact(Vec3(0.0, -1.36, 0.71), Body)
    ensures ScanOrder(Vec3(0.0, 0.0, 0.71), 1.7)[1] == Contact(Vec3(0.0, -1.19, 0.71), Body)
    ensures ScanOrder(Vec3(0.0, 0.0, 0.71), 1.7)[2] == Contact(Vec3(0.0, -1.02, 0.71), Body)
    ensures ScanOrder(Vec3(0.0, 0.0, 0.71), 1.7)[3] == Contact(Vec3(0.0, -0.85, 0.71), Body)
  {
  }

  /** The test's numbers against the sphere of radius 0.7 at the origin. */
  lemma BodyTestGaps()
    ensures Vec3(0.0, 0.0, 0.0).y - 0.7 - Vec3(0.0, -1.36, 0.71).y > EPSILON_FOR_DISTANCE
    ensures Vec3(0.0, 0.0, 0.0).y - 0.7 - Vec3(0.0, -1.19, 0.71).y > EPSILON_FOR_DISTANCE
    ensures Vec3(0.0, 0.0, 0.0).y - 0.7 - Vec3(0.0, -1.02, 0.71).y > EPSILON_FOR_DISTANCE
    ensures Vec3(0.0, -0.85, 0.71).y < Vec3(0.0, 0.0, 0.0).y - 0.7
    ensures Sq(Vec3(0.0, -0.85, 0.71).x - Vec3(0.0, 0.0, 0.0).x) + Sq(Vec3(0.0, -0.85, 0.71).z - Vec3(0.0, 0.0, 0.0).z) == Sq(0.7 + 0.01)
    ensures Sq(0.01) + Sq(Vec3(0.0, 0.0, 0.0).y - 0.7 - Vec3(0.0, -0.85, 0.71).y) <= Sq(EPSILON_FOR_DISTANCE)
  {
  }

  /** The body-collision test: the sample at height -0.85 is the first to touch and is
    * reported as a body contact. */
  lemma SphereBodyTestCase(sqrt: real -> real)
    requires IsSqrt(sqrt)
    ensures BodyScan(sqrt, Sphere(Vec3(0.0, 0.0, 0.0), 0.7), Vec3(0.0, 0.0, 0.71), 1.7) ==
      Some(Contact(Vec3(0.0, -0.85, 0.71), Body))
  {
    var c := Vec3(0.0, 0.0, 0.0);
    var s := Sphere(c, 0.7);
    var scan := ScanOrder(Vec3(0.0, 0.0, 0.71), 1.7);
    var touches := TouchTest(sqrt, s);
    BodyTestSamples();
    BodyTestGaps();
    FarBelowSphere(sqrt, c, 0.7, Vec3(0.0, -1.36, 0.71));
    FarBelowSphere(sqrt, c, 0.7, Vec3(0.0, -1.19, 0.71));
    FarBelowSphere(sqrt, c, 0.7, Vec3(0.0, -1.02, 0.71));
    NearBelowSphere(sqrt, c, 0.7, Vec3(0.0, -0.85, 0.71), 0.01);
    assert scan[0..] == scan;
    FirstContactSkip(touches, scan, 0);
    FirstContactSkip(touches, scan, 1);
    FirstContactSkip(touches, scan, 2);
    FirstContactHit(touches, scan, 3);
  }

  /** A point over the stand-in cylinder, more than EPSILON_FOR_DISTANCE above its top, does
    * not touch the sphere. */
  lemma FarAboveSphere(sqrt: real -> real, c: Vec3, r: real, p: Vec3)
    requires IsSqrt(sqrt) && 0.0 <= r
    requires p.y - (c.y + r) > EPSILON_FOR_DISTANCE
    ensures !Touches(sqrt, Sphere(c, r), p)
  {
    var d := SphereCylinderDistance(sqrt, c, r, p);
    var lo := c.y - r;
    GapBeyond(p.y, lo, lo + 2.0 * r);
    SquareNonNeg(Max(0.0, TakeDiagonal2(sqrt, p.x - c.x, p.z - c.z) - r));
    SquareLess(EPSILON_FOR_DISTANCE, p.y - (lo + 2.0 * r));
    SquareLeIff(d, EPSILON_FOR_DISTANCE);
  }

  /** A point on the vertical axis of the sphere, over its top by at most EPSILON_FOR_DISTANCE,
    * touches it. */
  lemma NearAboveSphere(sqrt: real -> real, c: Vec3, r: real, p: Vec3)
    requires IsSqrt(sqrt) && 0.0 <= r && p.x == c.x && p.z == c.z
    requires c.y + r < p.y && p.y - (c.y + r) <= EPSILON_FOR_DISTANCE
    ensures Touches(sqrt, Sphere(c, r), p)
  {
    var d := SphereCylinderDistance(sqrt, c, r, p);
    var lo, top := c.y - r, c.y - r + 2.0 * r;
    var planar := TakeDiagonal2(sqrt, p.x - c.x, p.z - c.z);
    assert Sq(planar) == Sq(0.0);
    SqrtOfSquare(0.0, planar);
    assert Max(0.0, planar - r) == 0.0;
    GapBeyond(p.y, lo, top);
    assert Sq(d) == Sq(p.y - top);
    SqrtOfSquare(p.y - top, d);
  }

  /** The samples checkCollision tests for a player with eyes at (0, 2.5, 0) and height 1.7:
    * body samples 2 .. 8 at heights 1.14 .. 2.16, then the lowest feet sample at 0.8. */
  lemma FeetTestSamples()
    ensures |ScanOrder(Vec3(0.0, 2.5, 0.0), 1.7)| == 11
    ensures ScanOrder(Vec3(0.0, 2.5, 0.0), 1.7)[0] == Contact(Vec3(0.0, 1.14, 0.0), Body)
    ensures ScanOrder(Vec3(0.0, 2.5, 0.0), 1.7)[1] == Contact(Vec3(0.0, 1.31, 0.0), Body)
    ensures ScanOrder(Vec3(0.0, 2.5, 0.0), 1.7)[2] == Contact(Vec3(0.0, 1.48, 0.0), Body)
    ensures ScanOrder(Vec3(0.0, 2.5, 0.0), 1.7)[3] == Contact(Vec3(0.0, 1.65, 0.0), Body)
    ensures ScanOrder(Vec3(0.0, 2.5, 0.0), 1.7)[4] == Contact(Vec3(0.0, 1.82, 0.0), Body)
    ensures ScanOrder(Vec3(0.0, 2.5, 0.0), 1.7)[5] == Contact(Vec3(0.0, 1.99, 0.0), Body)
    ensures ScanOrder(Vec3(0.0, 2.5, 0.0), 1.7)[6] == Contact(Vec3(0.0, 2.16, 0.0), Body)
    ensures ScanOrder(Vec3(0.0, 2.5, 0.0), 1.7)[7] == Contact(Vec3(0.0, 0.8, 0.0), Feet)
  {
  }

  /** The feet test's heights against the top of the sphere at 0.7. */
  lemma FeetTestGaps()
    ensures Vec3(0.0, 1.14, 0.0).y - (Vec3(0.0, 0.0, 0.0).y + 0.7) > EPSILON_FOR_DISTANCE
    ensures Vec3(0.0, 1.31, 0.0).y - (Vec3(0.0, 0.0, 0.0).y + 0.7) > EPSILON_FOR_DISTANCE
    ensures Vec3(0.0, 1.48, 0.0).y - (Vec3(0.0, 0.0, 0.0).y + 0.7) > EPSILON_FOR_DISTANCE
    ensures Vec3(0.0, 1.65, 0.0).y - (Vec3(0.0, 0.0, 0.0).y + 0.7) > EPSILON_FOR_DISTANCE
    ensures Vec3(0.0, 1.82, 0.0).y - (Vec3(0.0, 0.0, 0.0).y + 0.7) > EPSILON_FOR_DISTANCE
    ensures Vec3(0.0, 1.99, 0.0).y - (Vec3(0.0, 0.0, 0.0).y + 0.7) > EPSILON_FOR_DISTANCE
    ensures Vec3(0.0, 2.16, 0.0).y - (Vec3(0.0, 0.0, 0.0).y + 0.7) > EPSILON_FOR_DISTANCE
    ensures Vec3(0.0, 0.0, 0.0).y + 0.7 < Vec3(0.0, 0.8, 0.0).y
    ensures Vec3(0.0, 0.8, 0.0).y - (Vec3(0.0, 0.0, 0.0).y + 0.7) <= EPSILON_FOR_DISTANCE
  {
  }

  /** The feet-collision test: no body sample touches, and the lowest feet sample, at height
    * 0.8, is reported as a feet contact. */
  lemma SphereFeetTestCase(sqrt: real -> real)
    requires IsSqrt(sqrt)
    ensures BodyScan(sqrt, Sphere(Vec3(0.0, 0.0, 0.0), 0.7), Vec3(0.0, 2.5, 0.0), 1.7) ==
      Some(Contact(Vec3(0.0, 0.8, 0.0), Feet))
  {
    var c := Vec3(0.0, 0.0, 0.0);
    var s := Sphere(c, 0.7);
    var scan := ScanOrder(Vec3(0.0, 2.5, 0.0), 1.7);
    var touches := TouchTest(sqrt, s);
    FeetTestSamples();
    FeetTestGaps();
    FarAboveSphere(sqrt, c, 0.7, Vec3(0.0, 1.14, 0.0));
    FarAboveSphere(sqrt, c, 0.7, Vec3(0.0, 1.31, 0.0));
    FarAboveSphere(sqrt, c, 0.7, Vec3(0.0, 1.48, 0.0));
    FarAboveSphere(sqrt, c, 0.7, Vec3(0.0, 1.65, 0.0));
    FarAboveSphere(sqrt, c, 0.7, Vec3(0.0, 1.82, 0.0));
    FarAboveSphere(sqrt, c, 0.7, Vec3(0.0, 1.99, 0.0));
    FarAboveSphere(sqrt, c, 0.7, Vec3(0.0, 2.16, 0.0));
    NearAboveSphere(sqrt, c, 0.7, Vec3(0.0, 0.8, 0.0));
    assert scan[0..] == scan;
    FirstContactSkip(touches, scan, 0);
    FirstContactSkip(touches, scan, 1);
    FirstContactSkip(touches, scan, 2);
    FirstContactSkip(touches, scan, 3);
    FirstContactSkip(touches, scan, 4);
    FirstContactSkip(touches, scan, 5);
    FirstContactSkip(touches, scan, 6);
    FirstContactHit(touches, scan, 7);
  }

  /** A point level with the axis of the sphere along x, more than EPSILON_FOR_DISTANCE beyond
    * the side of the stand-in cylinder along z, does not touch the sphere. */
  lemma FarBesideSphere(sqrt: real -> real, c: Vec3, r: real, p: Vec3, g: real)
    requires IsSqrt(sqrt) && 0.0 <= r && p.x == c.x && p.z - c.z == r + g && g > EPSILON_FOR_DISTANCE
    ensures !Touches(sqrt, Sphere(c, r), p)
  {
    var d := SphereCylinderDistance(sqrt, c, r, p);
    var planar := TakeDiagonal2(sqrt, p.x - c.x, p.z - c.z);
    assert Sq(planar) == Sq(r + g);
    SqrtOfSquare(r + g, planar);
    assert Max(0.0, planar - r) == g;
    var gy := Gap(p.y, c.y - r, c.y - r + 2.0 * r);
    assert Sq(d) == Sq(g) + Sq(gy);
    SquareNonNeg(gy);
    SquareLess(EPSILON_FOR_DISTANCE, g);
    SquareLeIff(d, EPSILON_FOR_DISTANCE);
  }

  /** The no-collision test: with the eyes at (0, 0, 5) every sample lies 4.3 beyond the side
    * of the cylinder around the sphere, so nothing is reported. */
  lemma SphereMissTestCase(sqrt: real -> real)
    requires IsSqrt(sqrt)
    ensures BodyScan(sqrt, Sphere(Vec3(0.0, 0.0, 0.0), 0.7), Vec3(0.0, 0.0, 5.0), 1.7).None?
  {
    var c := Vec3(0.0, 0.0, 0.0);
    var s := Sphere(c, 0.7);
    var cameraPosition := Vec3(0.0, 0.0, 5.0);
    forall i | 0 <= i < NUMBER_OF_POINTS_FOR_BODY
      ensures !Touches(sqrt, s, BodyPoint(cameraPosition, 1.7, i))
    {
      FarBesideSphere(sqrt, c, 0.7, BodyPoint(cameraPosition, 1.7, i), 4.3);
    }
    BodyScanFindsFirst(sqrt, s, cameraPosition, 1.7);
  }
}
