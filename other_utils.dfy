/** Vector and array helpers that every collision shape calls (lib/otherUtils.js).
  * Numbers are modelled as `real`; the square root that the source takes with
  * Math.sqrt is an input of the model, see `IsSqrt`. */
module OtherUtils {

  /** A 3-vector; the source passes these around as arrays of three numbers. */
  datatype Vec3 = Vec3(x: real, y: real, z: real)

  function Add(v: Vec3, w: Vec3): Vec3 { Vec3(v.x + w.x, v.y + w.y, v.z + w.z) }
  function Sub(v: Vec3, w: Vec3): Vec3 { Vec3(v.x - w.x, v.y - w.y, v.z - w.z) }
  function Scale(v: Vec3, k: real): Vec3 { Vec3(v.x * k, v.y * k, v.z * k) }
  function Sq(a: real): real { a * a }

  /** Squared euclidean length of a vector. */
  function LengthSquared(v: Vec3): real { v.x * v.x + v.y * v.y + v.z * v.z }

  /** The square root Math.sqrt computes, taken as an input of every operation that
    * needs one: any function that gives a non-negative root of each non-negative real. */
  ghost predicate IsSqrt(sqrt: real -> real)
  {
    forall a {:trigger Root(sqrt, a)} :: 0.0 <= a ==> 0.0 <= Root(sqrt, a) && Root(sqrt, a) * Root(sqrt, a) == a
  }

  function Root(sqrt: real -> real, a: real): real { sqrt(a) }

  lemma RootFacts(sqrt: real -> real, a: real)
    requires IsSqrt(sqrt) && 0.0 <= a
    ensures 0.0 <= sqrt(a) && sqrt(a) * sqrt(a) == a
  {
    assert Root(sqrt, a) == sqrt(a);
  }

  // Facts of real arithmetic that the solver does not find unaided.

  lemma MulPos(a: real, b: real)
    requires 0.0 < a && 0.0 < b
    ensures 0.0 < a * b
  {
  }

  lemma MulNonNeg(a: real, b: real)
    requires 0.0 <= a && 0.0 <= b
    ensures 0.0 <= a * b
  {
  }

  lemma SquareNonNeg(a: real)
    ensures 0.0 <= a * a
  {
    if a < 0.0 {
      assert a * a == (-a) * (-a);
      MulNonNeg(-a, -a);
    } else {
      MulNonNeg(a, a);
    }
  }

  /** Squaring is strictly monotone on the non-negative reals. */
  lemma SquareLess(a: real, b: real)
    requires 0.0 <= a < b
    ensures a * a < b * b
  {
    assert b * b - a * a == (b - a) * (b + a);
    MulPos(b - a, b + a);
  }

  /** Two non-negative reals compare as their squares do. */
  lemma SquareLeIff(a: real, b: real)
    requires 0.0 <= a && 0.0 <= b
    ensures a <= b <==> a * a <= b * b
    ensures a < b <==> a * a < b * b
  {
    if a < b { SquareLess(a, b); }
    else if b < a { SquareLess(b, a); }
  }

  /** The root of a square is the absolute value. */
  lemma SqrtOfSquare(a: real, r: real)
    requires 0.0 <= r && r * r == a * a
    ensures r == Abs(a)
  {
    SquareLeIff(r, Abs(a));
  }

  /** Roots are monotone. */
  lemma SqrtMonotone(sqrt: real -> real, a: real, b: real)
    requires IsSqrt(sqrt) && 0.0 <= a <= b
    ensures sqrt(a) <= sqrt(b)
  {
    RootFacts(sqrt, a);
    RootFacts(sqrt, b);
    SquareLeIff(sqrt(a), sqrt(b));
  }

  /** A root compared with a non-negative number, by comparing squares. */
  lemma LeSqrt(sqrt: real -> real, a: real, c: real)
    requires IsSqrt(sqrt) && 0.0 <= a && 0.0 <= c
    ensures sqrt(a) <= c <==> a <= c * c
    ensures sqrt(a) < c <==> a < c * c
  {
    RootFacts(sqrt, a);
    SquareLeIff(sqrt(a), c);
  }

  /** Products of non-negative reals are monotone in both factors. */
  lemma MulLe(a: real, b: real, c: real, d: real)
    requires 0.0 <= a <= c && 0.0 <= b <= d
    ensures a * b <= c * d
  {
    assert c * d - a * b == (c - a) * d + a * (d - b);
    MulNonNeg(c - a, d);
    MulNonNeg(a, d - b);
  }

  /** A number within [-A, A] has a square at most A * A. */
  lemma SquareBound(a: real, bound: real)
    requires -bound <= a <= bound
    ensures a * a <= bound * bound
  {
    SquareLeIff(Abs(a), bound);
  }

  /** Cauchy-Schwarz: the square of a dot product is at most the product of squared lengths,
    * by Lagrange's identity. */
  lemma CauchySchwarz(u: Vec3, w: Vec3)
    ensures DotProduct(u, w) * DotProduct(u, w) <= LengthSquared(u) * LengthSquared(w)
  {
    LagrangeIdentity(u.x, u.y, u.z, w.x, w.y, w.z);
    SquareNonNeg(u.x * w.y - u.y * w.x);
    SquareNonNeg(u.x * w.z - u.z * w.x);
    SquareNonNeg(u.y * w.z - u.z * w.y);
  }

  /** Lagrange's identity in three dimensions. */
  lemma LagrangeIdentity(a: real, b: real, c: real, x: real, y: real, z: real)
    ensures (a * a + b * b + c * c) * (x * x + y * y + z * z) - (a * x + b * y + c * z) * (a * x + b * y + c * z) ==
      (a * y - b * x) * (a * y - b * x) + (a * z - c * x) * (a * z - c * x) + (b * z - c * y) * (b * z - c * y)
  {
  }

  /** Triangle inequality on squared lengths: |u + w| <= A + B when |u| <= A and |w| <= B. */
  lemma TriangleSquared(u: Vec3, w: Vec3, boundU: real, boundW: real)
    requires 0.0 <= boundU && 0.0 <= boundW
    requires LengthSquared(u) <= boundU * boundU && LengthSquared(w) <= boundW * boundW
    ensures LengthSquared(Add(u, w)) <= (boundU + boundW) * (boundU + boundW)
  {
    DotProductSelf(u);
    DotProductSelf(w);
    CauchySchwarz(u, w);
    MulLe(LengthSquared(u), LengthSquared(w), boundU * boundU, boundW * boundW);
    var dot := DotProduct(u, w);
    var ab := boundU * boundW;
    MulNonNeg(boundU, boundW);
    assert dot * dot <= ab * ab;
    if dot > ab {
      SquareLess(ab, dot);
    }
    assert LengthSquared(Add(u, w)) == LengthSquared(u) + 2.0 * dot + LengthSquared(w);
  }

  /** The triangle inequality in squared form, for the path a -> q -> c. */
  lemma DistanceViaPoint(a: Vec3, q: Vec3, c: Vec3, boundAQ: real, boundQC: real)
    requires 0.0 <= boundAQ && 0.0 <= boundQC
    requires LengthSquared(Sub(a, q)) <= boundAQ * boundAQ && LengthSquared(Sub(q, c)) <= boundQC * boundQC
    ensures LengthSquared(Sub(a, c)) <= (boundAQ + boundQC) * (boundAQ + boundQC)
  {
    TriangleSquared(Sub(a, q), Sub(q, c), boundAQ, boundQC);
    assert Add(Sub(a, q), Sub(q, c)) == Sub(a, c);
  }

  /** A non-negative root of l is at most any non-negative b with l <= b * b. */
  lemma RootAtMost(a: real, b: real, l: real)
    requires 0.0 <= a && 0.0 <= b && a * a == l && l <= b * b
    ensures a <= b
  {
    SquareLeIff(a, b);
  }

  /** If a lies at distance t from q, q within r of c, and a at distance gap + r from c, then
    * gap <= t. */
  lemma GapAtMost(a: Vec3, q: Vec3, c: Vec3, t: real, r: real, gap: real)
    requires 0.0 <= t && 0.0 <= r && 0.0 <= gap
    requires LengthSquared(Sub(a, q)) == t * t && LengthSquared(Sub(q, c)) <= r * r
    requires (gap + r) * (gap + r) == LengthSquared(Sub(a, c))
    ensures gap <= t
  {
    DistanceViaPoint(a, q, c, t, r);
    RootAtMost(gap + r, t + r, LengthSquared(Sub(a, c)));
  }

  /** If q lies within r of c and a lies at distance diagonal > allowance + r from c, then a
    * is farther than allowance from q. */
  lemma FartherThanSum(a: Vec3, q: Vec3, c: Vec3, allowance: real, r: real, diagonal: real)
    requires 0.0 <= allowance && 0.0 <= r && 0.0 <= diagonal
    requires LengthSquared(Sub(q, c)) <= r * r
    requires diagonal * diagonal == LengthSquared(Sub(a, c)) && diagonal > allowance + r
    ensures LengthSquared(Sub(a, q)) > Sq(allowance)
  {
    if LengthSquared(Sub(a, q)) <= allowance * allowance {
      DistanceViaPoint(a, q, c, allowance, r);
      RootAtMost(diagonal, allowance + r, LengthSquared(Sub(a, c)));
      assert false;
    }
  }

  /** copyMatrix: the first sixteen entries of a 4x4 matrix, as a new array. */
  function CopyMatrix(matrix: seq<real>): (copy: seq<real>)
    requires |matrix| >= 16
    ensures copy == matrix[..16]
  {
    [matrix[0], matrix[1], matrix[2], matrix[3],
     matrix[4], matrix[5], matrix[6], matrix[7],
     matrix[8], matrix[9], matrix[10], matrix[11],
     matrix[12], matrix[13], matrix[14], matrix[15]]
  }

  /** copyArray: a new array holding the same elements, filled by an index loop. */
  method CopyArray(a: array<real>) returns (copy: array<real>)
    ensures fresh(copy)
    ensures copy[..] == a[..]
  {
    copy := new real[a.Length];
    var i := 0;
    while i < a.Length
      invariant 0 <= i <= a.Length
      invariant copy[..i] == a[..i]
    {
      copy[i] := a[i];
      i := i + 1;
    }
  }

  /** takeDiagonal2: the hypotenuse of the right triangle with the given legs. */
  function TakeDiagonal2(sqrt: real -> real, length1: real, length2: real): (diagonal: real)
    requires IsSqrt(sqrt)
    ensures 0.0 <= diagonal
    ensures Sq(diagonal) == Sq(length1) + Sq(length2)
  {
    SquareNonNeg(length1);
    SquareNonNeg(length2);
    RootFacts(sqrt, length1 * length1 + length2 * length2);
    sqrt(length1 * length1 + length2 * length2)
  }

  /** takeDiagonal3: the euclidean length of (length1, length2, length3). */
  function TakeDiagonal3(sqrt: real -> real, length1: real, length2: real, length3: real): (diagonal: real)
    requires IsSqrt(sqrt)
    ensures 0.0 <= diagonal
    ensures Sq(diagonal) == Sq(length1) + Sq(length2) + Sq(length3)
  {
    SquareNonNeg(length1);
    SquareNonNeg(length2);
    SquareNonNeg(length3);
    RootFacts(sqrt, length1 * length1 + length2 * length2 + length3 * length3);
    sqrt(length1 * length1 + length2 * length2 + length3 * length3)
  }

  /** Both diagonals ignore the signs of their arguments. */
  lemma DiagonalsIgnoreSigns(sqrt: real -> real, a: real, b: real, c: real)
    requires IsSqrt(sqrt)
    ensures TakeDiagonal2(sqrt, -a, -b) == TakeDiagonal2(sqrt, a, b)
    ensures TakeDiagonal2(sqrt, -a, b) == TakeDiagonal2(sqrt, a, b)
    ensures TakeDiagonal2(sqrt, a, -b) == TakeDiagonal2(sqrt, a, b)
    ensures TakeDiagonal3(sqrt, -a, -b, -c) == TakeDiagonal3(sqrt, a, b, c)
    ensures TakeDiagonal3(sqrt, -a, b, -c) == TakeDiagonal3(sqrt, a, b, c)
    ensures TakeDiagonal3(sqrt, -a, b, c) == TakeDiagonal3(sqrt, a, b, c)
    ensures TakeDiagonal3(sqrt, a, -b, c) == TakeDiagonal3(sqrt, a, b, c)
    ensures TakeDiagonal3(sqrt, a, b, -c) == TakeDiagonal3(sqrt, a, b, c)
    ensures TakeDiagonal3(sqrt, -a, -b, c) == TakeDiagonal3(sqrt, a, b, c)
    ensures TakeDiagonal3(sqrt, a, -b, -c) == TakeDiagonal3(sqrt, a, b, c)
  {
    assert (-a) * (-a) == a * a && (-b) * (-b) == b * b && (-c) * (-c) == c * c;
  }

  /** The 3-4-5 triangle of tests/otherUtils.spec.js. */
  lemma TakeDiagonal2ThreeFour(sqrt: real -> real)
    requires IsSqrt(sqrt)
    ensures TakeDiagonal2(sqrt, 3.0, 4.0) == 5.0
  {
    var d := TakeDiagonal2(sqrt, 3.0, 4.0);
    SqrtOfSquare(5.0, d);
  }

  /** A diagonal is at least as long as each of its legs. */
  lemma DiagonalBoundsLegs(sqrt: real -> real, a: real, b: real)
    requires IsSqrt(sqrt)
    ensures Abs(a) <= TakeDiagonal2(sqrt, a, b) && Abs(b) <= TakeDiagonal2(sqrt, a, b)
  {
    var d := TakeDiagonal2(sqrt, a, b);
    SquareNonNeg(a);
    SquareNonNeg(b);
    SquareLeIff(Abs(a), d);
    SquareLeIff(Abs(b), d);
  }

  /** dotProduct: the sum of the componentwise products. */
  function DotProduct(vector1: Vec3, vector2: Vec3): real
  {
    vector1.x * vector2.x + vector1.y * vector2.y + vector1.z * vector2.z
  }

  lemma DotProductSymmetric(v: Vec3, w: Vec3)
    ensures DotProduct(v, w) == DotProduct(w, v)
  {
  }

  lemma DotProductSelf(v: Vec3)
    ensures DotProduct(v, v) == LengthSquared(v) && 0.0 <= LengthSquared(v)
  {
    SquareNonNeg(v.x);
    SquareNonNeg(v.y);
    SquareNonNeg(v.z);
  }

  /** The example of tests/otherUtils.spec.js. */
  lemma DotProductExample()
    ensures DotProduct(Vec3(4.0, 7.0, -1.0), Vec3(0.5, -2.0, 6.0)) == -18.0
  {
  }

  /** projectionOnVector2: the projection of vector1 on the line of vector2. The length of
    * vector2 is taken with a square root and squared again, as the source does; a zero
    * vector2 would divide by zero. */
  function ProjectionOnVector2(sqrt: real -> real, vector1: Vec3, vector2: Vec3): (projection: Vec3)
    requires IsSqrt(sqrt) && vector2 != Vec3(0.0, 0.0, 0.0)
    ensures 0.0 < LengthSquared(vector2)
    ensures projection == Scale(vector2, DotProduct(vector1, vector2) / LengthSquared(vector2))
  {
    var dot := DotProduct(vector1, vector2);
    var vector2Length := sqrt(LengthSquared(vector2));
    var vector2LengthSquared := vector2Length * vector2Length;
    assert 0.0 < vector2LengthSquared == LengthSquared(vector2) by {
      NonZeroLength(vector2);
      RootFacts(sqrt, LengthSquared(vector2));
    }
    // each component vector2[i] * dot / vector2LengthSquared, grouped as vector2[i] * (dot / ...)
    Scale(vector2, dot / vector2LengthSquared)
  }

  lemma NonZeroLength(w: Vec3)
    requires w != Vec3(0.0, 0.0, 0.0)
    ensures LengthSquared(w) > 0.0
  {
    SquareNonNeg(w.x);
    SquareNonNeg(w.y);
    SquareNonNeg(w.z);
    if w.x != 0.0 { SquareLess(0.0, Abs(w.x)); }
    else if w.y != 0.0 { SquareLess(0.0, Abs(w.y)); }
    else { SquareLess(0.0, Abs(w.z)); }
  }

  /** The rest v - proj(v, w) is orthogonal to w. */
  lemma ProjectionRestOrthogonal(sqrt: real -> real, v: Vec3, w: Vec3)
    requires IsSqrt(sqrt) && w != Vec3(0.0, 0.0, 0.0)
    ensures DotProduct(Sub(v, ProjectionOnVector2(sqrt, v, w)), w) == 0.0
  {
    NonZeroLength(w);
    var k := DotProduct(v, w) / LengthSquared(w);
    assert k * LengthSquared(w) == DotProduct(v, w);
    assert DotProduct(Sub(v, Scale(w, k)), w) == DotProduct(v, w) - k * LengthSquared(w);
  }

  /** Projecting a projection again gives it back. */
  lemma ProjectionIdempotent(sqrt: real -> real, v: Vec3, w: Vec3)
    requires IsSqrt(sqrt) && w != Vec3(0.0, 0.0, 0.0)
    ensures ProjectionOnVector2(sqrt, ProjectionOnVector2(sqrt, v, w), w) == ProjectionOnVector2(sqrt, v, w)
  {
    NonZeroLength(w);
    var n := LengthSquared(w);
    var k := DotProduct(v, w) / n;
    var p := Scale(w, k);
    assert DotProduct(p, w) == k * n;
    assert DotProduct(p, w) / n == k;
  }

  /** The projection is parallel to w: it is a multiple of it. */
  lemma ProjectionParallel(sqrt: real -> real, v: Vec3, w: Vec3)
    requires IsSqrt(sqrt) && w != Vec3(0.0, 0.0, 0.0)
    ensures exists k: real :: ProjectionOnVector2(sqrt, v, w) == Scale(w, k)
  {
    NonZeroLength(w);
    var k := DotProduct(v, w) / LengthSquared(w);
    assert ProjectionOnVector2(sqrt, v, w) == Scale(w, k);
  }

  /** max: value1 when it is the strictly larger one, value2 otherwise. */
  function Max(value1: real, value2: real): (m: real)
    ensures value1 <= m && value2 <= m
    ensures m == value1 || m == value2
    ensures value1 > value2 ==> m == value1
    ensures value1 <= value2 ==> m == value2
  {
    if value1 > value2 then value1 else value2
  }

  /** abs: the value when it is positive, its negation otherwise. */
  function Abs(value1: real): (a: real)
    ensures 0.0 <= a
    ensures a == value1 || a == -value1
    ensures a * a == value1 * value1
  {
    if value1 > 0.0 then value1 else -value1
  }
}
