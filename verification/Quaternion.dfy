/** Unit quaternions as rotations: the state the 3x3 diagonaliser carries from step to step. */
module Quaternion {
  import opened Reals
  import opened Matrix3

  /** q[0..3] of the source: the vector part (x, y, z) and the scalar part w. */
  datatype Quat = Quat(x: real, y: real, z: real, w: real)

  const UNIT := Quat(0.0, 0.0, 0.0, 1.0)

  function Squares(a: real, b: real, c: real, d: real): real { a * a + b * b + c * c + d * d }

  function NormSq(q: Quat): real { Squares(q.x, q.y, q.z, q.w) }

  function Stretch(k: real, q: Quat): Quat {
    Quat(Times(k, q.x), Times(k, q.y), Times(k, q.z), Times(k, q.w))
  }

  // Entries of the rotation matrix, with x-y-z taken in cyclic order.
  function Diag(x: real, y: real, z: real, w: real): real { x * x - y * y - z * z + w * w }
  function Minus(x: real, y: real, z: real, w: real): real { 2.0 * (x * y - z * w) }
  function Plus(x: real, y: real, z: real, w: real): real { 2.0 * (x * y + z * w) }

  /** "quat to matrix" of the diagonaliser. */
  function QuatToMat(q: Quat): Mat3 {
    Mat3(
      Vec3(Diag(q.x, q.y, q.z, q.w), Minus(q.x, q.y, q.z, q.w), Plus(q.z, q.x, q.y, q.w)),
      Vec3(Plus(q.x, q.y, q.z, q.w), Diag(q.y, q.z, q.x, q.w), Minus(q.y, q.z, q.x, q.w)),
      Vec3(Minus(q.z, q.x, q.y, q.w), Plus(q.y, q.z, q.x, q.w), Diag(q.z, q.x, q.y, q.w)))
  }

  // Components of a product of quaternions: a vector component in cyclic order, and the scalar one.
  function VectorPart(a: real, b: real, c: real, d: real, x: real, y: real, z: real, w: real): real {
    d * x + a * w + b * z - c * y
  }
  function ScalarPart(a: real, b: real, c: real, d: real, x: real, y: real, z: real, w: real): real {
    d * w - a * x - b * y - c * z
  }

  /** The quaternion product: first q, then r in q's frame. */
  function Product(q: Quat, r: Quat): Quat {
    Quat(
      VectorPart(q.x, q.y, q.z, q.w, r.x, r.y, r.z, r.w),
      VectorPart(q.y, q.z, q.x, q.w, r.y, r.z, r.x, r.w),
      VectorPart(q.z, q.x, q.y, q.w, r.z, r.x, r.y, r.w),
      ScalarPart(q.x, q.y, q.z, q.w, r.x, r.y, r.z, r.w))
  }

  function Conj(q: Quat): Quat { Quat(-q.x, -q.y, -q.z, q.w) }

  lemma ProductNorm(q: Quat, r: Quat)
    ensures NormSq(Product(q, r)) == NormSq(q) * NormSq(r)
  {
    var p := Product(q, r);
    FourSquares(q.x, q.y, q.z, q.w, r.x, r.y, r.z, r.w, p.x, p.y, p.z, p.w);
  }

  lemma FourSquares(a: real, b: real, c: real, d: real, x: real, y: real, z: real, w: real,
      p: real, q: real, r: real, s: real)
    requires p == VectorPart(a, b, c, d, x, y, z, w) && q == VectorPart(b, c, a, d, y, z, x, w)
    requires r == VectorPart(c, a, b, d, z, x, y, w) && s == ScalarPart(a, b, c, d, x, y, z, w)
    ensures Squares(p, q, r, s) == Squares(a, b, c, d) * Squares(x, y, z, w)
  {
    FourSquaresExpanded(a, b, c, d, x, y, z, w, p, q, r, s);
    ExpandSquares(a, b, c, d, x, y, z, w, Squares(a, b, c, d), Squares(x, y, z, w));
  }

  lemma FourSquaresExpanded(a: real, b: real, c: real, d: real, x: real, y: real, z: real, w: real,
      p: real, q: real, r: real, s: real)
    requires p == VectorPart(a, b, c, d, x, y, z, w) && q == VectorPart(b, c, a, d, y, z, x, w)
    requires r == VectorPart(c, a, b, d, z, x, y, w) && s == ScalarPart(a, b, c, d, x, y, z, w)
    ensures p * p + q * q + r * r + s * s == (a * a + b * b + c * c + d * d) * (x * x + y * y + z * z + w * w)
  {}

  lemma ExpandSquares(a: real, b: real, c: real, d: real, x: real, y: real, z: real, w: real, m: real, n: real)
    requires m == a * a + b * b + c * c + d * d && n == x * x + y * y + z * z + w * w
    ensures m * n == (a * a + b * b + c * c + d * d) * (x * x + y * y + z * z + w * w)
  {}

  lemma StretchNorm(k: real, q: Quat)
    ensures NormSq(Stretch(k, q)) == k * k * NormSq(q)
  {
    StretchSquares(k, q.x, q.y, q.z, q.w);
  }

  lemma StretchSquares(k: real, x: real, y: real, z: real, w: real)
    ensures Squares(Times(k, x), Times(k, y), Times(k, z), Times(k, w)) == k * k * Squares(x, y, z, w)
  {}

  /** Products of quaternions are products of matrices. */
  lemma ProductIsMul(q: Quat, r: Quat)
    ensures QuatToMat(Product(q, r)) == Mul(QuatToMat(q), QuatToMat(r))
  {
    ProductRow0(q, r);
    ProductRow1(q, r);
    ProductRow2(q, r);
  }

  lemma ProductRow0(q: Quat, r: Quat)
    ensures QuatToMat(Product(q, r)).r0 == RowMul(QuatToMat(q).r0, QuatToMat(r))
  {
    var p := Product(q, r);
    EntryOnDiagonal(q.x, q.y, q.z, q.w, r.x, r.y, r.z, r.w, p.x, p.y, p.z, p.w);
    EntryAfterDiagonal(q.x, q.y, q.z, q.w, r.x, r.y, r.z, r.w, p.x, p.y, p.z, p.w);
    EntryBeforeDiagonal(q.x, q.y, q.z, q.w, r.x, r.y, r.z, r.w, p.x, p.y, p.z, p.w);
  }

  lemma ProductRow1(q: Quat, r: Quat)
    ensures QuatToMat(Product(q, r)).r1 == RowMul(QuatToMat(q).r1, QuatToMat(r))
  {
    var p := Product(q, r);
    EntryOnDiagonal(q.y, q.z, q.x, q.w, r.y, r.z, r.x, r.w, p.y, p.z, p.x, p.w);
    EntryAfterDiagonal(q.y, q.z, q.x, q.w, r.y, r.z, r.x, r.w, p.y, p.z, p.x, p.w);
    EntryBeforeDiagonal(q.y, q.z, q.x, q.w, r.y, r.z, r.x, r.w, p.y, p.z, p.x, p.w);
  }

  lemma ProductRow2(q: Quat, r: Quat)
    ensures QuatToMat(Product(q, r)).r2 == RowMul(QuatToMat(q).r2, QuatToMat(r))
  {
    var p := Product(q, r);
    EntryOnDiagonal(q.z, q.x, q.y, q.w, r.z, r.x, r.y, r.w, p.z, p.x, p.y, p.w);
    EntryAfterDiagonal(q.z, q.x, q.y, q.w, r.z, r.x, r.y, r.w, p.z, p.x, p.y, p.w);
    EntryBeforeDiagonal(q.z, q.x, q.y, q.w, r.z, r.x, r.y, r.w, p.z, p.x, p.y, p.w);
  }

  // One row of the first matrix against each column of the second: first with the product's components p, q, r, s
  // named, then with the matrix entries named.

  lemma PolynomialOnDiagonal(a: real, b: real, c: real, d: real, x: real, y: real, z: real, w: real,
      p: real, q: real, r: real, s: real)
    requires p == d * x + a * w + b * z - c * y && q == d * y - a * z + b * w + c * x
    requires r == d * z + a * y - b * x + c * w && s == d * w - a * x - b * y - c * z
    ensures (a * a - b * b - c * c + d * d) * (x * x - y * y - z * z + w * w)
            + 2.0 * (a * b - c * d) * (2.0 * (x * y + z * w))
            + 2.0 * (a * c + b * d) * (2.0 * (x * z - y * w))
         == p * p - q * q - r * r + s * s
  {}

  lemma ExpandOnDiagonal(a: real, b: real, c: real, d: real, x: real, y: real, z: real, w: real,
      m0: real, m1: real, m2: real, n0: real, n1: real, n2: real)
    requires m0 == a * a - b * b - c * c + d * d && m1 == 2.0 * (a * b - c * d) && m2 == 2.0 * (a * c + b * d)
    requires n0 == x * x - y * y - z * z + w * w && n1 == 2.0 * (x * y + z * w) && n2 == 2.0 * (x * z - y * w)
    ensures m0 * n0 + m1 * n1 + m2 * n2
         == (a * a - b * b - c * c + d * d) * (x * x - y * y - z * z + w * w)
            + 2.0 * (a * b - c * d) * (2.0 * (x * y + z * w))
            + 2.0 * (a * c + b * d) * (2.0 * (x * z - y * w))
  {}

  lemma EntryOnDiagonal(a: real, b: real, c: real, d: real, x: real, y: real, z: real, w: real,
      p: real, q: real, r: real, s: real)
    requires p == VectorPart(a, b, c, d, x, y, z, w) && q == VectorPart(b, c, a, d, y, z, x, w)
    requires r == VectorPart(c, a, b, d, z, x, y, w) && s == ScalarPart(a, b, c, d, x, y, z, w)
    ensures Diag(a, b, c, d) * Diag(x, y, z, w) + Minus(a, b, c, d) * Plus(x, y, z, w)
      + Plus(c, a, b, d) * Minus(z, x, y, w)
         == Diag(p, q, r, s)
  {
    PolynomialOnDiagonal(a, b, c, d, x, y, z, w, p, q, r, s);
    ExpandOnDiagonal(a, b, c, d, x, y, z, w, Diag(a, b, c, d), Minus(a, b, c, d), Plus(c, a, b, d),
      Diag(x, y, z, w), Plus(x, y, z, w), Minus(z, x, y, w));
  }

  lemma PolynomialAfterDiagonal(a: real, b: real, c: real, d: real, x: real, y: real, z: real, w: real,
      p: real, q: real, r: real, s: real)
    requires p == d * x + a * w + b * z - c * y && q == d * y - a * z + b * w + c * x
    requires r == d * z + a * y - b * x + c * w && s == d * w - a * x - b * y - c * z
    ensures (a * a - b * b - c * c + d * d) * (2.0 * (x * y - z * w))
            + 2.0 * (a * b - c * d) * (-x * x + y * y - z * z + w * w)
            + 2.0 * (a * c + b * d) * (2.0 * (y * z + x * w))
         == 2.0 * (p * q - r * s)
  {}

  lemma ExpandAfterDiagonal(a: real, b: real, c: real, d: real, x: real, y: real, z: real, w: real,
      m0: real, m1: real, m2: real, n0: real, n1: real, n2: real)
    requires m0 == a * a - b * b - c * c + d * d && m1 == 2.0 * (a * b - c * d) && m2 == 2.0 * (a * c + b * d)
    requires n0 == 2.0 * (x * y - z * w) && n1 == -x * x + y * y - z * z + w * w && n2 == 2.0 * (y * z + x * w)
    ensures m0 * n0 + m1 * n1 + m2 * n2
         == (a * a - b * b - c * c + d * d) * (2.0 * (x * y - z * w))
            + 2.0 * (a * b - c * d) * (-x * x + y * y - z * z + w * w)
            + 2.0 * (a * c + b * d) * (2.0 * (y * z + x * w))
  {}

  lemma EntryAfterDiagonal(a: real, b: real, c: real, d: real, x: real, y: real, z: real, w: real,
      p: real, q: real, r: real, s: real)
    requires p == VectorPart(a, b, c, d, x, y, z, w) && q == VectorPart(b, c, a, d, y, z, x, w)
    requires r == VectorPart(c, a, b, d, z, x, y, w) && s == ScalarPart(a, b, c, d, x, y, z, w)
    ensures Diag(a, b, c, d) * Minus(x, y, z, w) + Minus(a, b, c, d) * Diag(y, z, x, w)
      + Plus(c, a, b, d) * Plus(y, z, x, w)
         == Minus(p, q, r, s)
  {
    PolynomialAfterDiagonal(a, b, c, d, x, y, z, w, p, q, r, s);
    ExpandAfterDiagonal(a, b, c, d, x, y, z, w, Diag(a, b, c, d), Minus(a, b, c, d), Plus(c, a, b, d),
      Minus(x, y, z, w), Diag(y, z, x, w), Plus(y, z, x, w));
  }

  lemma PolynomialBeforeDiagonal(a: real, b: real, c: real, d: real, x: real, y: real, z: real, w: real,
      p: real, q: real, r: real, s: real)
    requires p == d * x + a * w + b * z - c * y && q == d * y - a * z + b * w + c * x
    requires r == d * z + a * y - b * x + c * w && s == d * w - a * x - b * y - c * z
    ensures (a * a - b * b - c * c + d * d) * (2.0 * (x * z + y * w))
            + 2.0 * (a * b - c * d) * (2.0 * (y * z - x * w))
            + 2.0 * (a * c + b * d) * (-x * x - y * y + z * z + w * w)
         == 2.0 * (p * r + q * s)
  {}

  lemma ExpandBeforeDiagonal(a: real, b: real, c: real, d: real, x: real, y: real, z: real, w: real,
      m0: real, m1: real, m2: real, n0: real, n1: real, n2: real)
    requires m0 == a * a - b * b - c * c + d * d && m1 == 2.0 * (a * b - c * d) && m2 == 2.0 * (a * c + b * d)
    requires n0 == 2.0 * (x * z + y * w) && n1 == 2.0 * (y * z - x * w) && n2 == -x * x - y * y + z * z + w * w
    ensures m0 * n0 + m1 * n1 + m2 * n2
         == (a * a - b * b - c * c + d * d) * (2.0 * (x * z + y * w))
            + 2.0 * (a * b - c * d) * (2.0 * (y * z - x * w))
            + 2.0 * (a * c + b * d) * (-x * x - y * y + z * z + w * w)
  {}

  lemma EntryBeforeDiagonal(a: real, b: real, c: real, d: real, x: real, y: real, z: real, w: real,
      p: real, q: real, r: real, s: real)
    requires p == VectorPart(a, b, c, d, x, y, z, w) && q == VectorPart(b, c, a, d, y, z, x, w)
    requires r == VectorPart(c, a, b, d, z, x, y, w) && s == ScalarPart(a, b, c, d, x, y, z, w)
    ensures Diag(a, b, c, d) * Plus(z, x, y, w) + Minus(a, b, c, d) * Minus(y, z, x, w)
      + Plus(c, a, b, d) * Diag(z, x, y, w)
         == Plus(r, p, q, s)
  {
    PolynomialBeforeDiagonal(a, b, c, d, x, y, z, w, p, q, r, s);
    ExpandBeforeDiagonal(a, b, c, d, x, y, z, w, Diag(a, b, c, d), Minus(a, b, c, d), Plus(c, a, b, d),
      Plus(z, x, y, w), Minus(y, z, x, w), Diag(z, x, y, w));
  }

  lemma FlipVector(x: real, y: real, z: real, w: real)
    ensures Diag(-x, -y, -z, w) == Diag(x, y, z, w)
    ensures Minus(-x, -y, -z, w) == Plus(x, y, z, w) && Plus(-x, -y, -z, w) == Minus(x, y, z, w)
    ensures VectorPart(-x, -y, -z, w, x, y, z, w) == 0.0 == VectorPart(x, y, z, w, -x, -y, -z, w)
  {}

  lemma ConjIsTranspose(q: Quat)
    ensures QuatToMat(Conj(q)) == Transpose(QuatToMat(q))
  {
    FlipVector(q.x, q.y, q.z, q.w);
    FlipVector(q.y, q.z, q.x, q.w);
    FlipVector(q.z, q.x, q.y, q.w);
  }

  lemma ConjInverse(q: Quat)
    requires NormSq(q) == 1.0
    ensures Product(Conj(q), q) == UNIT == Product(q, Conj(q))
  {
    FlipVector(q.x, q.y, q.z, q.w);
    FlipVector(q.y, q.z, q.x, q.w);
    FlipVector(q.z, q.x, q.y, q.w);
  }

  /** A unit quaternion is a rotation. */
  lemma UnitOrthogonal(q: Quat)
    requires NormSq(q) == 1.0
    ensures Orthogonal(QuatToMat(q))
  {
    ConjIsTranspose(q);
    ConjInverse(q);
    ProductIsMul(Conj(q), q);
    ProductIsMul(q, Conj(q));
    assert QuatToMat(UNIT) == IDENTITY;
  }
}
