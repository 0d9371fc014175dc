/** How far a change of basis close to the identity moves a matrix, in the sum of the squares of the entries. */
module MatrixDistance {
  import opened Reals
  import opened Matrix3
  import opened Quaternion
  import opened JacobiStep

  function SubVec(u: Vec3, v: Vec3): Vec3 { Vec3(u.x - v.x, u.y - v.y, u.z - v.z) }

  function Sub(M: Mat3, N: Mat3): Mat3 { Mat3(SubVec(M.r0, N.r0), SubVec(M.r1, N.r1), SubVec(M.r2, N.r2)) }

  // ----- products

  lemma CauchySchwarz(u: Vec3, v: Vec3)
    ensures Sq(Dot(u, v)) <= Times(Dot(u, u), Dot(v, v))
  {
    Lagrange(u.x, u.y, u.z, v.x, v.y, v.z);
    SqNonnegative(u.x * v.y - u.y * v.x);
    SqNonnegative(u.x * v.z - u.z * v.x);
    SqNonnegative(u.y * v.z - u.z * v.y);
  }

  lemma Lagrange(a: real, b: real, c: real, x: real, y: real, z: real)
    ensures Times(a * a + b * b + c * c, x * x + y * y + z * z)
         == Sq(a * x + b * y + c * z) + Sq(a * y - b * x) + Sq(a * z - c * x) + Sq(b * z - c * y)
  {}

  lemma TransposeSumSq(B: Mat3)
    ensures SumSq(Transpose(B)) == SumSq(B)
  {}

  lemma RowBound(v: Vec3, B: Mat3)
    ensures Dot(RowMul(v, B), RowMul(v, B)) <= Times(Dot(v, v), SumSq(B))
  {
    var T := Transpose(B);
    CauchySchwarz(v, T.r0);
    CauchySchwarz(v, T.r1);
    CauchySchwarz(v, T.r2);
    TransposeSumSq(B);
    ThreeTimes(Dot(v, v), Dot(T.r0, T.r0), Dot(T.r1, T.r1), Dot(T.r2, T.r2));
  }

  lemma ThreeTimes(k: real, a: real, b: real, c: real)
    ensures Times(k, a) + Times(k, b) + Times(k, c) == Times(k, a + b + c)
    ensures Times(a, k) + Times(b, k) + Times(c, k) == Times(a + b + c, k)
  {}

  lemma MulBound(A: Mat3, B: Mat3)
    ensures SumSq(Mul(A, B)) <= Times(SumSq(A), SumSq(B))
  {
    RowBound(A.r0, B);
    RowBound(A.r1, B);
    RowBound(A.r2, B);
    ThreeTimes(SumSq(B), Dot(A.r0, A.r0), Dot(A.r1, A.r1), Dot(A.r2, A.r2));
  }

  lemma SumSqNonnegative(M: Mat3)
    ensures SumSq(M) >= 0.0
  {
    DotNonnegative(M.r0);
    DotNonnegative(M.r1);
    DotNonnegative(M.r2);
  }

  /** An orthogonal factor keeps the sum of squares. */
  lemma OrthogonalKeeps(E: Mat3, G: Mat3)
    requires Orthogonal(G)
    ensures SumSq(Mul(E, G)) == SumSq(E)
  {
    var M := Mul(E, G);
    calc {
      Mul(Transpose(M), M);
    == { TransposeMul(E, G); MulAssoc(Transpose(G), Transpose(E), M); MulAssoc(Transpose(E), E, G); }
      Conjugate(Mul(Transpose(E), E), G);
    }
    ConjugateTrace(Mul(Transpose(E), E), G);
    SumSqIsTrace(M);
    SumSqIsTrace(E);
  }

  // ----- sums

  lemma SumBound(M: Mat3, N: Mat3)
    ensures SumSq(Add(M, N)) <= 2.0 * SumSq(M) + 2.0 * SumSq(N)
  {
    RowSum(M.r0, N.r0);
    RowSum(M.r1, N.r1);
    RowSum(M.r2, N.r2);
  }

  lemma RowSum(u: Vec3, v: Vec3)
    ensures Dot(AddVec(u, v), AddVec(u, v)) <= 2.0 * Dot(u, u) + 2.0 * Dot(v, v)
  {
    SquareOfSum(u.x, v.x);
    SquareOfSum(u.y, v.y);
    SquareOfSum(u.z, v.z);
  }

  lemma SquareOfSum(x: real, y: real)
    ensures (x + y) * (x + y) <= 2.0 * (x * x) + 2.0 * (y * y)
  {
    SqNonnegative(x - y);
    assert 2.0 * (x * x) + 2.0 * (y * y) - (x + y) * (x + y) == Sq(x - y);
  }

  /** The same with most of the weight on the second part. */
  lemma WeightedSum(M: Mat3, N: Mat3)
    ensures SumSq(Add(M, N)) <= 11.0 * SumSq(M) + 1.1 * SumSq(N)
  {
    WeightedRow(M.r0, N.r0);
    WeightedRow(M.r1, N.r1);
    WeightedRow(M.r2, N.r2);
  }

  lemma WeightedRow(u: Vec3, v: Vec3)
    ensures Dot(AddVec(u, v), AddVec(u, v)) <= 11.0 * Dot(u, u) + 1.1 * Dot(v, v)
  {
    WeightedSquare(u.x, v.x);
    WeightedSquare(u.y, v.y);
    WeightedSquare(u.z, v.z);
  }

  lemma WeightedSquare(x: real, y: real)
    ensures (x + y) * (x + y) <= 11.0 * (x * x) + 1.1 * (y * y)
  {
    SqNonnegative(10.0 * x - y);
    assert 11.0 * (x * x) + 1.1 * (y * y) - (x + y) * (x + y) == 0.1 * Sq(10.0 * x - y);
  }

  // ----- conjugation

  lemma SubRowMul(u: Vec3, v: Vec3, B: Mat3)
    ensures RowMul(SubVec(u, v), B) == SubVec(RowMul(u, B), RowMul(v, B))
  {
    var T := Transpose(B);
    SubDot(u, v, T.r0);
    SubDot(u, v, T.r1);
    SubDot(u, v, T.r2);
  }

  lemma SubDot(u: Vec3, v: Vec3, w: Vec3)
    ensures Dot(SubVec(u, v), w) == Dot(u, w) - Dot(v, w) && Dot(w, SubVec(u, v)) == Dot(w, u) - Dot(w, v)
  {}

  lemma SubMul(P: Mat3, Q: Mat3, B: Mat3)
    ensures Mul(Sub(P, Q), B) == Sub(Mul(P, B), Mul(Q, B))
  {
    SubRowMul(P.r0, Q.r0, B);
    SubRowMul(P.r1, Q.r1, B);
    SubRowMul(P.r2, Q.r2, B);
  }

  lemma MulSub(B: Mat3, P: Mat3, Q: Mat3)
    ensures Mul(B, Sub(P, Q)) == Sub(Mul(B, P), Mul(B, Q))
  {
    RowMulSub(B.r0, P, Q);
    RowMulSub(B.r1, P, Q);
    RowMulSub(B.r2, P, Q);
  }

  lemma RowMulSub(v: Vec3, P: Mat3, Q: Mat3)
    ensures RowMul(v, Sub(P, Q)) == SubVec(RowMul(v, P), RowMul(v, Q))
  {
    var S, T := Transpose(P), Transpose(Q);
    SubDot(S.r0, T.r0, v);
    SubDot(S.r1, T.r1, v);
    SubDot(S.r2, T.r2, v);
  }

  lemma Telescope(M: Mat3, Y: Mat3, E: Mat3)
    ensures Add(Sub(M, Y), Sub(Y, E)) == Sub(M, E)
  {}

  lemma TransposeSub(G: Mat3)
    ensures Transpose(Sub(G, IDENTITY)) == Sub(Transpose(G), IDENTITY)
  {}

  /** A change of basis moves a matrix no further than twice its own distance from the identity times the matrix. */
  lemma ConjugateNear(E: Mat3, G: Mat3)
    requires Orthogonal(G)
    ensures SumSq(Sub(Conjugate(E, G), E)) <= 4.0 * Times(SumSq(Sub(G, IDENTITY)), SumSq(E))
  {
    var X, Y := Sub(G, IDENTITY), Mul(E, G);
    TransposeSub(G);
    SubMul(Transpose(G), IDENTITY, Y);
    MulIdentity(Y);
    MulSub(E, G, IDENTITY);
    MulIdentity(E);
    Telescope(Conjugate(E, G), Y, E);
    SumBound(Mul(Transpose(X), Y), Mul(E, X));
    MulBound(Transpose(X), Y);
    MulBound(E, X);
    TransposeSumSq(X);
    OrthogonalKeeps(E, G);
    Swapped(SumSq(E), SumSq(X));
  }

  lemma Swapped(a: real, b: real)
    ensures Times(a, b) == Times(b, a)
  {}

  // ----- the distance of a rotation from the identity

  function VectorSq(q: Quat): real { q.x * q.x + q.y * q.y + q.z * q.z }

  /** The matrix of a unit quaternion is as far from the identity as its vector part is long. */
  lemma TurnDistance(g: Quat)
    requires NormSq(g) == 1.0
    ensures SumSq(Sub(QuatToMat(g), IDENTITY)) == 8.0 * VectorSq(g)
  {
    DiagonalDistance(g.x, g.y, g.z, g.w);
    DiagonalDistance(g.y, g.z, g.x, g.w);
    DiagonalDistance(g.z, g.x, g.y, g.w);
    PairDistance(g.x, g.y, g.z, g.w);
    PairDistance(g.y, g.z, g.x, g.w);
    PairDistance(g.z, g.x, g.y, g.w);
    SumOfDistances(g.x * g.x, g.y * g.y, g.z * g.z, g.w * g.w);
  }

  lemma DiagonalDistance(x: real, y: real, z: real, w: real)
    requires x * x + y * y + z * z + w * w == 1.0
    ensures Sq(Diag(x, y, z, w) - 1.0) == 4.0 * Sq(y * y + z * z)
  {
    assert Diag(x, y, z, w) - 1.0 == -2.0 * (y * y + z * z);
  }

  lemma PairDistance(x: real, y: real, z: real, w: real)
    ensures Sq(Minus(x, y, z, w)) + Sq(Plus(x, y, z, w))
         == 8.0 * Times(x * x, y * y) + 8.0 * Times(z * z, w * w)
  {}

  lemma SumOfDistances(a: real, b: real, c: real, d: real)
    requires a + b + c + d == 1.0
    ensures 4.0 * Sq(b + c) + 4.0 * Sq(c + a) + 4.0 * Sq(a + b)
          + (8.0 * Times(a, b) + 8.0 * Times(c, d)) + (8.0 * Times(b, c) + 8.0 * Times(a, d))
          + (8.0 * Times(c, a) + 8.0 * Times(b, d)) == 8.0 * (a + b + c)
  {
    assert d == 1.0 - (a + b + c);
  }

  // ----- entries of matrices that are close

  lemma OffNear(D: Mat3, E: Mat3)
    ensures Off(D) <= 1.125 * Off(E) + 9.0 * SumSq(Sub(D, E))
  {
    EntryNear(D.r0.y, E.r0.y);
    EntryNear(D.r0.z, E.r0.z);
    EntryNear(D.r1.x, E.r1.x);
    EntryNear(D.r1.z, E.r1.z);
    EntryNear(D.r2.x, E.r2.x);
    EntryNear(D.r2.y, E.r2.y);
    SqNonnegative(D.r0.x - E.r0.x);
    SqNonnegative(D.r1.y - E.r1.y);
    SqNonnegative(D.r2.z - E.r2.z);
  }

  lemma EntryNear(x: real, y: real)
    ensures x * x <= 1.125 * (y * y) + 9.0 * Sq(x - y)
  {
    SqNonnegative(8.0 * (x - y) - y);
    assert 1.125 * (y * y) + 9.0 * Sq(x - y) - x * x == 0.125 * Sq(8.0 * (x - y) - y);
  }

  lemma SpreadNear(D: Mat3, E: Mat3, axis: Axis)
    ensures Sq(Spread(D, axis) - Spread(E, axis)) <= 2.0 * SumSq(Sub(D, E))
  {
    SpreadBelow(Sub(D, E), axis);
  }

  lemma SpreadBelow(M: Mat3, axis: Axis)
    ensures Sq(Spread(M, axis)) <= 2.0 * SumSq(M)
  {
    DiagonalBelow(M);
    match axis
    case XAxis => DifferenceSquare(M.r2.z, M.r1.y);
    case YAxis => DifferenceSquare(M.r0.x, M.r2.z);
    case ZAxis => DifferenceSquare(M.r1.y, M.r0.x);
  }

  lemma DiagonalBelow(M: Mat3)
    ensures Sq(M.r0.x) + Sq(M.r1.y) + Sq(M.r2.z) <= SumSq(M)
    ensures Sq(M.r0.x) >= 0.0 && Sq(M.r1.y) >= 0.0 && Sq(M.r2.z) >= 0.0
  {
    SqNonnegative(M.r0.x); SqNonnegative(M.r0.y); SqNonnegative(M.r0.z);
    SqNonnegative(M.r1.x); SqNonnegative(M.r1.y); SqNonnegative(M.r1.z);
    SqNonnegative(M.r2.x); SqNonnegative(M.r2.y); SqNonnegative(M.r2.z);
  }

  lemma DifferenceSquare(x: real, y: real)
    ensures Sq(x - y) <= 2.0 * (Sq(x) + Sq(y))
  {
    SqNonnegative(x + y);
    assert 2.0 * (Sq(x) + Sq(y)) - Sq(x - y) == Sq(x + y);
  }
}
