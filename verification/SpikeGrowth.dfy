/** A large diagonal entry on an axis, seen after the axis has been tilted. */
module SpikeGrowth {
  import opened Reals
  import opened Matrix3
  import opened Quaternion
  import opened JacobiStep

  function Row(M: Mat3, axis: Axis): Vec3 {
    match axis case XAxis => M.r0 case YAxis => M.r1 case ZAxis => M.r2
  }

  function At(v: Vec3, axis: Axis): real {
    match axis case XAxis => v.x case YAxis => v.y case ZAxis => v.z
  }

  const ZERO := Vec3(0.0, 0.0, 0.0)

  /** k on the diagonal at the axis, and nothing else. */
  function Spike(axis: Axis, k: real): Mat3 {
    match axis
    case XAxis => Mat3(Vec3(k, 0.0, 0.0), ZERO, ZERO)
    case YAxis => Mat3(ZERO, Vec3(0.0, k, 0.0), ZERO)
    case ZAxis => Mat3(ZERO, ZERO, Vec3(0.0, 0.0, k))
  }

  /** k times the outer product of p with itself. */
  function Outer(k: real, p: Vec3): Mat3 {
    Mat3(ScaleRow(Times(k, p.x), p), ScaleRow(Times(k, p.y), p), ScaleRow(Times(k, p.z), p))
  }

  lemma DotAdd(u: Vec3, v: Vec3, c: Vec3)
    ensures Dot(AddVec(u, v), c) == Dot(u, c) + Dot(v, c) && Dot(c, AddVec(u, v)) == Dot(c, u) + Dot(c, v)
  {}

  lemma RowMulAdd(v: Vec3, M: Mat3, N: Mat3)
    ensures RowMul(v, Add(M, N)) == AddVec(RowMul(v, M), RowMul(v, N))
  {
    var S, T := Transpose(M), Transpose(N);
    DotAdd(S.r0, T.r0, v);
    DotAdd(S.r1, T.r1, v);
    DotAdd(S.r2, T.r2, v);
  }

  lemma AddRowMul(u: Vec3, v: Vec3, J: Mat3)
    ensures RowMul(AddVec(u, v), J) == AddVec(RowMul(u, J), RowMul(v, J))
  {
    var T := Transpose(J);
    DotAdd(u, v, T.r0);
    DotAdd(u, v, T.r1);
    DotAdd(u, v, T.r2);
  }

  lemma ConjugateAdd(M: Mat3, N: Mat3, J: Mat3)
    ensures Conjugate(Add(M, N), J) == Add(Conjugate(M, J), Conjugate(N, J))
  {
    var T := Transpose(J);
    AddRowMul(M.r0, N.r0, J);
    AddRowMul(M.r1, N.r1, J);
    AddRowMul(M.r2, N.r2, J);
    RowMulAdd(T.r0, Mul(M, J), Mul(N, J));
    RowMulAdd(T.r1, Mul(M, J), Mul(N, J));
    RowMulAdd(T.r2, Mul(M, J), Mul(N, J));
  }

  /** Conjugating a spike spreads it over the outer product of one row of the rotation. */
  lemma SpikeConjugate(axis: Axis, k: real, J: Mat3)
    ensures Conjugate(Spike(axis, k), J) == Outer(k, Row(J, axis))
  {
    var p, T := Row(J, axis), Transpose(J);
    SpikeRows(axis, k, J);
    LoneRow(T.r0, axis, ScaleRow(k, p));
    LoneRow(T.r1, axis, ScaleRow(k, p));
    LoneRow(T.r2, axis, ScaleRow(k, p));
    OuterRow(p.x, k, p);
    OuterRow(p.y, k, p);
    OuterRow(p.z, k, p);
  }

  /** The matrix whose only row is v, at the axis. */
  function OnlyRow(axis: Axis, v: Vec3): Mat3 {
    match axis
    case XAxis => Mat3(v, ZERO, ZERO)
    case YAxis => Mat3(ZERO, v, ZERO)
    case ZAxis => Mat3(ZERO, ZERO, v)
  }

  lemma SpikeRows(axis: Axis, k: real, J: Mat3)
    ensures Mul(Spike(axis, k), J) == OnlyRow(axis, ScaleRow(k, Row(J, axis)))
  {}

  lemma LoneRow(u: Vec3, axis: Axis, v: Vec3)
    ensures RowMul(u, OnlyRow(axis, v)) == ScaleRow(At(u, axis), v)
  {}

  lemma OuterRow(x: real, k: real, p: Vec3)
    ensures ScaleRow(x, ScaleRow(k, p)) == ScaleRow(Times(k, x), p)
  {
    Reorder(x, k, p.x);
    Reorder(x, k, p.y);
    Reorder(x, k, p.z);
  }

  lemma Reorder(x: real, k: real, y: real)
    ensures Times(x, Times(k, y)) == Times(Times(k, x), y)
  {}

  // ----- what an added matrix leaves off the diagonal

  lemma HalfSquare(x: real, y: real, z: real)
    requires z == x + y
    ensures z * z >= 0.5 * (y * y) - x * x
  {
    var m := x + 0.5 * y;
    SqNonnegative(m);
    assert z * z - 0.5 * (y * y) + x * x == 2.0 * Sq(m);
  }

  lemma AddOff(M: Mat3, N: Mat3)
    ensures Off(Add(M, N)) >= 0.5 * Off(N) - Off(M)
  {
    var S := Add(M, N);
    HalfSquare(M.r0.y, N.r0.y, S.r0.y);
    HalfSquare(M.r0.z, N.r0.z, S.r0.z);
    HalfSquare(M.r1.x, N.r1.x, S.r1.x);
    HalfSquare(M.r1.z, N.r1.z, S.r1.z);
    HalfSquare(M.r2.x, N.r2.x, S.r2.x);
    HalfSquare(M.r2.y, N.r2.y, S.r2.y);
  }

  function Pairs(a: real, b: real, c: real): real { a * b + b * c + c * a }

  lemma OuterOff(k: real, p: Vec3)
    ensures Off(Outer(k, p)) == 2.0 * Times(Sq(k), Pairs(Sq(p.x), Sq(p.y), Sq(p.z)))
  {
    OuterSquares(k, p.x, p.y, p.z);
  }

  lemma OuterSquares(k: real, x: real, y: real, z: real)
    ensures Sq(Times(Times(k, x), y)) + Sq(Times(Times(k, x), z)) + Sq(Times(Times(k, y), x))
          + Sq(Times(Times(k, y), z)) + Sq(Times(Times(k, z), x)) + Sq(Times(Times(k, z), y))
         == 2.0 * Times(Sq(k), Pairs(Sq(x), Sq(y), Sq(z)))
  {
    SquareOfProduct(k, x, y);
    SquareOfProduct(k, x, z);
    SquareOfProduct(k, y, x);
    SquareOfProduct(k, y, z);
    SquareOfProduct(k, z, x);
    SquareOfProduct(k, z, y);
    CollectPairs(Sq(k), Sq(x), Sq(y), Sq(z));
  }

  lemma SquareOfProduct(k: real, a: real, b: real)
    ensures Sq(Times(Times(k, a), b)) == Times(Sq(k), Times(Sq(a), Sq(b)))
  {}

  lemma CollectPairs(k: real, a: real, b: real, c: real)
    ensures Times(k, Pairs(a, b, c)) == Times(k, Times(a, b)) + Times(k, Times(b, c)) + Times(k, Times(c, a))
    ensures Times(a, b) == Times(b, a) && Times(b, c) == Times(c, b) && Times(c, a) == Times(a, c)
  {}

  /** The row of the axis in a rotation whose components off the axis have squared norm xi. */
  lemma RowOfTilt(rel: Quat, axis: Axis, xi: real)
    requires NormSq(rel) == 1.0 && xi == SqNorm(Second(rel, axis))
    ensures var p := Row(QuatToMat(rel), axis);
      At(p, axis) == 1.0 - 2.0 * xi && Sq(p.x) + Sq(p.y) + Sq(p.z) == 1.0
  {
    UnitOrthogonal(rel);
    UnitRow(QuatToMat(rel), axis);
    AxisEntry(rel, axis);
  }

  lemma AxisEntry(rel: Quat, axis: Axis)
    requires NormSq(rel) == 1.0
    ensures At(Row(QuatToMat(rel), axis), axis) == 1.0 - 2.0 * SqNorm(Second(rel, axis))
  {
    DiagonalEntries(QuatToMat(rel), axis, rel.x, rel.y, rel.z, rel.w, Second(rel, axis));
  }

  lemma DiagonalEntries(J: Mat3, axis: Axis, x: real, y: real, z: real, w: real, s: Pair)
    requires Squares(x, y, z, w) == 1.0
    requires J.r0.x == Diag(x, y, z, w) && J.r1.y == Diag(y, z, x, w) && J.r2.z == Diag(z, x, y, w)
    requires s == match axis case XAxis => Pair(y, z) case YAxis => Pair(x, -z) case ZAxis => Pair(x, y)
    ensures At(Row(J, axis), axis) == 1.0 - 2.0 * SqNorm(s)
  {
    DiagTilt(x, y, z, w);
    NegatedSquare(z);
  }

  lemma DiagTilt(x: real, y: real, z: real, w: real)
    requires Squares(x, y, z, w) == 1.0
    ensures Diag(x, y, z, w) == 1.0 - 2.0 * (y * y + z * z)
    ensures Diag(y, z, x, w) == 1.0 - 2.0 * (x * x + z * z)
    ensures Diag(z, x, y, w) == 1.0 - 2.0 * (x * x + y * y)
  {}

  lemma UnitRow(J: Mat3, axis: Axis)
    requires Orthogonal(J)
    ensures var p := Row(J, axis); Sq(p.x) + Sq(p.y) + Sq(p.z) == 1.0
  {
    assert Transpose(Transpose(J)) == J;
    assert Dot(Row(J, axis), Row(J, axis)) == At(Row(IDENTITY, axis), axis);
  }

  lemma PairsBound(p: Vec3, axis: Axis, xi: real)
    requires At(p, axis) == 1.0 - 2.0 * xi && Sq(p.x) + Sq(p.y) + Sq(p.z) == 1.0 && 0.0 <= xi <= 0.0625
    ensures Pairs(Sq(p.x), Sq(p.y), Sq(p.z)) >= 2.0 * xi
  {
    SqNonnegative(p.x);
    SqNonnegative(p.y);
    SqNonnegative(p.z);
    match axis
    case XAxis => PairsScalars(Sq(p.x), Sq(p.y), Sq(p.z), xi);
    case YAxis => PairsScalars(Sq(p.y), Sq(p.z), Sq(p.x), xi);
    case ZAxis => PairsScalars(Sq(p.z), Sq(p.x), Sq(p.y), xi);
  }

  lemma PairsScalars(a: real, b: real, c: real, xi: real)
    requires a == Sq(1.0 - 2.0 * xi) && b >= 0.0 && c >= 0.0 && a + b + c == 1.0 && 0.0 <= xi <= 0.0625
    ensures Pairs(a, b, c) >= 2.0 * xi
  {
    MulNonnegative(b, c);
    TiltedSquare(xi);
    AtLeast(1.0 - a, a, 0.75);
    SplitPairs(a, b, c);
  }

  lemma AtLeast(x: real, y: real, bound: real)
    requires x >= 0.0 && y >= bound
    ensures Times(x, y) >= Times(x, bound)
  {
    MulOrder(x, bound, y);
  }

  lemma SplitPairs(a: real, b: real, c: real)
    requires a + b + c == 1.0
    ensures Pairs(a, b, c) == Times(1.0 - a, a) + b * c
  {}

  lemma TiltedSquare(xi: real)
    requires 0.0 <= xi <= 0.0625
    ensures Sq(1.0 - 2.0 * xi) >= 0.75 && 1.0 - Sq(1.0 - 2.0 * xi) >= 3.5 * xi
  {
    MulOrder(xi, xi, 0.0625);
    MulNonnegative(xi, xi);
    assert xi * xi <= 0.0625 * xi;
    assert Sq(1.0 - 2.0 * xi) == 1.0 - 4.0 * xi + 4.0 * (xi * xi);
  }

  /** A spike on a tilted axis shows off the diagonal. */
  lemma SpikeGrows(N: Mat3, axis: Axis, k: real, rel: Quat, xi: real)
    requires NormSq(rel) == 1.0 && xi == SqNorm(Second(rel, axis)) && 0.0 <= xi <= 0.0625
    ensures Off(Conjugate(Add(N, Spike(axis, k)), QuatToMat(rel))) >= Times(Sq(k), 2.0 * xi) - SumSq(N)
  {
    var J := QuatToMat(rel);
    UnitOrthogonal(rel);
    RowOfTilt(rel, axis, xi);
    SpikeOff(N, axis, k, J, xi);
  }

  lemma SpikeOff(N: Mat3, axis: Axis, k: real, J: Mat3, xi: real)
    requires Orthogonal(J) && 0.0 <= xi <= 0.0625
    requires var p := Row(J, axis); At(p, axis) == 1.0 - 2.0 * xi && Sq(p.x) + Sq(p.y) + Sq(p.z) == 1.0
    ensures Off(Conjugate(Add(N, Spike(axis, k)), J)) >= Times(Sq(k), 2.0 * xi) - SumSq(N)
  {
    var p, M := Row(J, axis), Conjugate(N, J);
    ConjugateAdd(N, Spike(axis, k), J);
    SpikeConjugate(axis, k, J);
    AddOff(M, Outer(k, p));
    OuterAtLeast(k, p, axis, xi);
    ConjugateSumSq(N, J);
    OffBelowSum(M);
  }

  lemma OuterAtLeast(k: real, p: Vec3, axis: Axis, xi: real)
    requires At(p, axis) == 1.0 - 2.0 * xi && Sq(p.x) + Sq(p.y) + Sq(p.z) == 1.0 && 0.0 <= xi <= 0.0625
    ensures 0.5 * Off(Outer(k, p)) >= Times(Sq(k), 2.0 * xi)
  {
    OuterOff(k, p);
    PairsBound(p, axis, xi);
    SqNonnegative(k);
    AtLeast(Sq(k), Pairs(Sq(p.x), Sq(p.y), Sq(p.z)), 2.0 * xi);
  }

  lemma OffBelowSum(M: Mat3)
    ensures Off(M) <= SumSq(M)
  {
    SqNonnegative(M.r0.x);
    SqNonnegative(M.r1.y);
    SqNonnegative(M.r2.z);
  }
}
