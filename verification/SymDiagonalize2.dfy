/** sym_diagonalize for 2x2 matrices: the closed form. */
module SymDiagonalize2 {
  import opened Reals

  datatype Vec2 = Vec2(x: real, y: real)

  datatype Mat2 = Mat2(r0: Vec2, r1: Vec2)

  const IDENTITY2 := Mat2(Vec2(1.0, 0.0), Vec2(0.0, 1.0))

  function Dot2(u: Vec2, v: Vec2): real { u.x * v.x + u.y * v.y }

  function Transpose2(A: Mat2): Mat2 { Mat2(Vec2(A.r0.x, A.r1.x), Vec2(A.r0.y, A.r1.y)) }

  function RowMul2(v: Vec2, B: Mat2): Vec2 {
    var T := Transpose2(B);
    Vec2(Dot2(v, T.r0), Dot2(v, T.r1))
  }

  function Mul2(A: Mat2, B: Mat2): Mat2 { Mat2(RowMul2(A.r0, B), RowMul2(A.r1, B)) }

  predicate Symmetric2(A: Mat2) { A.r0.y == A.r1.x }

  predicate Orthogonal2(Q: Mat2) {
    Mul2(Transpose2(Q), Q) == IDENTITY2 == Mul2(Q, Transpose2(Q))
  }

  predicate Diagonal2(D: Mat2) { D.r0.y == 0.0 == D.r1.x }

  lemma MulAssoc2(A: Mat2, B: Mat2, C: Mat2)
    ensures Mul2(Mul2(A, B), C) == Mul2(A, Mul2(B, C))
  {
    var T := Transpose2(C);
    RowColumn2(A.r0, B, T.r0); RowColumn2(A.r0, B, T.r1);
    RowColumn2(A.r1, B, T.r0); RowColumn2(A.r1, B, T.r1);
    assert Transpose2(Mul2(B, C)) == Mat2(ColMul2(B, T.r0), ColMul2(B, T.r1));
  }

  function ColMul2(B: Mat2, c: Vec2): Vec2 { Vec2(Dot2(B.r0, c), Dot2(B.r1, c)) }

  lemma RowColumn2(v: Vec2, B: Mat2, c: Vec2)
    ensures Dot2(RowMul2(v, B), c) == Dot2(v, ColMul2(B, c))
  {}

  // ----- the closed form

  /** The discriminant is a sum of squares, so its root is defined for every symmetric matrix. It is zero exactly for a
      multiple of the unit matrix. */
  lemma Discriminant(a: real, b: real, d: real)
    ensures (a + d) * (a + d) / 4.0 - (a * d - b * b) == Sq((a - d) / 2.0) + Sq(b)
    ensures (a + d) * (a + d) / 4.0 - (a * d - b * b) >= 0.0
    ensures (a + d) * (a + d) / 4.0 - (a * d - b * b) == 0.0 <==> a == d && b == 0.0
  {
    assert Sq((a - d) / 2.0) >= 0.0 && Sq(b) >= 0.0;
    if a != d { SquarePositive((a - d) / 2.0, Sq((a - d) / 2.0)); }
    if b != 0.0 { SquarePositive(b, Sq(b)); }
  }

  /** The eigenvalues solve the characteristic equation and add up to the trace. */
  lemma Eigenvalues(a: real, b: real, d: real, s: real, l1: real, l2: real)
    requires s * s == (a + d) * (a + d) / 4.0 - (a * d - b * b)
    requires l1 == (a + d) / 2.0 + s && l2 == (a + d) / 2.0 - s
    ensures (a - l1) * (d - l1) == b * b && (a - l2) * (d - l2) == b * b && l1 + l2 == a + d
  {}

  /** Two orthonormal columns also have orthonormal rows. */
  lemma ColumnsToRows(u: Vec2, v: Vec2)
    requires Dot2(u, u) == 1.0 && Dot2(v, v) == 1.0 && Dot2(u, v) == 0.0
    ensures u.x * u.x + v.x * v.x == 1.0 && u.y * u.y + v.y * v.y == 1.0 && u.x * u.y + v.x * v.y == 0.0
  {
    OrthonormalRows(u.x, u.y, v.x, v.y, u.x * v.y - u.y * v.x);
  }

  lemma OrthonormalRows(a: real, b: real, c: real, d: real, s: real)
    requires a * a + b * b == 1.0 && c * c + d * d == 1.0 && a * c + b * d == 0.0 && s == a * d - b * c
    ensures a * a + c * c == 1.0 && b * b + d * d == 1.0 && a * b + c * d == 0.0
  {
    assert s * a == d by { assert s * a == d * (a * a + b * b) - b * (a * c + b * d); }
    assert -s * b == c by { assert -s * b == c * (a * a + b * b) - a * (a * c + b * d); }
    assert s * s == 1.0 by { assert s * s == (a * a + b * b) * (c * c + d * d) - (a * c + b * d) * (a * c + b * d); }
    assert c * c == s * s * (b * b) && d * d == s * s * (a * a) && c * d == -(s * s) * (a * b);
  }

  /** Scaling a non-zero vector by the inverse of its length. */
  lemma UnitVector(x: real, y: real, n: real)
    requires n > 0.0 && n * n == x * x + y * y
    ensures Dot2(Vec2(x / n, y / n), Vec2(x / n, y / n)) == 1.0
  {
    var k := 1.0 / n;
    assert k * n == 1.0;
    assert x / n == k * x && y / n == k * y;
    UnitScaled(x, y, n, k);
  }

  lemma UnitScaled(x: real, y: real, n: real, k: real)
    requires k * n == 1.0 && n * n == x * x + y * y
    ensures (k * x) * (k * x) + (k * y) * (k * y) == 1.0
  {
    assert (k * x) * (k * x) + (k * y) * (k * y) == (k * n) * (k * n);
  }

  /** The two columns as the source computes them, before normalisation. */
  lemma EigenvectorsOrthogonal(a: real, b: real, d: real, l1: real, l2: real)
    requires l1 + l2 == a + d
    ensures (-b) * (-d + l2) + (a - l1) * b == 0.0
  {}

  /** A column scaled by k is still an eigenvector. */
  lemma ScaledEigenvector(a: real, b: real, d: real, l: real, x: real, y: real, k: real)
    requires a * x + b * y == l * x && b * x + d * y == l * y
    ensures a * (k * x) + b * (k * y) == l * (k * x) && b * (k * x) + d * (k * y) == l * (k * y)
  {
    assert a * (k * x) + b * (k * y) == k * (a * x + b * y);
    assert b * (k * x) + d * (k * y) == k * (b * x + d * y);
  }

  /** A Q == Q D with Q orthogonal gives back A. */
  lemma FromEigenvectors(A: Mat2, Q: Mat2, D: Mat2)
    requires Orthogonal2(Q) && Mul2(A, Q) == Mul2(Q, D)
    ensures Mul2(Mul2(Q, D), Transpose2(Q)) == A
  {
    MulAssoc2(A, Q, Transpose2(Q));
    IdentityRight(A);
  }

  lemma IdentityRight(A: Mat2)
    ensures Mul2(A, IDENTITY2) == A
  {}

  /** A decomposition: Q orthogonal, D diagonal, Q D Q-transposed == A. */
  ghost predicate Decomposes(A: Mat2, Q: Mat2, D: Mat2) {
    Orthogonal2(Q) && Diagonal2(D) && Mul2(Mul2(Q, D), Transpose2(Q)) == A
  }

  lemma ColumnsDecompose(A: Mat2, u: Vec2, v: Vec2, l1: real, l2: real)
    requires Symmetric2(A)
    requires Dot2(u, u) == 1.0 && Dot2(v, v) == 1.0 && Dot2(u, v) == 0.0
    requires ColMul2(A, u) == Vec2(l1 * u.x, l1 * u.y) && ColMul2(A, v) == Vec2(l2 * v.x, l2 * v.y)
    ensures Decomposes(A, Mat2(Vec2(u.x, v.x), Vec2(u.y, v.y)), Mat2(Vec2(l1, 0.0), Vec2(0.0, l2)))
  {
    ColumnsToRows(u, v);
    var Q, D := Mat2(Vec2(u.x, v.x), Vec2(u.y, v.y)), Mat2(Vec2(l1, 0.0), Vec2(0.0, l2));
    assert Transpose2(Q) == Mat2(u, v);
    assert Dot2(v, u) == 0.0;
    assert Orthogonal2(Q);
    assert Mul2(A, Q) == Mul2(Q, D);
    FromEigenvectors(A, Q, D);
  }

  // ----- the method

  ghost predicate Is2x2(M: array2<real>) { M.Length0 == 2 && M.Length1 == 2 }

  function View2(M: array2<real>): Mat2
    requires Is2x2(M)
    reads M
  {
    Mat2(Vec2(M[0, 0], M[0, 1]), Vec2(M[1, 0], M[1, 1]))
  }

  /** One normalised column: (x, y) over its length. The source divides before it looks at the off-diagonal entry and
      discards the quotient when that entry is 0; here the division is only made when it is not. */
  method NormalisedColumn(A: Mat2, l: real, x: real, y: real, sqrt: real -> real) returns (u: Vec2, ghost k: real)
    requires IsSqrt(sqrt) && Symmetric2(A) && (x != 0.0 || y != 0.0)
    requires A.r0.x * x + A.r0.y * y == l * x && A.r0.y * x + A.r1.y * y == l * y
    ensures Dot2(u, u) == 1.0 && u == Scaled(k, x, y) && k > 0.0
    ensures ColMul2(A, u) == Vec2(l * u.x, l * u.y)
  {
    LengthOf(x, y, sqrt);
    var norm := sqrt(x * x + y * y);
    u := Vec2(x / norm, y / norm);
    UnitVector(x, y, norm);
    k := 1.0 / norm;
    assert x / norm == k * x && y / norm == k * y;
    ScaledEigenvector(A.r0.x, A.r0.y, A.r1.y, l, x, y, k);
  }

  function Scaled(k: real, x: real, y: real): Vec2 { Vec2(k * x, k * y) }

  lemma LengthOf(x: real, y: real, sqrt: real -> real)
    requires IsSqrt(sqrt) && (x != 0.0 || y != 0.0)
    ensures var n := sqrt(x * x + y * y); n > 0.0 && n * n == x * x + y * y
  {
    if x != 0.0 { SquarePositive(x, x * x); } else { SquarePositive(y, y * y); }
    var n := x * x + y * y;
    assert n > 0.0;
    assert Root(sqrt(n), n);
  }

  /** The branch with a non-zero off-diagonal entry. */
  method ClosedForm(A: Mat2, sqrt: real -> real) returns (l1: real, l2: real, u: Vec2, v: Vec2)
    requires IsSqrt(sqrt) && Symmetric2(A) && A.r1.x != 0.0
    ensures l1 > l2 && Decomposes(A, Mat2(Vec2(u.x, v.x), Vec2(u.y, v.y)), Mat2(Vec2(l1, 0.0), Vec2(0.0, l2)))
    ensures u.x * A.r1.x < 0.0 < v.y * A.r1.x
  {
    var a, b, d := A.r0.x, A.r0.y, A.r1.y;
    var trace, det := a + d, a * d - b * b;
    Discriminant(a, b, d);
    var s := sqrt(trace * trace / 4.0 - det);
    assert Root(s, trace * trace / 4.0 - det);
    l1, l2 := trace / 2.0 + s, trace / 2.0 - s;
    Eigenvalues(a, b, d, s, l1, l2);
    RootPositive(a, b, d, s);
    ghost var j, k;
    u, j := NormalisedColumn(A, l1, -b, a - l1, sqrt);
    v, k := NormalisedColumn(A, l2, -d + l2, b, sqrt);
    ColumnsFit(A, l1, l2, u, v, j, k);
  }

  lemma ColumnsFit(A: Mat2, l1: real, l2: real, u: Vec2, v: Vec2, j: real, k: real)
    requires Symmetric2(A) && A.r1.x != 0.0 && l1 + l2 == A.r0.x + A.r1.y && j > 0.0 && k > 0.0
    requires u == Scaled(j, -A.r0.y, A.r0.x - l1) && v == Scaled(k, -A.r1.y + l2, A.r0.y)
    requires Dot2(u, u) == 1.0 && ColMul2(A, u) == Vec2(l1 * u.x, l1 * u.y)
    requires Dot2(v, v) == 1.0 && ColMul2(A, v) == Vec2(l2 * v.x, l2 * v.y)
    ensures Decomposes(A, Mat2(Vec2(u.x, v.x), Vec2(u.y, v.y)), Mat2(Vec2(l1, 0.0), Vec2(0.0, l2)))
    ensures u.x * A.r1.x < 0.0 < v.y * A.r1.x
  {
    var a, b, d := A.r0.x, A.r0.y, A.r1.y;
    EigenvectorsOrthogonal(a, b, d, l1, l2);
    ScaledOrthogonal(u, v, -b, a - l1, -d + l2, b, j, k);
    ColumnSigns(b, j, k, u.x, v.y);
    ColumnsDecompose(A, u, v, l1, l2);
  }

  method SymDiagonalize2(A: array2<real>, Q: array2<real>, D: array2<real>, sqrt: real -> real)
    requires Is2x2(A) && Is2x2(Q) && Is2x2(D) && Q != A && D != A && D != Q
    requires Symmetric2(View2(A)) && IsSqrt(sqrt)
    modifies Q, D
    ensures Decomposes(View2(A), View2(Q), View2(D))
    ensures View2(A).r1.x != 0.0 ==> View2(D).r0.x > View2(D).r1.y
    ensures View2(A).r1.x != 0.0 ==> View2(Q).r0.x * View2(A).r1.x < 0.0 < View2(Q).r1.y * View2(A).r1.x
    ensures View2(A).r1.x == 0.0 ==> View2(Q) == IDENTITY2 && View2(D) == View2(A)
  {
    ghost var m := View2(A);
    if A[1, 0] == 0.0 {
      D[0, 0], D[1, 1], D[0, 1], D[1, 0] := A[0, 0], A[1, 1], 0.0, 0.0;
      Q[0, 0], Q[0, 1], Q[1, 0], Q[1, 1] := 1.0, 0.0, 0.0, 1.0;
      assert View2(A) == m && View2(Q) == IDENTITY2 && View2(D) == m;
      AlreadyDiagonal(m);
    } else {
      var l1, l2, u, v := ClosedForm(View2(A), sqrt);
      D[0, 0], D[1, 1], D[0, 1], D[1, 0] := l1, l2, 0.0, 0.0;
      Q[0, 0], Q[1, 0], Q[0, 1], Q[1, 1] := u.x, u.y, v.x, v.y;
      assert View2(A) == m && View2(Q) == Mat2(Vec2(u.x, v.x), Vec2(u.y, v.y));
    }
  }

  lemma AlreadyDiagonal(A: Mat2)
    requires Diagonal2(A)
    ensures Decomposes(A, IDENTITY2, A)
  {
    IdentityOrthogonal();
    IdentityLeft(A);
    IdentityRight(A);
  }

  lemma IdentityOrthogonal()
    ensures Orthogonal2(IDENTITY2) && Transpose2(IDENTITY2) == IDENTITY2
  {}

  lemma IdentityLeft(A: Mat2)
    ensures Mul2(IDENTITY2, A) == A
  {}

  lemma RootPositive(a: real, b: real, d: real, s: real)
    requires b != 0.0 && s >= 0.0 && s * s == (a + d) * (a + d) / 4.0 - (a * d - b * b)
    ensures s > 0.0
  {
    Discriminant(a, b, d);
    SquarePositive(b, Sq(b));
    assert Sq((a - d) / 2.0) >= 0.0;
  }

  lemma ScaledOrthogonal(u: Vec2, v: Vec2, x: real, y: real, z: real, w: real, j: real, k: real)
    requires u == Scaled(j, x, y) && v == Scaled(k, z, w) && x * z + y * w == 0.0
    ensures Dot2(u, v) == 0.0
  {
    ProductOfScaled(j, k, x, y, z, w);
  }

  /** The signs the columns are given. */
  lemma ColumnSigns(b: real, j: real, k: real, x: real, y: real)
    requires b != 0.0 && j > 0.0 && k > 0.0 && x == j * -b && y == k * b
    ensures x * b < 0.0 < y * b
  {
    SquarePositive(b, b * b);
    MulPositive(j, b * b);
    MulPositive(k, b * b);
    assert x * b == -(j * (b * b)) && y * b == k * (b * b);
  }

  lemma ProductOfScaled(j: real, k: real, x: real, y: real, z: real, w: real)
    ensures (j * x) * (k * z) + (j * y) * (k * w) == j * k * (x * z + y * w)
  {}
}
