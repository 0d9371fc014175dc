/** 3x3 matrices over the reals. */
module Matrix3 {
  import opened Reals

  datatype Vec3 = Vec3(x: real, y: real, z: real)

  /** A matrix by rows: entry [i][j] is component j of row i. */
  datatype Mat3 = Mat3(r0: Vec3, r1: Vec3, r2: Vec3)

  const IDENTITY := Mat3(Vec3(1.0, 0.0, 0.0), Vec3(0.0, 1.0, 0.0), Vec3(0.0, 0.0, 1.0))

  function Dot(u: Vec3, v: Vec3): real { u.x * v.x + u.y * v.y + u.z * v.z }

  function Transpose(A: Mat3): Mat3 {
    Mat3(Vec3(A.r0.x, A.r1.x, A.r2.x), Vec3(A.r0.y, A.r1.y, A.r2.y), Vec3(A.r0.z, A.r1.z, A.r2.z))
  }

  /** The row vector v times B. */
  function RowMul(v: Vec3, B: Mat3): Vec3 {
    var T := Transpose(B);
    Vec3(Dot(v, T.r0), Dot(v, T.r1), Dot(v, T.r2))
  }

  /** B times the column vector c. */
  function ColMul(B: Mat3, c: Vec3): Vec3 { Vec3(Dot(B.r0, c), Dot(B.r1, c), Dot(B.r2, c)) }

  function Mul(A: Mat3, B: Mat3): Mat3 {
    Mat3(RowMul(A.r0, B), RowMul(A.r1, B), RowMul(A.r2, B))
  }

  predicate Symmetric(A: Mat3) { Transpose(A) == A }

  predicate Diagonal(A: Mat3) {
    A.r0.y == A.r0.z == A.r1.x == A.r1.z == A.r2.x == A.r2.y == 0.0
  }

  predicate Orthogonal(Q: Mat3) {
    Mul(Transpose(Q), Q) == IDENTITY && Mul(Q, Transpose(Q)) == IDENTITY
  }

  function Trace(A: Mat3): real { A.r0.x + A.r1.y + A.r2.z }

  function ScaleRow(k: real, u: Vec3): Vec3 { Vec3(Times(k, u.x), Times(k, u.y), Times(k, u.z)) }

  function Scale(k: real, M: Mat3): Mat3 { Mat3(ScaleRow(k, M.r0), ScaleRow(k, M.r1), ScaleRow(k, M.r2)) }

  function AddVec(u: Vec3, v: Vec3): Vec3 { Vec3(u.x + v.x, u.y + v.y, u.z + v.z) }

  function Add(M: Mat3, N: Mat3): Mat3 { Mat3(AddVec(M.r0, N.r0), AddVec(M.r1, N.r1), AddVec(M.r2, N.r2)) }

  lemma DotScale(k: real, u: Vec3, v: Vec3)
    ensures Dot(ScaleRow(k, u), v) == Times(k, Dot(u, v)) && Dot(u, ScaleRow(k, v)) == Times(k, Dot(u, v))
  {}

  /** Sum of the squares of all entries. */
  function SumSq(A: Mat3): real { Dot(A.r0, A.r0) + Dot(A.r1, A.r1) + Dot(A.r2, A.r2) }

  /** Sum of the squares of the off-diagonal entries. */
  function Off(A: Mat3): real {
    A.r0.y * A.r0.y + A.r0.z * A.r0.z + A.r1.x * A.r1.x + A.r1.z * A.r1.z + A.r2.x * A.r2.x + A.r2.y * A.r2.y
  }

  /** Q-transposed times A times Q. */
  function Conjugate(A: Mat3, Q: Mat3): Mat3 { Mul(Transpose(Q), Mul(A, Q)) }

  lemma MulAssoc(A: Mat3, B: Mat3, C: Mat3)
    ensures Mul(Mul(A, B), C) == Mul(A, Mul(B, C))
  {
    RowMulAssoc(A.r0, B, C);
    RowMulAssoc(A.r1, B, C);
    RowMulAssoc(A.r2, B, C);
  }

  lemma RowMulAssoc(v: Vec3, B: Mat3, C: Mat3)
    ensures RowMul(RowMul(v, B), C) == RowMul(v, Mul(B, C))
  {
    var T := Transpose(C);
    RowMatrixColumn(v, B, T.r0);
    RowMatrixColumn(v, B, T.r1);
    RowMatrixColumn(v, B, T.r2);
    assert Transpose(Mul(B, C)) == Mat3(ColMul(B, T.r0), ColMul(B, T.r1), ColMul(B, T.r2));
  }

  lemma RowMatrixColumn(v: Vec3, B: Mat3, c: Vec3)
    ensures Dot(RowMul(v, B), c) == Dot(v, ColMul(B, c))
  {}

  lemma DotComm(u: Vec3, v: Vec3)
    ensures Dot(u, v) == Dot(v, u)
  {}

  lemma DotNonnegative(v: Vec3)
    ensures Dot(v, v) >= 0.0
  {
    SqNonnegative(v.x);
    SqNonnegative(v.y);
    SqNonnegative(v.z);
  }

  lemma MulIdentity(A: Mat3)
    ensures Mul(A, IDENTITY) == A && Mul(IDENTITY, A) == A
  {}

  lemma TransposeMul(A: Mat3, B: Mat3)
    ensures Transpose(Mul(A, B)) == Mul(Transpose(B), Transpose(A))
  {
    var T := Transpose(B);
    DotComm(A.r0, T.r0); DotComm(A.r0, T.r1); DotComm(A.r0, T.r2);
    DotComm(A.r1, T.r0); DotComm(A.r1, T.r1); DotComm(A.r1, T.r2);
    DotComm(A.r2, T.r0); DotComm(A.r2, T.r1); DotComm(A.r2, T.r2);
    assert Transpose(Transpose(A)) == A;
  }

  /** Undoing a conjugation by an orthogonal matrix. */
  lemma ConjugateInverse(A: Mat3, Q: Mat3)
    requires Orthogonal(Q)
    ensures Mul(Mul(Q, Conjugate(A, Q)), Transpose(Q)) == A
  {
    var T := Transpose(Q);
    calc {
      Mul(Mul(Q, Mul(T, Mul(A, Q))), T);
    == { MulAssoc(Q, T, Mul(A, Q)); }
      Mul(Mul(Mul(Q, T), Mul(A, Q)), T);
    == { MulIdentity(Mul(A, Q)); }
      Mul(Mul(A, Q), T);
    == { MulAssoc(A, Q, T); }
      Mul(A, Mul(Q, T));
    == { MulIdentity(A); }
      A;
    }
  }

  lemma ConjugateSymmetric(A: Mat3, Q: Mat3)
    requires Symmetric(A)
    ensures Symmetric(Conjugate(A, Q))
  {
    var T := Transpose(Q);
    TransposeMul(T, Mul(A, Q));
    TransposeMul(A, Q);
    MulAssoc(T, A, Q);
  }

  lemma ConjugateMul(A: Mat3, P: Mat3, Q: Mat3)
    ensures Conjugate(A, Mul(P, Q)) == Conjugate(Conjugate(A, P), Q)
  {
    var S, T := Transpose(P), Transpose(Q);
    calc {
      Conjugate(A, Mul(P, Q));
    == { TransposeMul(P, Q); }
      Mul(Mul(T, S), Mul(A, Mul(P, Q)));
    == { MulAssoc(A, P, Q); MulAssoc(T, S, Mul(Mul(A, P), Q)); }
      Mul(T, Mul(S, Mul(Mul(A, P), Q)));
    == { MulAssoc(S, Mul(A, P), Q); }
      Conjugate(Conjugate(A, P), Q);
    }
  }

  lemma TraceCyclic(A: Mat3, B: Mat3)
    ensures Trace(Mul(A, B)) == Trace(Mul(B, A))
  {}

  lemma SumSqIsTrace(A: Mat3)
    ensures SumSq(A) == Trace(Mul(Transpose(A), A))
  {}

  lemma ConjugateTrace(A: Mat3, Q: Mat3)
    requires Orthogonal(Q)
    ensures Trace(Conjugate(A, Q)) == Trace(A)
  {
    var T := Transpose(Q);
    TraceCyclic(T, Mul(A, Q));
    MulAssoc(A, Q, T);
    MulIdentity(A);
  }

  /** An orthogonal change of basis keeps the sum of squares. */
  lemma ConjugateSumSq(A: Mat3, Q: Mat3)
    requires Orthogonal(Q)
    ensures SumSq(Conjugate(A, Q)) == SumSq(A)
  {
    var T := Transpose(Q);
    var D := Conjugate(A, Q);
    calc {
      Mul(Transpose(D), D);
    == { TransposeMul(T, Mul(A, Q)); }
      Mul(Mul(Transpose(Mul(A, Q)), Q), Mul(T, Mul(A, Q)));
    == { MulAssoc(Transpose(Mul(A, Q)), Q, Mul(T, Mul(A, Q))); MulAssoc(Q, T, Mul(A, Q)); MulIdentity(Mul(A, Q)); }
      Mul(Transpose(Mul(A, Q)), Mul(A, Q));
    == { TransposeMul(A, Q); MulAssoc(T, Transpose(A), Mul(A, Q)); MulAssoc(Transpose(A), A, Q); }
      Conjugate(Mul(Transpose(A), A), Q);
    }
    ConjugateTrace(Mul(Transpose(A), A), Q);
    SumSqIsTrace(D);
    SumSqIsTrace(A);
  }
}
