/** matrix_matrix_multiply and reconstruct_matrix_from_decomposition, for 2x2 and 3x3 matrices alike. */
module Reconstruction {
  import opened Reals
  import opened Matrix3
  import opened Quaternion
  import opened JacobiStep
  import opened SymDiagonalize3
  import SymDiagonalize2

  ghost predicate Square(M: array2<real>, n: nat) { M.Length0 == n && M.Length1 == n }

  /** The first k terms of row i of A against column j of B. */
  function SumTo(A: array2<real>, B: array2<real>, i: nat, j: nat, k: nat): real
    requires i < A.Length0 && j < B.Length1 && k <= A.Length1 && k <= B.Length0
    reads A, B
  {
    if k == 0 then 0.0 else SumTo(A, B, i, j, k - 1) + Times(A[i, k - 1], B[k - 1, j])
  }

  method MatrixMultiply(A: array2<real>, B: array2<real>, C: array2<real>, n: nat)
    requires Square(A, n) && Square(B, n) && Square(C, n) && C != A && C != B
    modifies C
    ensures forall i, j :: 0 <= i < n && 0 <= j < n ==> C[i, j] == SumTo(A, B, i, j, n)
  {
    for i := 0 to n
      invariant forall r, c :: 0 <= r < i && 0 <= c < n ==> C[r, c] == SumTo(A, B, r, c, n)
    {
      for j := 0 to n
        invariant forall r, c :: 0 <= r < i && 0 <= c < n ==> C[r, c] == SumTo(A, B, r, c, n)
        invariant forall c :: 0 <= c < j ==> C[i, c] == SumTo(A, B, i, c, n)
      {
        var sum := 0.0;
        for k := 0 to n
          invariant sum == SumTo(A, B, i, j, k)
        {
          sum := sum + A[i, k] * B[k, j];
        }
        C[i, j] := sum;
      }
    }
  }

  lemma ThreeTerms(A: array2<real>, B: array2<real>, i: nat, j: nat)
    requires Square(A, 3) && Square(B, 3) && i < 3 && j < 3
    ensures SumTo(A, B, i, j, 3) == Dot(Vec3(A[i, 0], A[i, 1], A[i, 2]), Vec3(B[0, j], B[1, j], B[2, j]))
  {
    assert SumTo(A, B, i, j, 2) == SumTo(A, B, i, j, 1) + Times(A[i, 1], B[1, j]);
    assert SumTo(A, B, i, j, 1) == Times(A[i, 0], B[0, j]);
  }

  lemma ProductView(A: array2<real>, B: array2<real>, C: array2<real>)
    requires Square(A, 3) && Square(B, 3) && Square(C, 3)
    requires forall i, j :: 0 <= i < 3 && 0 <= j < 3 ==> C[i, j] == SumTo(A, B, i, j, 3)
    ensures View(C) == Mul(View(A), View(B))
  {
    ThreeTerms(A, B, 0, 0); ThreeTerms(A, B, 0, 1); ThreeTerms(A, B, 0, 2);
    ThreeTerms(A, B, 1, 0); ThreeTerms(A, B, 1, 1); ThreeTerms(A, B, 1, 2);
    ThreeTerms(A, B, 2, 0); ThreeTerms(A, B, 2, 1); ThreeTerms(A, B, 2, 2);
  }

  lemma TwoTerms(A: array2<real>, B: array2<real>, i: nat, j: nat)
    requires Square(A, 2) && Square(B, 2) && i < 2 && j < 2
    ensures SumTo(A, B, i, j, 2)
         == SymDiagonalize2.Dot2(SymDiagonalize2.Vec2(A[i, 0], A[i, 1]), SymDiagonalize2.Vec2(B[0, j], B[1, j]))
  {
    assert SumTo(A, B, i, j, 1) == A[i, 0] * B[0, j];
  }

  lemma ProductView2(A: array2<real>, B: array2<real>, C: array2<real>)
    requires Square(A, 2) && Square(B, 2) && Square(C, 2)
    requires forall i, j :: 0 <= i < 2 && 0 <= j < 2 ==> C[i, j] == SumTo(A, B, i, j, 2)
    ensures SymDiagonalize2.View2(C) == SymDiagonalize2.Mul2(SymDiagonalize2.View2(A), SymDiagonalize2.View2(B))
  {
    TwoTerms(A, B, 0, 0); TwoTerms(A, B, 0, 1); TwoTerms(A, B, 1, 0); TwoTerms(A, B, 1, 1);
  }

  /** A = (Q * D) * QT through two scratch matrices. */
  method Reconstruct(D: array2<real>, Q: array2<real>, A: array2<real>, n: nat)
    requires Square(D, n) && Square(Q, n) && Square(A, n) && A != D && A != Q && (n == 2 || n == 3)
    modifies A
    ensures n == 3 ==> View(A) == Mul(Mul(View(Q), View(D)), Transpose(View(Q)))
    ensures n == 2 ==> SymDiagonalize2.View2(A) == SymDiagonalize2.Mul2(
      SymDiagonalize2.Mul2(SymDiagonalize2.View2(Q), SymDiagonalize2.View2(D)),
      SymDiagonalize2.Transpose2(SymDiagonalize2.View2(Q)))
  {
    var QT := new real[n, n];
    var B := new real[n, n];
    for i := 0 to n
      invariant forall r, c :: 0 <= r < i && 0 <= c < n ==> QT[c, r] == Q[r, c]
    {
      for j := 0 to n
        invariant forall r, c :: 0 <= r < i && 0 <= c < n ==> QT[c, r] == Q[r, c]
        invariant forall c :: 0 <= c < j ==> QT[c, i] == Q[i, c]
      {
        QT[j, i] := Q[i, j];
      }
    }
    MatrixMultiply(Q, D, B, n);
    if n == 3 { ProductView(Q, D, B); } else { ProductView2(Q, D, B); }
    MatrixMultiply(B, QT, A, n);
    if n == 3 { ProductView(B, QT, A); } else { ProductView2(B, QT, A); }
  }

  /** Decomposing a symmetric 3x3 matrix and putting it together again gives the matrix back, whether or not the
      diagonaliser got D diagonal. */
  method DecomposeAndReconstruct(A: array2<real>, R: array2<real>, sqrt: real -> real)
    requires Is3x3(A) && Is3x3(R) && R != A && Symmetric(View(A)) && IsSqrt(sqrt)
    modifies R
    ensures View(R) == View(A)
  {
    var Q, D := new real[3, 3], new real[3, 3];
    SymDiagonalize(A, Q, D, sqrt);
    Reconstruct(D, Q, R, 3);
    FinalExact(View(A), sqrt);
  }

  ghost predicate Rebuilds(A: SymDiagonalize2.Mat2, Q: SymDiagonalize2.Mat2, D: SymDiagonalize2.Mat2) {
    SymDiagonalize2.Mul2(SymDiagonalize2.Mul2(Q, D), SymDiagonalize2.Transpose2(Q)) == A
  }

  method Decompose2(A: array2<real>, Q: array2<real>, D: array2<real>, sqrt: real -> real)
    requires SymDiagonalize2.Is2x2(A) && SymDiagonalize2.Is2x2(Q) && SymDiagonalize2.Is2x2(D) && Q != A && D != A
    requires D != Q
    requires SymDiagonalize2.Symmetric2(SymDiagonalize2.View2(A)) && IsSqrt(sqrt)
    modifies Q, D
    ensures Rebuilds(SymDiagonalize2.View2(A), SymDiagonalize2.View2(Q), SymDiagonalize2.View2(D))
  {
    SymDiagonalize2.SymDiagonalize2(A, Q, D, sqrt);
  }

  /** The same for 2x2 matrices. */
  method DecomposeAndReconstruct2(A: array2<real>, R: array2<real>, sqrt: real -> real)
    requires SymDiagonalize2.Is2x2(A) && SymDiagonalize2.Is2x2(R) && R != A
    requires SymDiagonalize2.Symmetric2(SymDiagonalize2.View2(A)) && IsSqrt(sqrt)
    modifies R
    ensures SymDiagonalize2.View2(R) == SymDiagonalize2.View2(A)
  {
    var Q, D := new real[2, 2], new real[2, 2];
    Decompose2(A, Q, D, sqrt);
    Reconstruct(D, Q, R, 2);
  }

  /** unsym_matrix_force_sym: symmetrise A in place, then diagonalise it. */
  method UnsymForceSym(A: array2<real>, Q: array2<real>, D: array2<real>, sqrt: real -> real)
    requires Is3x3(A) && Is3x3(Q) && Is3x3(D) && Q != A && D != A && D != Q && IsSqrt(sqrt)
    modifies A, Q, D
    ensures forall i, j :: 0 <= i < 3 && 0 <= j < 3 ==> A[i, j] == (old(A[i, j]) + old(A[j, i])) / 2.0
    ensures Symmetric(View(A))
    ensures View(Q) == QuatToMat(Final(View(A), sqrt))
    ensures View(D) == Rotated(View(A), Final(View(A), sqrt))
  {
    for i := 0 to 3
      invariant forall r, c :: 0 <= r < 3 && 0 <= c < 3 ==>
        A[r, c] == if r < i || c < i then (old(A[r, c]) + old(A[c, r])) / 2.0 else old(A[r, c])
    {
      for j := i to 3
        invariant forall r, c :: 0 <= r < 3 && 0 <= c < 3 ==>
          A[r, c] == if r < i || c < i || (r == i && c < j) || (c == i && r < j)
            then (old(A[r, c]) + old(A[c, r])) / 2.0 else old(A[r, c])
      {
        A[i, j] := (A[i, j] + A[j, i]) / 2.0;
        A[j, i] := A[i, j];
      }
    }
    SymDiagonalize(A, Q, D, sqrt);
  }
}
