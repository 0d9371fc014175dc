/** Exactly when a realisable stress stays realisable under every weight: conditions on the entries of D and, for ties
    and for stresses that couple two directions only, on the entries of b. */
module CornerConditions {
  import opened Reals
  import opened Matrix3
  import opened Quaternion
  import opened JacobiStep
  import opened SymDiagonalize3
  import opened DiagonaliseResults
  import opened CoupledResults
  import opened CoupledRate
  import opened StressPerturbation
  import opened Realisability

  // ----- forms in three variables

  function Form(a: real, b: real, c: real, p: real, q: real, r: real, x: real, y: real, z: real): real {
    Times(a, Sq(x)) + Times(b, Sq(y)) + Times(c, Sq(z))
      + 2.0 * Times(p, x * y) + 2.0 * Times(q, x * z) + 2.0 * Times(r, y * z)
  }

  ghost predicate FormPositive(a: real, b: real, c: real, p: real, q: real, r: real) {
    forall x: real, y: real, z: real :: Form(a, b, c, p, q, r, x, y, z) >= 0.0
  }

  lemma PositiveForm(M: Mat3)
    requires Symmetric(M)
    ensures PositiveSemidefinite(M) <==> FormPositive(M.r0.x, M.r1.y, M.r2.z, M.r0.y, M.r0.z, M.r1.z)
  {
    if PositiveSemidefinite(M) {
      forall x: real, y: real, z: real
        ensures Form(M.r0.x, M.r1.y, M.r2.z, M.r0.y, M.r0.z, M.r1.z, x, y, z) >= 0.0
      {
        assert Quad(M, Vec3(x, y, z)) >= 0.0;
        QuadEntries(M, Vec3(x, y, z));
      }
    } else {
      var v: Vec3 :| Quad(M, v) < 0.0;
      QuadEntries(M, v);
      assert Form(M.r0.x, M.r1.y, M.r2.z, M.r0.y, M.r0.z, M.r1.z, v.x, v.y, v.z) < 0.0;
    }
  }

  /** The variables can be taken in any order. */
  lemma SwapFirst(a: real, b: real, c: real, p: real, q: real, r: real)
    ensures FormPositive(a, b, c, p, q, r) <==> FormPositive(b, a, c, p, r, q)
  {
    forall x: real, y: real, z: real
      ensures Form(a, b, c, p, q, r, x, y, z) == Form(b, a, c, p, r, q, y, x, z)
    {}
  }

  lemma SwapLast(a: real, b: real, c: real, p: real, q: real, r: real)
    ensures FormPositive(a, b, c, p, q, r) <==> FormPositive(a, c, b, q, p, r)
  {
    forall x: real, y: real, z: real
      ensures Form(a, b, c, p, q, r, x, y, z) == Form(a, c, b, q, p, r, x, z, y)
    {}
  }

  /** A zero on the diagonal clears its row. */
  lemma ZeroClears(a: real, b: real, c: real, p: real, q: real, r: real)
    requires FormPositive(a, b, c, p, q, r) && c == 0.0 && a >= 0.0 && b >= 0.0
    ensures q == 0.0 && r == 0.0
  {
    assert Form(a, b, c, p, q, r, q, 0.0, -(a + 1.0)) >= 0.0;
    assert Form(a, b, c, p, q, r, 0.0, r, -(b + 1.0)) >= 0.0;
    ClearedEntry(a, q, Form(a, b, c, p, q, r, q, 0.0, -(a + 1.0)));
    ClearedEntry(b, r, Form(a, b, c, p, q, r, 0.0, r, -(b + 1.0)));
  }

  lemma ClearedEntry(a: real, q: real, form: real)
    requires a >= 0.0 && form >= 0.0 && form == Times(a, Sq(q)) + 2.0 * Times(q, q * -(a + 1.0))
    ensures q == 0.0
  {
    assert form == -(Sq(q) * (a + 2.0));
    if q != 0.0 {
      SquarePositive(q, Sq(q));
      MulPositive(Sq(q), a + 2.0);
    }
  }

  // ----- the first corner: 1, 0, 0

  lemma FirstForm(a: real, b: real, c: real, p: real, q: real, r: real)
    requires a == 1.0 && b == 0.0 && c == 0.0
    ensures FormPositive(a, b, c, p, q, r) <==> p == 0.0 && q == 0.0 && r == 0.0
  {
    if FormPositive(a, b, c, p, q, r) {
      ZeroClears(a, b, c, p, q, r);
      SwapLast(a, b, c, p, q, r);
      ZeroClears(a, c, b, q, p, r);
    }
    if p == 0.0 && q == 0.0 && r == 0.0 {
      forall x: real, y: real, z: real ensures Form(a, b, c, p, q, r, x, y, z) >= 0.0 {
        SqNonnegative(x);
      }
    }
  }

  // ----- the second corner: 1/2, 1/2, 0

  lemma SecondForm(a: real, b: real, c: real, p: real, q: real, r: real)
    requires a == 0.5 && b == 0.5 && c == 0.0
    ensures FormPositive(a, b, c, p, q, r) <==> Abs(p) <= 0.5 && q == 0.0 && r == 0.0
  {
    if FormPositive(a, b, c, p, q, r) {
      ZeroClears(a, b, c, p, q, r);
      assert Form(a, b, c, p, q, r, 1.0, 1.0, 0.0) >= 0.0;
      assert Form(a, b, c, p, q, r, 1.0, -1.0, 0.0) >= 0.0;
    }
    if Abs(p) <= 0.5 && q == 0.0 && r == 0.0 {
      forall x: real, y: real, z: real ensures Form(a, b, c, p, q, r, x, y, z) >= 0.0 {
        DominantQuad(a, b, c, p, q, r, x, y, z);
      }
    }
  }

  // ----- the third corner: 1/3, 1/3, 1/3

  /** The determinant of the matrix with k on the diagonal and p, q, r beside it. */
  function Determinant(k: real, p: real, q: real, r: real): real {
    k * k * k + 2.0 * p * q * r - k * (p * p + q * q + r * r)
  }

  lemma ThirdForm(k: real, p: real, q: real, r: real)
    requires k > 0.0
    ensures FormPositive(k, k, k, p, q, r) <==>
      Abs(p) <= k && Abs(q) <= k && Abs(r) <= k && Determinant(k, p, q, r) >= 0.0
  {
    if FormPositive(k, k, k, p, q, r) {
      PairBound(k, p, q, r);
      SwapLast(k, k, k, p, q, r);
      PairBound(k, q, p, r);
      SwapFirst(k, k, k, q, p, r);
      SwapLast(k, k, k, q, r, p);
      PairBound(k, r, q, p);
      DeterminantNeeded(k, p, q, r);
    }
    if Abs(p) <= k && Abs(q) <= k && Abs(r) <= k && Determinant(k, p, q, r) >= 0.0 {
      forall x: real, y: real, z: real ensures Form(k, k, k, p, q, r, x, y, z) >= 0.0 {
        CompletedPositive(k, p, q, r, x, y, z);
      }
    }
  }

  lemma PairBound(k: real, p: real, q: real, r: real)
    requires FormPositive(k, k, k, p, q, r)
    ensures Abs(p) <= k
  {
    assert Form(k, k, k, p, q, r, 1.0, 1.0, 0.0) >= 0.0;
    assert Form(k, k, k, p, q, r, 1.0, -1.0, 0.0) >= 0.0;
  }

  /** Completing the square: k times the form is a square and a form in the other two variables. */
  lemma Completed(k: real, p: real, q: real, r: real, x: real, y: real, z: real, A: real, B: real, C: real)
    requires A == k * k - p * p && C == k * k - q * q && B == k * r - p * q
    ensures k * Form(k, k, k, p, q, r, x, y, z)
         == Sq(k * x + p * y + q * z) + (A * y * y + C * z * z + 2.0 * B * y * z)
  {}

  lemma MinorIs(k: real, p: real, q: real, r: real, A: real, B: real, C: real)
    requires A == k * k - p * p && C == k * k - q * q && B == k * r - p * q
    ensures A * C - B * B == k * Determinant(k, p, q, r)
  {}

  lemma SquareGap(k: real, p: real)
    requires Abs(p) <= k
    ensures k * k - p * p >= 0.0
  {
    SquareOrder(Abs(p), k);
  }

  lemma TwoPositive(A: real, B: real, C: real, y: real, z: real)
    requires A >= 0.0 && C >= 0.0 && A * C - B * B >= 0.0
    ensures A * y * y + C * z * z + 2.0 * B * y * z >= 0.0
  {
    if A == 0.0 {
      NoCross(A, B, C);
      SqNonnegative(z);
      MulNonnegative(C, Sq(z));
    } else {
      SqNonnegative(z);
      SqNonnegative(A * y + B * z);
      MulNonnegative(A * C - B * B, Sq(z));
      TwoCompleted(A, B, C, y, z);
      CancelOrder(A, 0.0, A * y * y + C * z * z + 2.0 * B * y * z);
    }
  }

  lemma NoCross(A: real, B: real, C: real)
    requires A == 0.0 && A * C - B * B >= 0.0
    ensures B == 0.0
  {
    if B != 0.0 { SquarePositive(B, B * B); }
  }

  lemma TwoCompleted(A: real, B: real, C: real, y: real, z: real)
    ensures A * (A * y * y + C * z * z + 2.0 * B * y * z) == Sq(A * y + B * z) + (A * C - B * B) * Sq(z)
  {}

  lemma CompletedPositive(k: real, p: real, q: real, r: real, x: real, y: real, z: real)
    requires k > 0.0 && Abs(p) <= k && Abs(q) <= k && Determinant(k, p, q, r) >= 0.0
    ensures Form(k, k, k, p, q, r, x, y, z) >= 0.0
  {
    var A, C, B := k * k - p * p, k * k - q * q, k * r - p * q;
    SquareGap(k, p);
    SquareGap(k, q);
    MinorIs(k, p, q, r, A, B, C);
    MulNonnegative(k, Determinant(k, p, q, r));
    TwoPositive(A, B, C, y, z);
    Completed(k, p, q, r, x, y, z, A, B, C);
    SqNonnegative(k * x + p * y + q * z);
    CancelOrder(k, 0.0, Form(k, k, k, p, q, r, x, y, z));
  }

  lemma DeterminantNeeded(k: real, p: real, q: real, r: real)
    requires k > 0.0 && FormPositive(k, k, k, p, q, r) && Abs(p) <= k && Abs(q) <= k
    ensures Determinant(k, p, q, r) >= 0.0
  {
    var A, C, B := k * k - p * p, k * k - q * q, k * r - p * q;
    SquareGap(k, p);
    SquareGap(k, q);
    MinorIs(k, p, q, r, A, B, C);
    forall y: real, z: real ensures AtLeast(A, B, C, y, z) {
      TwoLeft(k, p, q, r, y, z, A, B, C);
    }
    MinorPositive(A, B, C);
    CancelOrder(k, 0.0, Determinant(k, p, q, r));
  }

  predicate AtLeast(A: real, B: real, C: real, y: real, z: real) { A * y * y + C * z * z + 2.0 * B * y * z >= 0.0 }

  /** With the first variable chosen to clear the square, the form in the other two is left. */
  lemma TwoLeft(k: real, p: real, q: real, r: real, y: real, z: real, A: real, B: real, C: real)
    requires k > 0.0 && FormPositive(k, k, k, p, q, r)
    requires A == k * k - p * p && C == k * k - q * q && B == k * r - p * q
    ensures AtLeast(A, B, C, y, z)
  {
    var x := -(p * y + q * z) / k;
    assert k * x == -(p * y + q * z);
    Completed(k, p, q, r, x, y, z, A, B, C);
    assert Form(k, k, k, p, q, r, x, y, z) >= 0.0;
    MulNonnegative(k, Form(k, k, k, p, q, r, x, y, z));
    assert Sq(k * x + p * y + q * z) == 0.0;
  }

  lemma MinorPositive(A: real, B: real, C: real)
    requires A >= 0.0 && C >= 0.0 && forall y: real, z: real :: AtLeast(A, B, C, y, z)
    ensures A * C - B * B >= 0.0
  {
    if A == 0.0 {
      assert AtLeast(A, B, C, C + 1.0, -B);
      NoRoom(A, B, C);
    } else {
      assert AtLeast(A, B, C, B, -A);
      assert A * B * B + C * (-A) * (-A) + 2.0 * B * B * (-A) == A * (A * C - B * B);
      CancelOrder(A, 0.0, A * C - B * B);
    }
  }

  lemma NoRoom(A: real, B: real, C: real)
    requires A == 0.0 && C >= 0.0 && AtLeast(A, B, C, C + 1.0, -B)
    ensures A * C - B * B >= 0.0
  {
    assert C * (-B) * (-B) + 2.0 * B * (C + 1.0) * (-B) == -(Sq(B) * (C + 2.0));
    if B != 0.0 {
      SquarePositive(B, Sq(B));
      MulPositive(Sq(B), C + 2.0);
    }
  }

  // ----- the corners on D

  function AxisOf(i: nat): Axis { if i == 0 then XAxis else if i == 1 then YAxis else ZAxis }

  /** What the entries of D off the diagonal must be like for the corner: none at all for the first; for the second, one
      of at most 1/2 between the two largest eigenvalues; for the third, entries of at most 1/3 that leave a determinant
      that is not negative. */
  predicate CornerFits(D: Mat3, m: seq<nat>, bias: int)
    requires IsPermutation(m)
  {
    if bias == 1 then Diagonal(D)
    else if bias == 2 then CoupledOnlyIn(D, AxisOf(m[2])) && Abs(OffEntry(D, AxisOf(m[2]))) <= 0.5
    else
      && (forall axis: Axis :: Abs(OffEntry(D, axis)) <= 1.0 / 3.0)
      && Determinant(1.0 / 3.0, D.r0.y, D.r0.z, D.r1.z) >= 0.0
  }

  lemma FullDiagonal(D: Mat3, m: seq<nat>, bias: int)
    requires IsPermutation(m) && Symmetric(D)
    ensures var W := FullWeight(D, m, Corner(bias));
      && Symmetric(W) && W.r0.y == D.r0.y && W.r0.z == D.r0.z && W.r1.z == D.r1.z
      && W.r0.x == Corner(bias)[RankOf(m, 0)] + 1.0 / 3.0
      && W.r1.y == Corner(bias)[RankOf(m, 1)] + 1.0 / 3.0 && W.r2.z == Corner(bias)[RankOf(m, 2)] + 1.0 / 3.0
  {}

  /** At full weight, what is left of D keeps the corner realisable exactly when the entries of D fit it. */
  lemma FullWeightIff(D: Mat3, m: seq<nat>, bias: int)
    requires IsPermutation(m) && Symmetric(D)
    ensures PositiveSemidefinite(FullWeight(D, m, Corner(bias))) <==> CornerFits(D, m, bias)
  {
    var W := FullWeight(D, m, Corner(bias));
    FullDiagonal(D, m, bias);
    PositiveForm(W);
    RanksCover(m);
    if bias == 1 {
      FirstCorner(m, W.r0.x, W.r1.y, W.r2.z, W.r0.y, W.r0.z, W.r1.z);
    } else if bias == 2 {
      SecondCorner(D, m, W.r0.x, W.r1.y, W.r2.z, W.r0.y, W.r0.z, W.r1.z);
    } else {
      ThirdForm(1.0 / 3.0, W.r0.y, W.r0.z, W.r1.z);
      assert OffEntry(D, XAxis) == D.r1.z && OffEntry(D, YAxis) == D.r0.z && OffEntry(D, ZAxis) == D.r0.y;
    }
  }

  lemma FirstCorner(m: seq<nat>, a: real, b: real, c: real, p: real, q: real, r: real)
    requires IsPermutation(m)
    requires a == Target(m, 0, 1) && b == Target(m, 1, 1) && c == Target(m, 2, 1)
    ensures FormPositive(a, b, c, p, q, r) <==> p == 0.0 && q == 0.0 && r == 0.0
  {
    if m[0] == 0 {
      FirstForm(a, b, c, p, q, r);
    } else if m[0] == 1 {
      SwapFirst(a, b, c, p, q, r);
      FirstForm(b, a, c, p, r, q);
    } else {
      SwapLast(a, b, c, p, q, r);
      SwapFirst(a, c, b, q, p, r);
      FirstForm(c, a, b, q, r, p);
    }
  }

  /** The diagonal entry at full weight. */
  function Target(m: seq<nat>, i: nat, bias: int): real
    requires IsPermutation(m) && i < 3
  {
    Corner(bias)[RankOf(m, i)] + 1.0 / 3.0
  }

  lemma SecondCorner(D: Mat3, m: seq<nat>, a: real, b: real, c: real, p: real, q: real, r: real)
    requires IsPermutation(m) && p == D.r0.y && q == D.r0.z && r == D.r1.z
    requires a == Target(m, 0, 2) && b == Target(m, 1, 2) && c == Target(m, 2, 2)
    ensures FormPositive(a, b, c, p, q, r) <==>
      CoupledOnlyIn(D, AxisOf(m[2])) && Abs(OffEntry(D, AxisOf(m[2]))) <= 0.5
  {
    CoupledEntries(D, AxisOf(m[2]));
    if m[2] == 2 {
      SecondForm(a, b, c, p, q, r);
    } else if m[2] == 1 {
      SwapLast(a, b, c, p, q, r);
      SecondForm(a, c, b, q, p, r);
    } else {
      SwapFirst(a, b, c, p, q, r);
      SwapLast(b, a, c, p, r, q);
      SecondForm(b, c, a, r, p, q);
    }
  }

  lemma CoupledEntries(D: Mat3, axis: Axis)
    ensures CoupledOnlyIn(D, axis) <==> match axis
      case XAxis => D.r0.z == 0.0 && D.r0.y == 0.0
      case YAxis => D.r1.z == 0.0 && D.r0.y == 0.0
      case ZAxis => D.r1.z == 0.0 && D.r0.z == 0.0
  {
    assert OffEntry(D, XAxis) == D.r1.z && OffEntry(D, YAxis) == D.r0.z && OffEntry(D, ZAxis) == D.r0.y;
  }

  // ----- lifted to b

  /** The perturbed stress of b is realisable whatever the weight. */
  ghost predicate StaysRealisable(b: Mat3, m: seq<nat>, bias: int, ke: real, sqrt: real -> real)
    requires IsSqrt(sqrt) && IsPermutation(m)
  {
    forall delta: real :: 0.0 <= delta <= 1.0 ==> PositiveSemidefinite(Stress(b, m, Corner(bias), delta, ke, sqrt))
  }

  ghost predicate Realisable(b: Mat3) { Symmetric(b) && PositiveSemidefinite(AddDiagonal(b, 1.0 / 3.0)) }

  /** For every realisable stress: exactly when what the decomposition has left off the diagonal fits the corner. */
  lemma CornerIff(b: Mat3, m: seq<nat>, bias: int, ke: real, sqrt: real -> real)
    requires IsSqrt(sqrt) && Realisable(b) && IsPermutation(m) && ke > 0.0
    ensures StaysRealisable(b, m, bias, ke, sqrt) <==> CornerFits(Rotated(b, Final(b, sqrt)), m, bias)
  {
    AllWeightsIff(b, m, bias, ke, sqrt);
    ConjugateSymmetric(b, QuatToMat(Final(b, sqrt)));
    FullWeightIff(Rotated(b, Final(b, sqrt)), m, bias);
  }

  /** For a tie the condition is on the entries of b. */
  lemma TieCornerIff(b: Mat3, m: seq<nat>, bias: int, ke: real, sqrt: real -> real)
    requires IsSqrt(sqrt) && Realisable(b) && IsPermutation(m) && ke > 0.0
    requires forall axis: Axis :: !StrictlyLargest(b, axis)
    ensures StaysRealisable(b, m, bias, ke, sqrt) <==> CornerFits(b, m, bias)
  {
    TieReturnsInput(b, sqrt);
    CornerIff(b, m, bias, ke, sqrt);
  }

  /** For a stress that couples two directions only: the first corner needs a diagonal b, and the second needs that or
      that the direction left out has the smallest eigenvalue; the entry left over must be small. */
  lemma CoupledCornerIff(b: Mat3, axis: Axis, m: seq<nat>, bias: int, ke: real, sqrt: real -> real)
    requires IsSqrt(sqrt) && Realisable(b) && IsPermutation(m) && ke > 0.0 && CoupledOnlyIn(b, axis)
    ensures var left := Abs(OffEntry(Rotated(b, Final(b, sqrt)), axis));
      StaysRealisable(b, m, bias, ke, sqrt) <==>
        if bias == 1 then Diagonal(b)
        else if bias == 2 then (Diagonal(b) || axis == AxisOf(m[2])) && left <= 0.5
        else left <= 1.0 / 3.0
  {
    var D := Rotated(b, Final(b, sqrt));
    CornerIff(b, m, bias, ke, sqrt);
    ConjugateSymmetric(b, QuatToMat(Final(b, sqrt)));
    CoupledDiagonalIff(b, axis, sqrt);
    CoupledKept(b, axis, sqrt);
    CoupledFits(D, axis, m, bias);
  }

  lemma CoupledFits(D: Mat3, axis: Axis, m: seq<nat>, bias: int)
    requires Symmetric(D) && CoupledOnlyIn(D, axis) && IsPermutation(m)
    ensures var left := Abs(OffEntry(D, axis));
      CornerFits(D, m, bias) <==>
        if bias == 1 then Diagonal(D)
        else if bias == 2 then (Diagonal(D) || axis == AxisOf(m[2])) && left <= 0.5
        else left <= 1.0 / 3.0
  {
    CoupledEntries(D, axis);
    CoupledEntries(D, AxisOf(m[2]));
    if bias != 1 && bias != 2 {
      OneEntry(1.0 / 3.0, axis, OffEntry(D, axis), D.r0.y, D.r0.z, D.r1.z);
      assert OffEntry(D, XAxis) == D.r1.z && OffEntry(D, YAxis) == D.r0.z && OffEntry(D, ZAxis) == D.r0.y;
    }
  }

  lemma OneEntry(k: real, axis: Axis, e: real, p: real, q: real, r: real)
    requires k > 0.0
    requires match axis
      case XAxis => r == e && p == 0.0 && q == 0.0
      case YAxis => q == e && p == 0.0 && r == 0.0
      case ZAxis => p == e && q == 0.0 && r == 0.0
    ensures Determinant(k, p, q, r) >= 0.0 <==> Abs(e) <= k
  {
    assert Determinant(k, p, q, r) == k * (k * k - e * e);
    SquareOrder(Abs(e), k);
    if k * k < e * e { MulPositive(k, e * e - k * k); } else { MulNonnegative(k, k * k - e * e); }
  }

  /** A trace-free one: the third corner always keeps it realisable, the second exactly when b is diagonal or the
      direction left out has the smallest eigenvalue, the first exactly when b is diagonal. */
  lemma TraceFreeCoupledIff(b: Mat3, axis: Axis, m: seq<nat>, bias: int, ke: real, sqrt: real -> real)
    requires IsSqrt(sqrt) && Realisable(b) && IsPermutation(m) && ke > 0.0 && CoupledOnlyIn(b, axis)
    requires Trace(b) == 0.0
    ensures StaysRealisable(b, m, bias, ke, sqrt) <==>
      Diagonal(b) || (bias == 2 && axis == AxisOf(m[2])) || (bias != 1 && bias != 2)
  {
    CoupledCornerIff(b, axis, m, bias, ke, sqrt);
    EntryBelow(b, axis);
    LeftBelow(b, axis, MAX_STEPS - 2, 0.024, sqrt);
  }

  /** No entry of a realisable trace-free stress exceeds 1/2. */
  lemma EntryBelow(b: Mat3, axis: Axis)
    requires Realisable(b) && Trace(b) == 0.0
    ensures Abs(OffEntry(b, axis)) <= 0.5
  {
    var M := AddDiagonal(b, 1.0 / 3.0);
    PositiveForm(M);
    assert Form(M.r0.x, M.r1.y, M.r2.z, M.r0.y, M.r0.z, M.r1.z, 1.0, 0.0, 0.0) >= 0.0;
    assert Form(M.r0.x, M.r1.y, M.r2.z, M.r0.y, M.r0.z, M.r1.z, 0.0, 1.0, 0.0) >= 0.0;
    assert Form(M.r0.x, M.r1.y, M.r2.z, M.r0.y, M.r0.z, M.r1.z, 0.0, 0.0, 1.0) >= 0.0;
    assert Form(M.r0.x, M.r1.y, M.r2.z, M.r0.y, M.r0.z, M.r1.z, 1.0, 1.0, 0.0) >= 0.0;
    assert Form(M.r0.x, M.r1.y, M.r2.z, M.r0.y, M.r0.z, M.r1.z, 1.0, -1.0, 0.0) >= 0.0;
    assert Form(M.r0.x, M.r1.y, M.r2.z, M.r0.y, M.r0.z, M.r1.z, 1.0, 0.0, 1.0) >= 0.0;
    assert Form(M.r0.x, M.r1.y, M.r2.z, M.r0.y, M.r0.z, M.r1.z, 1.0, 0.0, -1.0) >= 0.0;
    assert Form(M.r0.x, M.r1.y, M.r2.z, M.r0.y, M.r0.z, M.r1.z, 0.0, 1.0, 1.0) >= 0.0;
    assert Form(M.r0.x, M.r1.y, M.r2.z, M.r0.y, M.r0.z, M.r1.z, 0.0, 1.0, -1.0) >= 0.0;
  }

  /** So the run leaves less than 1/3 of it. */
  lemma LeftBelow(b: Mat3, axis: Axis, n: nat, rho: real, sqrt: real -> real)
    requires IsSqrt(sqrt) && Symmetric(b) && CoupledOnlyIn(b, axis) && Abs(OffEntry(b, axis)) <= 0.5
    requires rho == 0.024 && n + 2 == 24
    ensures Abs(OffEntry(Rotated(b, Final(b, sqrt)), axis)) <= 1.0 / 3.0
  {
    var D := Rotated(b, Final(b, sqrt));
    ConjugateSymmetric(b, QuatToMat(Final(b, sqrt)));
    CoupledKept(b, axis, sqrt);
    OffOfCoupled(b, axis);
    OffOfCoupled(D, axis);
    CoupledConverges(b, axis, n, rho, sqrt);
    PowerBelow(rho, Exponent(n));
    EntryLeft(Power(rho, Exponent(n)), OffEntry(b, axis), OffEntry(D, axis));
  }

  lemma {:induction false} PowerBelow(r: real, n: nat)
    requires 0.0 <= r <= 1.0
    ensures Power(r, n) <= 1.0
  {
    if n > 0 {
      PowerBelow(r, n - 1);
      MulOrder(r, Power(r, n - 1), 1.0);
    }
  }

  lemma EntryLeft(k: real, e: real, left: real)
    requires k <= 1.0 && Abs(e) <= 0.5 && 10.0 * (2.0 * Sq(left)) <= Times(k, 2.0 * Sq(e))
    ensures Abs(left) <= 1.0 / 3.0
  {
    SqNonnegative(e);
    MulOrder(2.0 * Sq(e), k, 1.0);
    SquareOrder(Abs(e), 0.5);
    SquareOrder(Abs(left), 1.0 / 3.0);
    AbsSquare(e);
    AbsSquare(left);
  }
}
