/** How far the perturbed stress of a realisable stress can be from realisable, and that it need not be. */
module Realisability {
  import opened Reals
  import opened Matrix3
  import opened Quaternion
  import opened JacobiStep
  import opened SymDiagonalize3
  import opened DiagonaliseResults
  import opened CoupledRate
  import opened SettledRun
  import opened StressPerturbation

  /** What the decomposition has left beside the eigenvalues. */
  function Remainder(D: Mat3): real { Abs(D.r0.y) + Abs(D.r0.z) + Abs(D.r1.z) }

  lemma RemainderBound(D: Mat3)
    requires Symmetric(D)
    ensures 2.0 * Sq(Remainder(D)) <= 3.0 * Off(D)
  {
    ThreeSquares(Abs(D.r0.y), Abs(D.r0.z), Abs(D.r1.z));
    AbsSquare(D.r0.y);
    AbsSquare(D.r0.z);
    AbsSquare(D.r1.z);
  }

  lemma AbsSquare(x: real)
    ensures Sq(Abs(x)) == x * x
  {}

  lemma ThreeSquares(x: real, y: real, z: real)
    ensures Sq(x + y + z) <= 3.0 * (Sq(x) + Sq(y) + Sq(z))
  {
    SqNonnegative(x - y);
    SqNonnegative(y - z);
    SqNonnegative(z - x);
    assert 3.0 * (Sq(x) + Sq(y) + Sq(z)) - Sq(x + y + z) == Sq(x - y) + Sq(y - z) + Sq(z - x);
  }

  // ----- the bound

  /** What full weight leaves: the corner, with what the decomposition left beside the eigenvalues. */
  function FullWeight(D: Mat3, m: seq<nat>, c: seq<real>): Mat3
    requires IsPermutation(m) && |c| == 3
  {
    AddDiagonal(WithDiagonal(D, Vec3(c[RankOf(m, 0)], c[RankOf(m, 1)], c[RankOf(m, 2)])), 1.0 / 3.0)
  }

  /** The entries of the perturbed matrix, shifted by 1/3, are a blend: of D, shifted, and of the corner, shifted, with
      the remainder of D beside it. */
  lemma PerturbedQuad(D: Mat3, m: seq<nat>, c: seq<real>, delta: real, v: Vec3)
    requires IsPermutation(m) && |c| == 3 && Symmetric(D)
    ensures Quad(AddDiagonal(Perturbed(D, m, c, delta), 1.0 / 3.0), v)
         == Times(1.0 - delta, Quad(AddDiagonal(D, 1.0 / 3.0), v))
          + Times(delta, Quad(FullWeight(D, m, c), v))
  {
    var T := Vec3(c[RankOf(m, 0)], c[RankOf(m, 1)], c[RankOf(m, 2)]);
    var P, R := AddDiagonal(Perturbed(D, m, c, delta), 1.0 / 3.0), AddDiagonal(D, 1.0 / 3.0);
    var W := FullWeight(D, m, c);
    QuadEntries(P, v);
    QuadEntries(R, v);
    QuadEntries(W, v);
    BlendTerm(delta, D.r0.x, T.x, Sq(v.x));
    BlendTerm(delta, D.r1.y, T.y, Sq(v.y));
    BlendTerm(delta, D.r2.z, T.z, Sq(v.z));
    SharedTerm(delta, Times(D.r0.y, v.x * v.y));
    SharedTerm(delta, Times(D.r0.z, v.x * v.z));
    SharedTerm(delta, Times(D.r1.z, v.y * v.z));
    SixTerms(delta, Times(R.r0.x, Sq(v.x)), Times(R.r1.y, Sq(v.y)), Times(R.r2.z, Sq(v.z)),
      Times(W.r0.x, Sq(v.x)), Times(W.r1.y, Sq(v.y)), Times(W.r2.z, Sq(v.z)),
      Times(D.r0.y, v.x * v.y) + Times(D.r0.z, v.x * v.z) + Times(D.r1.z, v.y * v.z));
  }

  lemma BlendTerm(delta: real, a: real, t: real, s: real)
    ensures Times(Blend(delta, a, t) + 1.0 / 3.0, s) == Times(1.0 - delta, Times(a + 1.0 / 3.0, s))
      + Times(delta, Times(t + 1.0 / 3.0, s))
  {}

  lemma SharedTerm(delta: real, x: real)
    ensures x == Times(1.0 - delta, x) + Times(delta, x)
  {}

  lemma SixTerms(delta: real, a: real, b: real, c: real, x: real, y: real, z: real, off: real)
    ensures Times(1.0 - delta, a) + Times(delta, x) + (Times(1.0 - delta, b) + Times(delta, y))
          + (Times(1.0 - delta, c) + Times(delta, z)) + 2.0 * off
         == Times(1.0 - delta, a + b + c + 2.0 * off) + Times(delta, x + y + z + 2.0 * off)
  {}

  /** A form whose diagonal is not negative. */
  lemma FormAbove(M: Mat3, v: Vec3)
    requires Symmetric(M) && M.r0.x >= 0.0 && M.r1.y >= 0.0 && M.r2.z >= 0.0
    ensures Quad(M, v) >= -Times(Remainder(M), Dot(v, v))
  {
    QuadEntries(M, v);
    ScalarForm(M.r0.x, M.r1.y, M.r2.z, M.r0.y, M.r0.z, M.r1.z, v.x, v.y, v.z);
    assert Dot(v, v) == Sq(v.x) + Sq(v.y) + Sq(v.z);
  }

  lemma ScalarForm(a: real, b: real, c: real, p: real, q: real, r: real, x: real, y: real, z: real)
    requires a >= 0.0 && b >= 0.0 && c >= 0.0
    ensures Times(a, Sq(x)) + Times(b, Sq(y)) + Times(c, Sq(z))
          + 2.0 * Times(p, x * y) + 2.0 * Times(q, x * z) + 2.0 * Times(r, y * z)
         >= -Times(Abs(p) + Abs(q) + Abs(r), Sq(x) + Sq(y) + Sq(z))
  {
    SqNonnegative(x);
    SqNonnegative(y);
    SqNonnegative(z);
    MulNonnegative(a, Sq(x));
    MulNonnegative(b, Sq(y));
    MulNonnegative(c, Sq(z));
    CrossAbove(p, x, y, Sq(z));
    CrossAbove(q, x, z, Sq(y));
    CrossAbove(r, y, z, Sq(x));
    ThreeParts(Abs(p), Abs(q), Abs(r), Sq(x), Sq(y), Sq(z));
  }

  lemma CrossAbove(p: real, x: real, y: real, rest: real)
    requires rest >= 0.0
    ensures 2.0 * Times(p, x * y) >= -(Times(Abs(p), Sq(x)) + Times(Abs(p), Sq(y)) + Times(Abs(p), rest))
  {
    CrossTerm(p, x, y);
    MulNonnegative(Abs(p), rest);
  }

  lemma ThreeParts(a: real, b: real, c: real, x: real, y: real, z: real)
    ensures Times(a, x) + Times(a, y) + Times(a, z) + (Times(b, x) + Times(b, z) + Times(b, y))
          + (Times(c, y) + Times(c, z) + Times(c, x)) == Times(a + b + c, x + y + z)
  {}

  /** Whatever the decomposition leaves off the diagonal, perturbing loses at most the weight times what it left. */
  lemma PerturbedAbove(D: Mat3, m: seq<nat>, bias: int, delta: real, v: Vec3)
    requires IsPermutation(m) && Symmetric(D) && 0.0 <= delta <= 1.0 && PositiveSemidefinite(AddDiagonal(D, 1.0 / 3.0))
    ensures Quad(AddDiagonal(Perturbed(D, m, Corner(bias), delta), 1.0 / 3.0), v)
         >= -Times(delta, Times(Remainder(D), Dot(v, v)))
  {
    var c := Corner(bias);
    var W := FullWeight(D, m, c);
    PerturbedQuad(D, m, c, delta, v);
    assert Quad(AddDiagonal(D, 1.0 / 3.0), v) >= 0.0;
    FormAbove(W, v);
    assert Remainder(W) == Remainder(D);
    BlendOfForms(delta, Quad(AddDiagonal(D, 1.0 / 3.0), v), Quad(W, v), Times(Remainder(D), Dot(v, v)));
  }

  lemma BlendOfForms(delta: real, x: real, y: real, lost: real)
    requires 0.0 <= delta <= 1.0 && x >= 0.0 && y >= -lost
    ensures Times(1.0 - delta, x) + Times(delta, y) >= -Times(delta, lost)
  {
    MulNonnegative(1.0 - delta, x);
    ScaledForm(delta, y, lost);
  }

  lemma ScaledForm(k: real, x: real, lost: real)
    requires k >= 0.0 && x >= -lost
    ensures Times(k, x) >= -Times(k, lost)
  {
    MulNonnegative(k, x + lost);
  }

  /** For every realisable stress and every weight between 0 and 1, the perturbed stress is realisable up to twice the
      kinetic energy times the weight times what the decomposition left beside the eigenvalues. */
  lemma StressRealisable(b: Mat3, m: seq<nat>, bias: int, delta: real, ke: real, v: Vec3, sqrt: real -> real)
    requires IsSqrt(sqrt) && Symmetric(b) && IsPermutation(m) && ke > 0.0 && 0.0 <= delta <= 1.0
    requires PositiveSemidefinite(AddDiagonal(b, 1.0 / 3.0))
    ensures Quad(Stress(b, m, Corner(bias), delta, ke, sqrt), v)
         >= -Times(2.0 * ke, Times(delta, Times(Remainder(Rotated(b, Final(b, sqrt))), Dot(v, v))))
  {
    FinalExact(b, sqrt);
    var q := Final(b, sqrt);
    var Q, D := QuatToMat(q), Rotated(b, q);
    ConjugatePositive(Q, D, 1.0 / 3.0);
    ConjugateSymmetric(b, Q);
    RebuiltAbove(Q, D, Perturbed(D, m, Corner(bias), delta), m, bias, delta, ke, v);
  }

  lemma RebuiltAbove(Q: Mat3, D: Mat3, P: Mat3, m: seq<nat>, bias: int, delta: real, ke: real, v: Vec3)
    requires Orthogonal(Q) && Symmetric(D) && IsPermutation(m) && ke > 0.0 && 0.0 <= delta <= 1.0
    requires PositiveSemidefinite(AddDiagonal(D, 1.0 / 3.0)) && P == Perturbed(D, m, Corner(bias), delta)
    ensures Quad(Rebuilt(Q, P, ke), v) >= -Times(2.0 * ke, Times(delta, Times(Remainder(D), Dot(v, v))))
  {
    var T := Transpose(Q);
    var R, u := Mul(Mul(Q, P), T), ColMul(T, v);
    QuadConjugate(Q, P, v);
    QuadAddDiagonal(R, 1.0 / 3.0, v);
    QuadAddDiagonal(P, 1.0 / 3.0, u);
    LengthKept(Q, v);
    PerturbedAbove(D, m, bias, delta, u);
    QuadScale(AddDiagonal(R, 1.0 / 3.0), 2.0 * ke, v);
    var lost := Times(delta, Times(Remainder(D), Dot(v, v)));
    ScaledForm(2.0 * ke, Quad(AddDiagonal(R, 1.0 / 3.0), v), lost);
  }

  /** So a stress whose decomposition comes out diagonal stays realisable. */
  lemma DiagonalStressRealisable(b: Mat3, m: seq<nat>, bias: int, delta: real, ke: real, sqrt: real -> real)
    requires IsSqrt(sqrt) && Symmetric(b) && IsPermutation(m) && ke > 0.0 && 0.0 <= delta <= 1.0
    requires PositiveSemidefinite(AddDiagonal(b, 1.0 / 3.0)) && Diagonal(Rotated(b, Final(b, sqrt)))
    ensures PositiveSemidefinite(Stress(b, m, Corner(bias), delta, ke, sqrt))
  {
    forall v: Vec3
      ensures Quad(Stress(b, m, Corner(bias), delta, ke, sqrt), v) >= 0.0
    {
      StressRealisable(b, m, bias, delta, ke, v, sqrt);
      NothingLost(ke, delta, Remainder(Rotated(b, Final(b, sqrt))), Dot(v, v));
    }
  }

  lemma NothingLost(ke: real, delta: real, remainder: real, length: real)
    requires remainder == 0.0
    ensures -Times(2.0 * ke, Times(delta, Times(remainder, length))) == 0.0
  {}

  /** Exactly when a realisable stress stays realisable whatever the weight: when full weight keeps it so. */
  lemma AllWeightsIff(b: Mat3, m: seq<nat>, bias: int, ke: real, sqrt: real -> real)
    requires IsSqrt(sqrt) && Symmetric(b) && IsPermutation(m) && ke > 0.0
    requires PositiveSemidefinite(AddDiagonal(b, 1.0 / 3.0))
    ensures (forall delta: real ::
        0.0 <= delta <= 1.0 ==> PositiveSemidefinite(Stress(b, m, Corner(bias), delta, ke, sqrt)))
       <==> PositiveSemidefinite(FullWeight(Rotated(b, Final(b, sqrt)), m, Corner(bias)))
  {
    FinalExact(b, sqrt);
    var D := Rotated(b, Final(b, sqrt));
    ConjugateSymmetric(b, QuatToMat(Final(b, sqrt)));
    ConjugatePositive(QuatToMat(Final(b, sqrt)), D, 1.0 / 3.0);
    var W := FullWeight(D, m, Corner(bias));
    if PositiveSemidefinite(W) {
      forall delta: real | 0.0 <= delta <= 1.0
        ensures PositiveSemidefinite(Stress(b, m, Corner(bias), delta, ke, sqrt))
      {
        BetweenForms(D, m, Corner(bias), delta);
        StressPositiveIff(b, m, Corner(bias), delta, ke, sqrt);
      }
    } else {
      FullForm(D, m, Corner(bias));
      StressPositiveIff(b, m, Corner(bias), 1.0, ke, sqrt);
    }
  }

  lemma BetweenForms(D: Mat3, m: seq<nat>, c: seq<real>, delta: real)
    requires IsPermutation(m) && |c| == 3 && Symmetric(D) && 0.0 <= delta <= 1.0
    requires PositiveSemidefinite(AddDiagonal(D, 1.0 / 3.0)) && PositiveSemidefinite(FullWeight(D, m, c))
    ensures PositiveSemidefinite(AddDiagonal(Perturbed(D, m, c, delta), 1.0 / 3.0))
  {
    var P := AddDiagonal(Perturbed(D, m, c, delta), 1.0 / 3.0);
    forall v: Vec3
      ensures Quad(P, v) >= 0.0
    {
      PerturbedQuad(D, m, c, delta, v);
      assert Quad(AddDiagonal(D, 1.0 / 3.0), v) >= 0.0 && Quad(FullWeight(D, m, c), v) >= 0.0;
      BlendOfForms(delta, Quad(AddDiagonal(D, 1.0 / 3.0), v), Quad(FullWeight(D, m, c), v), 0.0);
      assert Times(delta, 0.0) == 0.0;
    }
  }

  lemma FullForm(D: Mat3, m: seq<nat>, c: seq<real>)
    requires IsPermutation(m) && |c| == 3
    ensures AddDiagonal(Perturbed(D, m, c, 1.0), 1.0 / 3.0) == FullWeight(D, m, c)
  {}

  /** And a stress that couples two directions only stays realisable up to a remainder whose square is at most 3/20 of
      (24/1000)^(2^22 - 1) of what was off the diagonal; n stands for 22. */
  lemma CoupledStress(b: Mat3, axis: Axis, m: seq<nat>, bias: int, delta: real, ke: real, v: Vec3, n: nat, rho: real,
      sqrt: real -> real)
    returns (remainder: real)
    requires IsSqrt(sqrt) && Symmetric(b) && CoupledOnlyIn(b, axis) && IsPermutation(m) && ke > 0.0
    requires 0.0 <= delta <= 1.0
    requires PositiveSemidefinite(AddDiagonal(b, 1.0 / 3.0)) && rho == 0.024 && n + 2 == 24
    ensures remainder >= 0.0 && 20.0 * Sq(remainder) <= 3.0 * Times(Power(rho, Exponent(n)), Off(b))
    ensures Quad(Stress(b, m, Corner(bias), delta, ke, sqrt), v)
      >= -Times(2.0 * ke, Times(delta, Times(remainder, Dot(v, v))))
  {
    var D := Rotated(b, Final(b, sqrt));
    remainder := Remainder(D);
    ConjugateSymmetric(b, QuatToMat(Final(b, sqrt)));
    RemainderBound(D);
    CoupledConverges(b, axis, n, rho, sqrt);
    StressRealisable(b, m, bias, delta, ke, v, sqrt);
  }

  /** A stress whose diagonal entries are well apart stays realisable up to a remainder whose square is at most 3/2 of
      (5/6)^23 of what was off the diagonal, unless the loop has met a tie; n stands for 23. */
  lemma SettledStress(b: Mat3, m: seq<nat>, bias: int, delta: real, ke: real, v: Vec3, n: nat, sqrt: real -> real)
    returns (remainder: real)
    requires IsSqrt(sqrt) && Symmetric(b) && WellApart(b, sqrt) && IsPermutation(m) && ke > 0.0
    requires 0.0 <= delta <= 1.0 && PositiveSemidefinite(AddDiagonal(b, 1.0 / 3.0)) && n + 1 == 24
    ensures remainder >= 0.0 && 2.0 * Sq(remainder) <= 3.0 * Off(b)
    ensures Pivot(Rotated(b, Final(b, sqrt))).Some? ==> 2.0 * Sq(remainder) <= 3.0 * Times(Power(5.0 / 6.0, n), Off(b))
    ensures Quad(Stress(b, m, Corner(bias), delta, ke, sqrt), v)
      >= -Times(2.0 * ke, Times(delta, Times(remainder, Dot(v, v))))
  {
    var D := Rotated(b, Final(b, sqrt));
    remainder := Remainder(D);
    ConjugateSymmetric(b, QuatToMat(Final(b, sqrt)));
    RemainderBound(D);
    SettledContracts(b, n, sqrt);
    StressRealisable(b, m, bias, delta, ke, v, sqrt);
  }

  // ----- the loss is real

  /** Full weight towards the first corner takes the realisable, trace-free stress with 1/3 everywhere off the diagonal
      out of the realisable range: the decomposition returns it as it is. */
  lemma RealisableLost(b: Mat3, k: real, m: seq<nat>, ke: real, sqrt: real -> real)
    requires IsSqrt(sqrt) && ke > 0.0 && k == 1.0 / 3.0 && m == [0, 1, 2] && Thirds(b, k)
    ensures Symmetric(b) && Trace(b) == 0.0 && PositiveSemidefinite(AddDiagonal(b, 1.0 / 3.0))
    ensures IsPermutation(m) && Descending(Rotated(b, Final(b, sqrt)), m)
    ensures !PositiveSemidefinite(Stress(b, m, Corner(1), 1.0, ke, sqrt))
  {
    ThirdsRealisable(b, k);
    ThirdsReturned(b, k, m, sqrt);
    ThirdsPerturbed(b, k, m);
    LostWhereReturned(b, m, Corner(1), 1.0, ke, sqrt);
  }

  predicate Thirds(b: Mat3, k: real) { b == Mat3(Vec3(0.0, k, k), Vec3(k, 0.0, k), Vec3(k, k, 0.0)) }

  lemma ThirdsRealisable(b: Mat3, k: real)
    requires k == 1.0 / 3.0 && Thirds(b, k)
    ensures Symmetric(b) && Trace(b) == 0.0 && PositiveSemidefinite(AddDiagonal(b, 1.0 / 3.0))
  {
    ThirdsPositive(AddDiagonal(b, 1.0 / 3.0), k);
  }

  lemma ThirdsReturned(b: Mat3, k: real, m: seq<nat>, sqrt: real -> real)
    requires IsSqrt(sqrt) && k > 0.0 && Thirds(b, k) && m == [0, 1, 2]
    ensures IsPermutation(m) && Rotated(b, Final(b, sqrt)) == b && Descending(b, m)
  {
    ThirdsTie(b, k);
    TieReturnsInput(b, sqrt);
  }

  lemma LostWhereReturned(b: Mat3, m: seq<nat>, c: seq<real>, delta: real, ke: real, sqrt: real -> real)
    requires IsSqrt(sqrt) && Symmetric(b) && IsPermutation(m) && |c| == 3 && ke > 0.0 && Rotated(b, Final(b, sqrt)) == b
    requires !PositiveSemidefinite(AddDiagonal(Perturbed(b, m, c, delta), 1.0 / 3.0))
    ensures !PositiveSemidefinite(Stress(b, m, c, delta, ke, sqrt))
  {
    StressPositiveIff(b, m, c, delta, ke, sqrt);
  }

  lemma ThirdsPerturbed(b: Mat3, k: real, m: seq<nat>)
    requires k == 1.0 / 3.0 && Thirds(b, k) && m == [0, 1, 2] && IsPermutation(m)
    ensures !PositiveSemidefinite(AddDiagonal(Perturbed(b, m, Corner(1), 1.0), 1.0 / 3.0))
  {
    var P := AddDiagonal(Perturbed(b, m, Corner(1), 1.0), 1.0 / 3.0);
    assert P == Mat3(Vec3(1.0, k, k), Vec3(k, 0.0, k), Vec3(k, k, 0.0));
    NegativeForm(P, k, Vec3(0.0, 1.0, -1.0));
  }

  lemma NegativeForm(P: Mat3, k: real, v: Vec3)
    requires k > 0.0 && P == Mat3(Vec3(1.0, k, k), Vec3(k, 0.0, k), Vec3(k, k, 0.0)) && v == Vec3(0.0, 1.0, -1.0)
    ensures Quad(P, v) < 0.0
  {}

  lemma ThirdsTie(b: Mat3, k: real)
    requires k > 0.0 && Thirds(b, k)
    ensures forall axis: Axis :: !StrictlyLargest(b, axis)
  {
    PivotFacts(b);
  }

  lemma ThirdsPositive(M: Mat3, k: real)
    requires k >= 0.0 && M == Mat3(Vec3(k, k, k), Vec3(k, k, k), Vec3(k, k, k))
    ensures PositiveSemidefinite(M)
  {
    forall v: Vec3
      ensures Quad(M, v) >= 0.0
    {
      SqNonnegative(v.x + v.y + v.z);
      MulNonnegative(k, Sq(v.x + v.y + v.z));
      ThirdsQuad(k, v.x, v.y, v.z);
    }
  }

  lemma ThirdsQuad(k: real, x: real, y: real, z: real)
    ensures x * (k * x + k * y + k * z) + y * (k * x + k * y + k * z) + z * (k * x + k * y + k * z) == k * Sq(x + y + z)
  {}
}
