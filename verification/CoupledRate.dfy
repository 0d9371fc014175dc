/** On a matrix that couples two directions only every pass after the first squares what is left off the diagonal. */
module CoupledRate {
  import opened Reals
  import opened Matrix3
  import opened Quaternion
  import opened JacobiStep
  import opened SymDiagonalize3
  import opened DiagonaliseResults
  import opened FirstPass
  import opened CoupledStates
  import opened CoupledResults

  /** 2^n - 1. */
  function Exponent(n: nat): nat { if n == 0 then 0 else 2 * Exponent(n - 1) + 1 }

  /** The pivot against the spread; rho is the factor of the next pass. */
  predicate Small(rho: real, D: Mat3, axis: Axis) {
    0.3 * Sq(OffEntry(D, axis)) <= Times(rho, Sq(Spread(D, axis)))
  }

  lemma {:induction false} PowerOfSquare(rho: real, n: nat)
    ensures Times(Power(Sq(rho), n), rho) == Power(rho, 2 * n + 1)
  {
    if n > 0 {
      PowerOfSquare(rho, n - 1);
      var p := Power(Sq(rho), n - 1);
      assert Power(rho, 2 * n + 1) == rho * (rho * Power(rho, 2 * n - 1));
      assert Times(Sq(rho) * p, rho) == Sq(rho) * Times(p, rho);
    }
  }

  /** One pass: what is left is rho times what was there, and the factor of the pass after it is the square of rho. */
  lemma RateStep(rho: real, D: Mat3, D': Mat3, axis: Axis)
    requires rho >= 0.0 && Small(rho, D, axis) && PassSquares(D, D', axis) && Spread(D, axis) != 0.0
    ensures Sq(OffEntry(D', axis)) <= Times(rho, Sq(OffEntry(D, axis))) && Small(Sq(rho), D', axis)
  {
    SquarePositive(Spread(D, axis), Sq(Spread(D, axis)));
    SqNonnegative(OffEntry(D, axis));
    RateScalars(rho, Sq(OffEntry(D, axis)), Sq(Spread(D, axis)), Sq(OffEntry(D', axis)), Sq(Spread(D', axis)));
  }

  lemma RateScalars(rho: real, o: real, d: real, o': real, d': real)
    requires rho >= 0.0 && o >= 0.0 && d > 0.0 && d' >= d && 0.3 * o <= Times(rho, d) && Times(o', d) <= 0.3 * Sq(o)
    ensures o' <= Times(rho, o) && 0.3 * o' <= Times(Sq(rho), d')
  {
    MulOrder(o, 0.3 * o, Times(rho, d));
    assert o * Times(rho, d) == d * Times(rho, o);
    CancelOrder(d, o', Times(rho, o));
    MulOrder(rho, 0.3 * o, Times(rho, d));
    SqNonnegative(rho);
    MulOrder(Sq(rho), d, d');
    assert rho * Times(rho, d) == Sq(rho) * d;
    assert 0.3 * Times(rho, o) == rho * (0.3 * o);
  }

  /** A run of passes, each of which squares. */
  lemma {:induction false} FarRate(A: Mat3, axis: Axis, q: Quat, n: nat, rho: real, sqrt: real -> real)
    requires Symmetric(A) && IsSqrt(sqrt) && NormSq(q) == 1.0 && FarState(A, axis, q)
    requires rho >= 0.0 && Small(rho, Rotated(A, q), axis)
    ensures Sq(OffEntry(Rotated(A, Run(A, q, n, sqrt)), axis))
         <= Times(Power(rho, Exponent(n)), Sq(OffEntry(Rotated(A, q), axis)))
    decreases n
  {
    if n == 0 {
      assert Power(rho, Exponent(n)) == 1.0;
    } else {
      var next := Step(A, q, sqrt);
      FarPivot(A, axis, q);
      StepUnit(A, q, sqrt);
      FarPass(A, axis, q, sqrt);
      RateStep(rho, Rotated(A, q), Rotated(A, next), axis);
      SqNonnegative(rho);
      FarRate(A, axis, next, n - 1, Sq(rho), sqrt);
      PowerOfSquare(rho, Exponent(n - 1));
      PowerNonnegative(Sq(rho), Exponent(n - 1));
      Chained(Power(Sq(rho), Exponent(n - 1)), rho, Power(rho, Exponent(n)), Sq(OffEntry(Rotated(A, q), axis)),
        Sq(OffEntry(Rotated(A, next), axis)), Sq(OffEntry(Rotated(A, Run(A, q, n, sqrt)), axis)));
    }
  }

  lemma Chained(p: real, rho: real, p': real, o: real, o': real, last: real)
    requires p >= 0.0 && o' <= Times(rho, o) && last <= Times(p, o') && Times(p, rho) == p'
    ensures last <= Times(p', o)
  {
    MulOrder(p, o', Times(rho, o));
    assert p * Times(rho, o) == Times(p, rho) * o;
  }

  lemma FarPivot(A: Mat3, axis: Axis, q: Quat)
    requires Symmetric(A) && FarState(A, axis, q)
    ensures Pivot(Rotated(A, q)) == Some(axis) && Spread(Rotated(A, q), axis) != 0.0
  {
    NonzeroSpread(First(q, axis).lead, OffEntry(Rotated(A, q), axis), Spread(Rotated(A, q), axis));
    ConjugateSymmetric(A, QuatToMat(q));
    CoupledPivot(Rotated(A, q), axis);
  }

  lemma FarSmall(A: Mat3, axis: Axis, q: Quat, rho: real)
    requires FarState(A, axis, q) && rho == 0.024
    ensures Small(rho, Rotated(A, q), axis)
  {
    SmallScalars(First(q, axis).lead, Sq(Spread(Rotated(A, q), axis)), Sq(OffEntry(Rotated(A, q), axis)), rho);
  }

  lemma SmallScalars(a: real, dd: real, oo: real, rho: real)
    requires Sq(a) <= 0.26 && oo <= 1.15 * Times(Sq(Sq(a)), dd) && rho == 0.024
    ensures dd < 0.0 || 0.3 * oo <= Times(rho, dd)
  {
    SqNonnegative(a);
    SquareOrder(Sq(a), 0.26);
    if dd >= 0.0 { MulNonnegative(dd, 0.0676 - Sq(Sq(a))); }
  }

  /** After the first pass a tenth of the off-diagonal sum is left, and n passes later (24/1000)^(2^n - 1) of that. */
  lemma CoupledSquares(A: Mat3, axis: Axis, n: nat, rho: real, sqrt: real -> real)
    requires Symmetric(A) && IsSqrt(sqrt) && CoupledOnlyIn(A, axis) && rho == 0.024
    ensures 10.0 * Off(Rotated(A, Run(A, UNIT, n + 1, sqrt))) <= Times(Power(rho, Exponent(n)), Off(A))
  {
    var D := Rotated(A, Run(A, UNIT, n + 1, sqrt));
    RotatedByUnit(A);
    ConjugateSymmetric(A, QuatToMat(Run(A, UNIT, n + 1, sqrt)));
    OffOfCoupled(A, axis);
    RunKeepsCoupled(A, axis, n + 1, sqrt);
    OffOfCoupled(D, axis);
    PowerNonnegative(rho, Exponent(n));
    if OffEntry(A, axis) == 0.0 {
      NothingOff(Power(rho, Exponent(n)), Off(A));
    } else {
      EntrySquares(A, axis, n, rho, sqrt);
      TwiceOf(Power(rho, Exponent(n)), Sq(OffEntry(A, axis)), Sq(OffEntry(D, axis)));
    }
  }

  lemma EntrySquares(A: Mat3, axis: Axis, n: nat, rho: real, sqrt: real -> real)
    requires Symmetric(A) && IsSqrt(sqrt) && CoupledOnlyIn(A, axis) && OffEntry(A, axis) != 0.0 && rho == 0.024
    ensures 10.0 * Sq(OffEntry(Rotated(A, Run(A, UNIT, n + 1, sqrt)), axis))
         <= Times(Power(rho, Exponent(n)), Sq(OffEntry(A, axis)))
  {
    var next := Step(A, UNIT, sqrt);
    RotatedByUnit(A);
    FirstFar(A, axis, sqrt);
    StepUnit(A, UNIT, sqrt);
    FirstStep(A, sqrt);
    FarSmall(A, axis, next, rho);
    FarRate(A, axis, next, n, rho, sqrt);
    PowerNonnegative(rho, Exponent(n));
    TenthOfPower(Power(rho, Exponent(n)), Sq(OffEntry(A, axis)), Sq(OffEntry(Rotated(A, next), axis)),
      Sq(OffEntry(Rotated(A, Run(A, UNIT, n + 1, sqrt)), axis)));
  }

  lemma TwiceOf(p: real, o: real, last: real)
    requires 10.0 * last <= Times(p, o)
    ensures 10.0 * (2.0 * last) <= Times(p, 2.0 * o)
  {
    assert Times(p, 2.0 * o) == 2.0 * Times(p, o);
  }

  lemma NothingOff(p: real, off: real)
    requires off == 0.0
    ensures Times(p, off) == 0.0
  {}

  lemma TenthOfPower(p: real, o: real, o': real, last: real)
    requires p >= 0.0 && 10.0 * o' <= o && last <= Times(p, o')
    ensures 10.0 * last <= Times(p, o)
  {
    MulOrder(p, 10.0 * o', o);
    assert 10.0 * Times(p, o') == p * (10.0 * o');
  }

  /** So for such a matrix what is left off the diagonal at the end is at most a tenth of (24/1000)^(2^22 - 1) of what
      was there; n stands for 22. */
  lemma CoupledConverges(A: Mat3, axis: Axis, n: nat, rho: real, sqrt: real -> real)
    requires Symmetric(A) && IsSqrt(sqrt) && CoupledOnlyIn(A, axis) && rho == 0.024 && n + 2 == 24
    ensures 10.0 * Off(Rotated(A, Final(A, sqrt))) <= Times(Power(rho, Exponent(n)), Off(A))
  {
    CoupledSquares(A, axis, n, rho, sqrt);
  }
}
