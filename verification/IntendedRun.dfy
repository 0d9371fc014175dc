/** The convergence the Jacobi loop was built for: when a step of the loop reaches it, and what a run reaches whose
    steps all apply the rotation they compute. */
module IntendedRun {
  import opened Reals
  import opened Matrix3
  import opened Quaternion
  import opened JacobiRotation
  import opened JacobiStep
  import opened JacobiConvergence
  import opened UpdateOrder
  import opened AxisTurn
  import opened DiagonaliseResults
  import opened FirstPass

  /** Whatever the quaternion so far, a step whose update keeps or clears the components assigned first clears the pivot
      and takes exactly twice its square off. */
  lemma ExactStepContracts(A: Mat3, q: Quat, sqrt: real -> real)
    requires Symmetric(A) && IsSqrt(sqrt) && NormSq(q) == 1.0 && Pivot(Rotated(A, q)).Some?
    ensures var D, D' := Rotated(A, q), Rotated(A, Step(A, q, sqrt));
      var axis := Pivot(D).value;
      && OffEntry(D, axis) != 0.0
      && var h := PivotSine(D, axis, sqrt);
      var w := HalfCosine(h, sqrt);
      Abs(Theta(D, axis)) < EXACT_LIMIT && (LeadsKept(q, axis, h, w) || LeadsCleared(q, axis, h, w)) ==>
        && OffEntry(D', axis) == 0.0
        && Off(D') == Off(D) - 2.0 * Sq(OffEntry(D, axis))
        && Off(D') <= 2.0 / 3.0 * Off(D)
  {
    var D := Rotated(A, q);
    var axis := Pivot(D).value;
    PivotRotation(D, sqrt);
    PivotCosine(D, axis, sqrt);
    var h := PivotSine(D, axis, sqrt);
    InPlaceExactIff(q, axis, h, HalfCosine(h, sqrt), sqrt);
    ProductIsMul(q, Rotation(D, sqrt));
    IntendedStepContracts(A, q, sqrt);
  }

  /** n steps that apply the rotation they compute. */
  function IntendedSteps(A: Mat3, q: Quat, n: nat, sqrt: real -> real): Quat
    requires IsSqrt(sqrt)
    decreases n
  {
    if n == 0 then q else IntendedSteps(A, Product(q, Rotation(Rotated(A, q), sqrt)), n - 1, sqrt)
  }

  /** Each of them finds a pivot and is below the limit on theta. */
  ghost predicate PivotsThroughout(A: Mat3, q: Quat, n: nat, sqrt: real -> real)
    requires IsSqrt(sqrt)
    decreases n
  {
    n == 0 ||
    (var D := Rotated(A, q);
     && Pivot(D).Some? && OffEntry(D, Pivot(D).value) != 0.0 && Abs(Theta(D, Pivot(D).value)) < EXACT_LIMIT
     && PivotsThroughout(A, Product(q, Rotation(D, sqrt)), n - 1, sqrt))
  }

  /** n such steps leave at most (2/3)^n of the off-diagonal sum of squares. */
  lemma {:induction false} IntendedRunContracts(A: Mat3, q: Quat, n: nat, sqrt: real -> real)
    requires Symmetric(A) && IsSqrt(sqrt) && PivotsThroughout(A, q, n, sqrt)
    ensures Off(Rotated(A, IntendedSteps(A, q, n, sqrt))) <= Times(Power(2.0 / 3.0, n), Off(Rotated(A, q)))
    decreases n
  {
    if n > 0 {
      var next := Product(q, Rotation(Rotated(A, q), sqrt));
      IntendedStepContracts(A, q, sqrt);
      IntendedRunContracts(A, next, n - 1, sqrt);
      PowerNonnegative(2.0 / 3.0, n - 1);
      ScalePower(2.0 / 3.0, Power(2.0 / 3.0, n - 1), Power(2.0 / 3.0, n), Off(Rotated(A, next)), Off(Rotated(A, q)),
        Off(Rotated(A, IntendedSteps(A, q, n, sqrt))));
    }
  }

  /** The loop itself misses this at once: of the matrix that couples x and y by k and has no other entry, the first
      step does not clear the pivot. */
  lemma FirstStepMisses(A: Mat3, k: real, sqrt: real -> real)
    requires IsSqrt(sqrt) && k != 0.0 && A == Mat3(Vec3(0.0, k, 0.0), Vec3(k, 0.0, 0.0), Vec3(0.0, 0.0, 0.0))
    ensures Pivot(A) == Some(ZAxis) && OffEntry(Rotated(A, Step(A, UNIT, sqrt)), ZAxis) != 0.0
  {
    CoupledPair(A, k);
    FirstStep(A, sqrt);
  }

  lemma CoupledPair(A: Mat3, k: real)
    requires k != 0.0 && A == Mat3(Vec3(0.0, k, 0.0), Vec3(k, 0.0, 0.0), Vec3(0.0, 0.0, 0.0))
    ensures Symmetric(A) && Pivot(A) == Some(ZAxis) && OffEntry(A, ZAxis) != 0.0 && Theta(A, ZAxis) == 0.0
  {}
}
