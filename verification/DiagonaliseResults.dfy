/** What the 3x3 diagonaliser guarantees over whole runs, and where it falls short of "D is diagonal". */
module DiagonaliseResults {
  import opened Reals
  import opened Matrix3
  import opened Quaternion
  import opened JacobiStep
  import opened SymDiagonalize3
  import opened AxisTurn

  // ----- leaving the loop early

  lemma RotatedByUnit(A: Mat3)
    ensures Rotated(A, UNIT) == A && QuatToMat(UNIT) == IDENTITY
  {
    assert QuatToMat(UNIT) == IDENTITY;
    assert Transpose(IDENTITY) == IDENTITY;
    MulIdentity(A);
    MulIdentity(Mul(A, IDENTITY));
  }

  /** A matrix without a strictly largest off-diagonal entry comes back as it went in: it is diagonalised if and only if
      it was diagonal. */
  lemma TieReturnsInput(A: Mat3, sqrt: real -> real)
    requires IsSqrt(sqrt) && forall axis: Axis :: !StrictlyLargest(A, axis)
    ensures QuatToMat(Final(A, sqrt)) == IDENTITY && Rotated(A, Final(A, sqrt)) == A
    ensures Diagonal(Rotated(A, Final(A, sqrt))) <==> Diagonal(A)
  {
    RotatedByUnit(A);
    PivotFacts(A);
  }

  /** So of the matrices with equal off-diagonal entries only the diagonal ones come back diagonal. */
  lemma EqualEntriesDiagonalIff(A: Mat3, k: real, sqrt: real -> real)
    requires IsSqrt(sqrt) && Symmetric(A) && forall axis: Axis :: Abs(OffEntry(A, axis)) == k
    ensures Diagonal(Rotated(A, Final(A, sqrt))) <==> k == 0.0
  {
    forall axis: Axis
      ensures !StrictlyLargest(A, axis)
    {
      var other := if axis == XAxis then YAxis else XAxis;
      assert Abs(OffEntry(A, axis)) == Abs(OffEntry(A, other));
    }
    TieReturnsInput(A, sqrt);
    assert Abs(OffEntry(A, XAxis)) == k && Abs(OffEntry(A, YAxis)) == k && Abs(OffEntry(A, ZAxis)) == k;
  }

  /** The run ends without a pivot, or only because the passes are used up. */
  lemma {:induction false} RunStops(A: Mat3, q: Quat, n: nat, sqrt: real -> real)
    requires IsSqrt(sqrt) && NormSq(q) == 1.0
    ensures var r := Run(A, q, n, sqrt);
      Pivot(Rotated(A, r)).None? || r == Steps(A, q, n, sqrt)
    decreases n
  {
    if n != 0 && Pivot(Rotated(A, q)).Some? {
      StepUnit(A, q, sqrt);
      RunStops(A, Step(A, q, sqrt), n - 1, sqrt);
    }
  }

  /** n steps, pivot or not. */
  function Steps(A: Mat3, q: Quat, n: nat, sqrt: real -> real): Quat
    requires IsSqrt(sqrt) && NormSq(q) == 1.0
    decreases n
  {
    if n == 0 then q
    else
      StepUnit(A, q, sqrt);
      Steps(A, Step(A, q, sqrt), n - 1, sqrt)
  }

  /** Going on after the early exit would change nothing. */
  lemma {:induction false} RunIsSteps(A: Mat3, q: Quat, n: nat, sqrt: real -> real)
    requires IsSqrt(sqrt) && NormSq(q) == 1.0
    ensures Run(A, q, n, sqrt) == Steps(A, q, n, sqrt)
    decreases n
  {
    if n != 0 {
      StepUnit(A, q, sqrt);
      if Pivot(Rotated(A, q)).None? {
        StepWithoutPivot(A, q, sqrt);
      }
      RunIsSteps(A, Step(A, q, sqrt), n - 1, sqrt);
    }
  }

  /** The loop counts 24 passes, and the last of them no longer rebuilds Q and D: what it returns is what exactly 23
      steps lead to, n standing for 23. */
  lemma FinalIsSteps(A: Mat3, n: nat, sqrt: real -> real)
    requires IsSqrt(sqrt) && n + 1 == 24
    ensures Final(A, sqrt) == Steps(A, UNIT, n, sqrt)
  {
    RunIsSteps(A, UNIT, n, sqrt);
  }

  // ----- lanes

  lemma RunAfterStep(A: Mat3, q: Quat, n: nat, sqrt: real -> real)
    requires IsSqrt(sqrt) && NormSq(q) == 1.0 && n > 0
    ensures NormSq(Step(A, q, sqrt)) == 1.0
    ensures Run(A, Step(A, q, sqrt), n - 1, sqrt) == Run(A, q, n, sqrt)
  {
    StepUnit(A, q, sqrt);
    if Pivot(Rotated(A, q)).None? {
      StepWithoutPivot(A, q, sqrt);
    }
  }

  /** What a lane holds before pass i. */
  ghost predicate LaneReady(A: Mat3, q: Quat, i: nat, sqrt: real -> real)
    requires IsSqrt(sqrt)
  {
    NormSq(q) == 1.0 && (i < MAX_STEPS ==> Run(A, q, MAX_STEPS - 1 - i, sqrt) == Final(A, sqrt))
  }

  ghost predicate LaneDone(A: Mat3, Q: Mat3, D: Mat3, sqrt: real -> real)
    requires IsSqrt(sqrt)
  {
    Q == QuatToMat(Final(A, sqrt)) && D == Rotated(A, Final(A, sqrt))
  }

  /** One pass of one lane. */
  lemma LanePass(A: Mat3, q: Quat, i: nat, sqrt: real -> real)
    requires IsSqrt(sqrt) && i < MAX_STEPS && LaneReady(A, q, i, sqrt)
    ensures var D := Rotated(A, q); var jr := Rotation(D, sqrt);
      && (jr.w == 1.0 || i == MAX_STEPS - 1 ==> LaneDone(A, QuatToMat(q), D, sqrt))
      && NormSq(InPlace(q, jr)) > 0.0
      && LaneReady(A, Normalise(InPlace(q, jr), sqrt), i + 1, sqrt)
  {
    ExitTest(Rotated(A, q), sqrt);
    UpdateNonzero(q, Rotated(A, q), sqrt);
    StepUnit(A, q, sqrt);
    if i < MAX_STEPS - 1 {
      RunAfterStep(A, q, MAX_STEPS - 1 - i, sqrt);
    }
  }

  /** sym_diagonalize on one matrix per SIMD lane: the loop is left only when every lane is done, and a lane that is
      done early keeps turning by nothing. Each lane ends with exactly what the scalar loop gives it. */
  method SymDiagonalizeLanes(A: seq<Mat3>, sqrt: real -> real) returns (Q: seq<Mat3>, D: seq<Mat3>)
    requires IsSqrt(sqrt)
    ensures |Q| == |D| == |A|
    ensures forall l :: 0 <= l < |A| ==>
              Q[l] == QuatToMat(Final(A[l], sqrt)) && D[l] == Rotated(A[l], Final(A[l], sqrt))
  {
    var q := seq(|A|, _ => UNIT);
    Q, D := seq(|A|, _ => IDENTITY), A;
    for i := 0 to MAX_STEPS
      invariant |q| == |Q| == |D| == |A|
      invariant forall l :: 0 <= l < |A| ==> LaneReady(A[l], q[l], i, sqrt)
      invariant i == MAX_STEPS ==> forall l :: 0 <= l < |A| ==> LaneDone(A[l], Q[l], D[l], sqrt)
    {
      var next, done;
      Q, D, next, done := PassLanes(A, q, i, sqrt);
      if done {
        break;
      }
      q := next;
    }
  }

  /** One pass of all lanes: matrices and congruences from the quaternions, the exit test, and the updated
      quaternions. */
  method PassLanes(A: seq<Mat3>, q: seq<Quat>, i: nat, sqrt: real -> real)
    returns (Q: seq<Mat3>, D: seq<Mat3>, next: seq<Quat>, done: bool)
    requires IsSqrt(sqrt) && i < MAX_STEPS && |q| == |A| && forall l :: 0 <= l < |A| ==> LaneReady(A[l], q[l], i, sqrt)
    ensures |Q| == |D| == |next| == |A|
    ensures done || i == MAX_STEPS - 1 ==> forall l :: 0 <= l < |A| ==> LaneDone(A[l], Q[l], D[l], sqrt)
    ensures forall l :: 0 <= l < |A| ==> LaneReady(A[l], next[l], i + 1, sqrt)
  {
    Q := seq(|A|, l requires 0 <= l < |A| => QuatToMat(q[l]));
    D := seq(|A|, l requires 0 <= l < |A| => Rotated(A[l], q[l]));
    var jr := seq(|A|, l requires 0 <= l < |A| => Rotation(D[l], sqrt));
    forall l | 0 <= l < |A|
      ensures jr[l].w == 1.0 || i == MAX_STEPS - 1 ==> LaneDone(A[l], Q[l], D[l], sqrt)
      ensures NormSq(InPlace(q[l], jr[l])) > 0.0
      ensures LaneReady(A[l], Normalise(InPlace(q[l], jr[l]), sqrt), i + 1, sqrt)
    {
      LanePass(A[l], q[l], i, sqrt);
    }
    done := forall l :: 0 <= l < |A| ==> jr[l].w == 1.0;
    next := seq(|A|, l requires 0 <= l < |A| => Normalise(InPlace(q[l], jr[l]), sqrt));
  }

  // ----- matrices that couple two directions only

  predicate CoupledOnlyIn(D: Mat3, axis: Axis) {
    forall other: Axis :: other != axis ==> OffEntry(D, other) == 0.0
  }

  function Power(r: real, n: nat): real { if n == 0 then 1.0 else r * Power(r, n - 1) }

  lemma OffOfCoupled(D: Mat3, axis: Axis)
    requires Symmetric(D)
    ensures CoupledOnlyIn(D, axis) <==> Off(D) == 2.0 * Sq(OffEntry(D, axis))
    ensures CoupledOnlyIn(D, axis) ==> (Pivot(D) == Some(axis) || (Pivot(D) == None && Off(D) == 0.0))
  {
    var x, y, z := D.r1.z, D.r0.z, D.r0.y;
    assert CoupledOnlyIn(D, axis) <==> match axis
      case XAxis => OffEntry(D, YAxis) == 0.0 == OffEntry(D, ZAxis)
      case YAxis => OffEntry(D, XAxis) == 0.0 == OffEntry(D, ZAxis)
      case ZAxis => OffEntry(D, XAxis) == 0.0 == OffEntry(D, YAxis);
    if x != 0.0 { SquarePositive(x, x * x); }
    if y != 0.0 { SquarePositive(y, y * y); }
    if z != 0.0 { SquarePositive(z, z * z); }
  }

  /** On such a matrix every step leaves at most two fifths of the off-diagonal sum of squares. */
  lemma {:induction false} CoupledRun(A: Mat3, axis: Axis, q: Quat, n: nat, sqrt: real -> real)
    requires Symmetric(A) && IsSqrt(sqrt) && NormSq(q) == 1.0 && Parallel(q, axis) && CoupledOnlyIn(Rotated(A, q), axis)
    ensures Off(Rotated(A, Run(A, q, n, sqrt))) <= Times(Power(0.4, n), Off(Rotated(A, q)))
    decreases n
  {
    var D := Rotated(A, q);
    ConjugateSymmetric(A, QuatToMat(q));
    OffOfCoupled(D, axis);
    if n != 0 && Pivot(D).Some? {
      var next := Step(A, q, sqrt);
      var D' := Rotated(A, next);
      StepUnit(A, q, sqrt);
      ParallelStep(A, q, sqrt);
      ConjugateSymmetric(A, QuatToMat(next));
      OffOfCoupled(D', axis);
      CoupledRun(A, axis, next, n - 1, sqrt);
      PowerNonnegative(0.4, n - 1);
      ScalePower(0.4, Power(0.4, n - 1), Power(0.4, n), Off(D'), Off(D), Off(Rotated(A, Run(A, q, n, sqrt))));
    } else {
      StopsBelow(Power(0.4, n), Off(D), n);
    }
  }

  lemma {:induction false} PowerNonnegative(r: real, n: nat)
    requires r >= 0.0
    ensures Power(r, n) >= 0.0
  {
    if n != 0 {
      PowerNonnegative(r, n - 1);
      MulNonnegative(r, Power(r, n - 1));
    }
  }

  lemma ScalePower(r: real, p: real, p': real, off': real, off: real, last: real)
    requires p >= 0.0 && p' == Times(r, p) && off' <= Times(r, off) && last <= Times(p, off')
    ensures last <= Times(p', off)
  {
    MulOrder(p, off', Times(r, off));
    assert p * Times(r, off) == Times(Times(r, p), off);
  }

  lemma StopsBelow(p: real, off: real, n: nat)
    requires (n == 0 && p == 1.0) || off == 0.0
    ensures off <= Times(p, off)
  {}
}
