/** sym_diagonalize for 3x3 matrices, with what holds at every exit. */
module SymDiagonalize3 {
  import opened Reals
  import opened Matrix3
  import opened Quaternion
  import opened JacobiRotation
  import opened JacobiStep

  const MAX_STEPS: nat := 24

  /** At most n further steps, stopping early when there is no pivot. */
  function Run(A: Mat3, q: Quat, n: nat, sqrt: real -> real): Quat
    requires IsSqrt(sqrt) && NormSq(q) == 1.0
    decreases n
  {
    if n == 0 || Pivot(Rotated(A, q)).None? then q
    else
      StepUnit(A, q, sqrt);
      Run(A, Step(A, q, sqrt), n - 1, sqrt)
  }

  /** The quaternion the source returns Q and D for: the last of MAX_STEPS passes does not rebuild them. */
  function Final(A: Mat3, sqrt: real -> real): Quat
    requires IsSqrt(sqrt)
  {
    Run(A, UNIT, MAX_STEPS - 1, sqrt)
  }

  lemma {:induction false} RunUnit(A: Mat3, q: Quat, n: nat, sqrt: real -> real)
    requires IsSqrt(sqrt) && NormSq(q) == 1.0
    ensures NormSq(Run(A, q, n, sqrt)) == 1.0
    decreases n
  {
    if n != 0 && Pivot(Rotated(A, q)).Some? {
      StepUnit(A, q, sqrt);
      RunUnit(A, Step(A, q, sqrt), n - 1, sqrt);
    }
  }

  /** What a rotation by any unit quaternion gives; in particular the one the source ends with. */
  lemma DecompositionExact(A: Mat3, q: Quat)
    requires Symmetric(A) && NormSq(q) == 1.0
    ensures var Q, D := QuatToMat(q), Rotated(A, q);
      && Orthogonal(Q) && Symmetric(D)
      && Mul(Mul(Q, D), Transpose(Q)) == A
      && Trace(D) == Trace(A) && SumSq(D) == SumSq(A)
  {
    var Q := QuatToMat(q);
    UnitOrthogonal(q);
    ConjugateSymmetric(A, Q);
    ConjugateInverse(A, Q);
    ConjugateTrace(A, Q);
    ConjugateSumSq(A, Q);
  }

  /** At every exit Q is orthogonal, D is Q-transposed A Q, and Q D Q-transposed is A, diagonal or not. */
  lemma FinalExact(A: Mat3, sqrt: real -> real)
    requires Symmetric(A) && IsSqrt(sqrt)
    ensures var q := Final(A, sqrt);
      var Q, D := QuatToMat(q), Rotated(A, q);
      && NormSq(q) == 1.0 && Orthogonal(Q) && Symmetric(D)
      && Mul(Mul(Q, D), Transpose(Q)) == A
      && Trace(D) == Trace(A) && SumSq(D) == SumSq(A)
  {
    RunUnit(A, UNIT, MAX_STEPS - 1, sqrt);
    DecompositionExact(A, Final(A, sqrt));
  }

  // ----- the scalar method

  ghost predicate Is3x3(M: array2<real>) { M.Length0 == 3 && M.Length1 == 3 }

  function View(M: array2<real>): Mat3
    requires Is3x3(M)
    reads M
  {
    Mat3(Vec3(M[0, 0], M[0, 1], M[0, 2]), Vec3(M[1, 0], M[1, 1], M[1, 2]), Vec3(M[2, 0], M[2, 1], M[2, 2]))
  }

  method StoreRotation(q: Quat, Q: array2<real>)
    requires Is3x3(Q)
    modifies Q
    ensures View(Q) == QuatToMat(q)
  {
    Q[0, 0], Q[1, 1], Q[2, 2] := Diag(q.x, q.y, q.z, q.w), Diag(q.y, q.z, q.x, q.w), Diag(q.z, q.x, q.y, q.w);
    Q[1, 0], Q[0, 1] := Plus(q.x, q.y, q.z, q.w), Minus(q.x, q.y, q.z, q.w);
    Q[2, 0], Q[0, 2] := Minus(q.z, q.x, q.y, q.w), Plus(q.z, q.x, q.y, q.w);
    Q[2, 1], Q[1, 2] := Plus(q.y, q.z, q.x, q.w), Minus(q.y, q.z, q.x, q.w);
  }

  /** AQ = A * Q read off the upper triangle of A, then D = Qt * AQ. */
  method StoreCongruence(A: array2<real>, Q: array2<real>, D: array2<real>)
    requires Is3x3(A) && Is3x3(Q) && Is3x3(D) && D != A && D != Q && Symmetric(View(A))
    modifies D
    ensures View(D) == Conjugate(View(A), View(Q))
  {
    ghost var a, q := View(A), View(Q);
    var c0, c1, c2 := Vec3(Q[0, 0], Q[1, 0], Q[2, 0]), Vec3(Q[0, 1], Q[1, 1], Q[2, 1]), Vec3(Q[0, 2], Q[1, 2], Q[2, 2]);
    var a0, a1, a2 := Vec3(A[0, 0], A[0, 1], A[0, 2]), Vec3(A[0, 1], A[1, 1], A[1, 2]), Vec3(A[0, 2], A[1, 2], A[2, 2]);
    var AQ0 := Vec3(Dot(c0, a0), Dot(c0, a1), Dot(c0, a2));
    var AQ1 := Vec3(Dot(c1, a0), Dot(c1, a1), Dot(c1, a2));
    var AQ2 := Vec3(Dot(c2, a0), Dot(c2, a1), Dot(c2, a2));
    D[0, 0] := Dot(AQ0, c0);
    D[0, 1] := Dot(AQ0, c1);
    D[0, 2] := Dot(AQ0, c2);
    D[1, 0] := Dot(AQ1, c0);
    D[1, 1] := Dot(AQ1, c1);
    D[1, 2] := Dot(AQ1, c2);
    D[2, 0] := Dot(AQ2, c0);
    D[2, 1] := Dot(AQ2, c1);
    D[2, 2] := Dot(AQ2, c2);
    UpperTriangle(a, q, Mat3(c0, c1, c2), Mat3(AQ0, AQ1, AQ2));
  }

  lemma UpperTriangle(A: Mat3, Q: Mat3, T: Mat3, P: Mat3)
    requires Symmetric(A) && T == Transpose(Q) && P == Mul(T, A)
    ensures Conjugate(A, Q) == Mul(P, Q)
  {
    MulAssoc(T, A, Q);
  }

  /** The pivot selection and rotation as the source's chain of selections. */
  method ChooseRotation(D: array2<real>, sqrt: real -> real) returns (jr: Quat)
    requires Is3x3(D) && IsSqrt(sqrt)
    ensures jr == Rotation(View(D), sqrt)
  {
    var m0, m1, m2 := Abs(D[1, 2]), Abs(D[0, 2]), Abs(D[0, 1]);
    var large0, large1, large2 := m0 > m1 && m0 > m2, m1 > m2 && m1 > m0, m2 > m1 && m2 > m0;
    var oLarge := if large0 then D[1, 2] else 0.0;
    oLarge := if large1 then D[0, 2] else oLarge;
    oLarge := if large2 then D[0, 1] else oLarge;
    var dDiff := if large0 then D[2, 2] - D[1, 1] else 0.0;
    dDiff := if large1 then D[0, 0] - D[2, 2] else dDiff;
    dDiff := if large2 then D[1, 1] - D[0, 0] else dDiff;
    var theta := if oLarge == 0.0 then 1.0 else dDiff / (2.0 * oLarge);
    var t := Tangent(theta, sqrt);
    var c := if oLarge == 0.0 then 1.0 else Cosine(t, sqrt);
    var h := HalfSine(theta, c, sqrt);
    var jr0, jr1, jr2 := if large0 then h else 0.0, if large1 then h else 0.0, if large2 then h else 0.0;
    var jrL := if large0 then jr0 else 0.0;
    jrL := if large1 then jr1 else jrL;
    jrL := if large2 then jr2 else jrL;
    jr := Quat(jr0, jr1, jr2, HalfCosine(jrL, sqrt));
    PivotFacts(View(D));
    if Pivot(View(D)).None? {
      SqrtIs(sqrt, 1.0, 1.0);
    }
  }

  method SymDiagonalize(A: array2<real>, Q: array2<real>, D: array2<real>, sqrt: real -> real)
    requires Is3x3(A) && Is3x3(Q) && Is3x3(D) && Q != A && D != A && D != Q
    requires Symmetric(View(A)) && IsSqrt(sqrt)
    modifies Q, D
    ensures View(Q) == QuatToMat(Final(View(A), sqrt))
    ensures View(D) == Rotated(View(A), Final(View(A), sqrt))
  {
    ghost var a := View(A);
    var q := UNIT;
    for i := 0 to MAX_STEPS
      invariant View(A) == a && NormSq(q) == 1.0
      invariant i < MAX_STEPS ==> Run(a, q, MAX_STEPS - 1 - i, sqrt) == Final(a, sqrt)
      invariant i == MAX_STEPS ==> View(Q) == QuatToMat(Final(a, sqrt)) && View(D) == Rotated(a, Final(a, sqrt))
    {
      StoreRotation(q, Q);
      StoreCongruence(A, Q, D);
      var jr := ChooseRotation(D, sqrt);
      ExitTest(View(D), sqrt);
      if jr.w == 1.0 {
        break;
      }
      q := UpdateQuaternion(a, q, jr, sqrt);
    }
  }

  method UpdateQuaternion(ghost a: Mat3, q: Quat, jr: Quat, sqrt: real -> real) returns (next: Quat)
    requires IsSqrt(sqrt) && NormSq(q) == 1.0 && jr == Rotation(Rotated(a, q), sqrt)
    ensures NormSq(next) == 1.0 && next == Step(a, q, sqrt)
  {
    UpdateNonzero(q, Rotated(a, q), sqrt);
    var q0, q1, q2, q3 := q.x, q.y, q.z, q.w;
    q0 := VectorPart(q0, q1, q2, q3, jr.x, jr.y, jr.z, jr.w);
    q1 := VectorPart(q1, q2, q0, q3, jr.y, jr.z, jr.x, jr.w);
    q2 := VectorPart(q2, q0, q1, q3, jr.z, jr.x, jr.y, jr.w);
    q3 := ScalarPart(q0, q1, q2, q3, jr.x, jr.y, jr.z, jr.w);
    assert Quat(q0, q1, q2, q3) == InPlace(q, jr);
    StepUnit(a, q, sqrt);
    LengthPositive(NormSq(InPlace(q, jr)), sqrt);
    var mq := sqrt(NormSq(Quat(q0, q1, q2, q3)));
    next := Quat(q0 / mq, q1 / mq, q2 / mq, q3 / mq);
  }
}
