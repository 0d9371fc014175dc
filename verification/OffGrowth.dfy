/** Passes that do not start from parallel pairs: no bound on what they leave off the diagonal. */
module OffGrowth {
  import opened Reals
  import opened Matrix3
  import opened Quaternion
  import opened JacobiRotation
  import opened JacobiStep
  import opened JacobiConvergence
  import opened UpdateOrder
  import opened AxisTurn
  import opened UpdateTilt
  import opened SpikeGrowth

  // ----- how far a pass tilts the axis

  lemma RelativeStretch(q: Quat, k: real, p: Quat, axis: Axis)
    ensures SqNorm(Second(Relative(q, Stretch(k, p)), axis)) == Sq(k) * SqNorm(Second(Relative(q, p), axis))
  {
    ProductStretch(Conj(q), k, p);
    StretchSecond(k, Relative(q, p), axis);
  }

  lemma ProductStretch(q: Quat, k: real, p: Quat)
    ensures Product(q, Stretch(k, p)) == Stretch(k, Product(q, p))
  {
    PartStretch(q.x, q.y, q.z, q.w, p.x, p.y, p.z, p.w, k);
    PartStretch(q.y, q.z, q.x, q.w, p.y, p.z, p.x, p.w, k);
    PartStretch(q.z, q.x, q.y, q.w, p.z, p.x, p.y, p.w, k);
  }

  lemma PartStretch(a: real, b: real, c: real, d: real, x: real, y: real, z: real, w: real, k: real)
    ensures VectorPart(a, b, c, d, Times(k, x), Times(k, y), Times(k, z), Times(k, w))
         == Times(k, VectorPart(a, b, c, d, x, y, z, w))
    ensures ScalarPart(a, b, c, d, Times(k, x), Times(k, y), Times(k, z), Times(k, w))
         == Times(k, ScalarPart(a, b, c, d, x, y, z, w))
  {}

  lemma StretchSecond(k: real, r: Quat, axis: Axis)
    ensures SqNorm(Second(Stretch(k, r), axis)) == Sq(k) * SqNorm(Second(r, axis))
  {
    StretchPair(k, Second(r, axis).lead, Second(r, axis).trail);
    NegatedTimes(k, r.z);
  }

  lemma StretchPair(k: real, x: real, y: real)
    ensures Times(k, x) * Times(k, x) + Times(k, y) * Times(k, y) == Sq(k) * (x * x + y * y)
  {}

  /** The squared tilt of a pass: positive unless the pairs are parallel, and never large. */
  lemma PassTilt(q: Quat, axis: Axis, h: real, w: real, sqrt: real -> real) returns (xi: real)
    requires IsSqrt(sqrt) && NormSq(q) == 1.0 && UnitPair(h, w) && h != 0.0 && w > 0.0 && Slack(h, w) <= 0.1
    ensures NormSq(InPlace(q, AxisQuat(axis, h, w))) > 0.0
    ensures xi == SqNorm(Second(Relative(q, Normalise(InPlace(q, AxisQuat(axis, h, w)), sqrt)), axis))
    ensures 0.0 <= xi <= 0.0625 && (xi > 0.0 <==> !Parallel(q, axis))
  {
    var u := InPlace(q, AxisQuat(axis, h, w));
    InPlaceNonzero(q, axis, h, w);
    NormaliseUnit(u, sqrt);
    LengthPositive(NormSq(u), sqrt);
    var m := sqrt(NormSq(u));
    RelativeStretch(q, 1.0 / m, u, axis);
    TiltIs(q, axis, h, w);
    UpdateLarge(q, axis, h, w);
    CrossSmall(q, axis);
    SlackPositive(h, w);
    xi := SqNorm(Second(Relative(q, Normalise(u, sqrt)), axis));
    TiltOfLength(m, NormSq(u), Cross(q, axis), Slack(h, w), xi);
  }

  lemma TiltOfLength(m: real, n: real, cross: real, slack: real, xi: real)
    requires m > 0.0 && m * m == n && n >= 0.4 && Sq(cross) <= 0.25 && 0.0 < slack <= 0.1
    requires xi == Sq(1.0 / m) * (Sq(cross) * slack)
    ensures 0.0 <= xi <= 0.0625 && (xi > 0.0 <==> cross != 0.0)
  {
    InverseSquare(m, n);
    TiltRange(Sq(1.0 / m), n, cross, slack, xi);
  }

  lemma TiltRange(kk: real, n: real, cross: real, slack: real, xi: real)
    requires kk * n == 1.0 && n >= 0.4 && Sq(cross) <= 0.25 && 0.0 < slack <= 0.1
    requires xi == kk * (Sq(cross) * slack)
    ensures 0.0 <= xi <= 0.0625 && (xi > 0.0 <==> cross != 0.0)
  {
    if kk <= 0.0 { MulNonnegative(-kk, n); }
    CancelOrder(n, kk, 2.5);
    SqNonnegative(cross);
    var z := Sq(cross) * slack;
    MulOrder(Sq(cross), slack, 0.1);
    MulNonnegative(Sq(cross), slack);
    MulOrder(kk, z, 0.025);
    MulNonnegative(kk, z);
    if cross != 0.0 {
      SquarePositive(cross, Sq(cross));
      MulPositive(Sq(cross), slack);
      MulPositive(kk, z);
    }
  }

  lemma SlackPositive(h: real, w: real)
    requires UnitPair(h, w) && h != 0.0 && w > 0.0
    ensures Slack(h, w) > 0.0
  {
    SquarePositive(h, Sq(h));
    SquareOrder(1.0, w);
    MulPositive(Sq(h), 2.0 - 2.0 * w);
  }

  lemma CrossSmall(q: Quat, axis: Axis)
    requires NormSq(q) == 1.0
    ensures Sq(Cross(q, axis)) <= 0.25
  {
    var f, s := First(q, axis), Second(q, axis);
    Split(q, axis);
    CrossScalars(f.lead, f.trail, s.lead, s.trail);
  }

  lemma CrossScalars(a: real, b: real, c: real, d: real)
    requires a * a + b * b + (c * c + d * d) == 1.0
    ensures Sq(a * d - b * c) <= 0.25
  {
    var m, n := a * a + b * b, c * c + d * d;
    assert Sq(a * d - b * c) + Sq(a * c + b * d) == m * n;
    SqNonnegative(a * c + b * d);
    SqNonnegative(m - n);
    assert 4.0 * (m * n) == Sq(m + n) - Sq(m - n);
  }

  lemma UpdateLarge(q: Quat, axis: Axis, h: real, w: real)
    requires NormSq(q) == 1.0 && UnitPair(h, w) && w > 0.0 && Slack(h, w) <= 0.1
    ensures NormSq(InPlace(q, AxisQuat(axis, h, w))) >= 0.4
  {
    var u, p := InPlace(q, AxisQuat(axis, h, w)), Product(q, AxisQuat(axis, h, w));
    UpdateError(q, axis, h, w);
    ProductUnit(q, axis, h, w);
    NormNear(u, p);
  }

  lemma NormNear(u: Quat, p: Quat)
    ensures NormSq(u) >= 0.5 * NormSq(p) - NormSq(Difference(u, p))
  {
    var d := Difference(u, p);
    HalfSquare(d.x, p.x, u.x);
    HalfSquare(d.y, p.y, u.y);
    HalfSquare(d.z, p.z, u.z);
    HalfSquare(d.w, p.w, u.w);
  }

  // ----- no bound without parallel pairs

  /** The symmetric matrix whose only entries are the one the axis pivots on, set to 1, and its mirror image. */
  function Coupler(axis: Axis): Mat3 {
    match axis
    case XAxis => Mat3(Vec3(0.0, 0.0, 0.0), Vec3(0.0, 0.0, 1.0), Vec3(0.0, 1.0, 0.0))
    case YAxis => Mat3(Vec3(0.0, 0.0, 1.0), Vec3(0.0, 0.0, 0.0), Vec3(1.0, 0.0, 0.0))
    case ZAxis => Mat3(Vec3(0.0, 1.0, 0.0), Vec3(1.0, 0.0, 0.0), Vec3(0.0, 0.0, 0.0))
  }

  lemma CouplerFacts(axis: Axis, k: real)
    ensures var D := Add(Coupler(axis), Spike(axis, k));
      && Symmetric(D) && Off(D) == 2.0
      && Pivot(D) == Some(axis) && OffEntry(D, axis) == 1.0 && Theta(D, axis) == 0.0
  {
    var D := Add(Coupler(axis), Spike(axis, k));
    CouplerEntries(axis, k);
    CouplerSymmetric(axis, k);
    OnlyEntry(D, axis);
  }

  lemma CouplerEntries(axis: Axis, k: real)
    ensures var D := Add(Coupler(axis), Spike(axis, k));
      && Pivot(D) == Some(axis) && OffEntry(D, axis) == 1.0 && Spread(D, axis) == 0.0
      && (forall other: Axis :: other != axis ==> OffEntry(D, other) == 0.0)
  {}

  lemma CouplerSymmetric(axis: Axis, k: real)
    ensures Symmetric(Add(Coupler(axis), Spike(axis, k)))
  {}

  lemma CouplerSquares(axis: Axis)
    ensures SumSq(Coupler(axis)) == 2.0
  {
    CouplerAlone(axis);
    OnlyEntry(Coupler(axis), axis);
    NoDiagonal(Coupler(axis));
  }

  lemma CouplerAlone(axis: Axis)
    ensures var C := Coupler(axis);
      && Symmetric(C) && OffEntry(C, axis) == 1.0 && C.r0.x == 0.0 && C.r1.y == 0.0 && C.r2.z == 0.0
      && (forall other: Axis :: other != axis ==> OffEntry(C, other) == 0.0)
  {}

  lemma NoDiagonal(M: Mat3)
    requires M.r0.x == 0.0 && M.r1.y == 0.0 && M.r2.z == 0.0
    ensures SumSq(M) == Off(M)
  {}

  lemma OnlyEntry(D: Mat3, axis: Axis)
    requires Symmetric(D) && OffEntry(D, axis) == 1.0 && Spread(D, axis) == 0.0
    requires forall other: Axis :: other != axis ==> OffEntry(D, other) == 0.0
    ensures Off(D) == 2.0 && Theta(D, axis) == 0.0
  {
    assert OffEntry(D, XAxis) == D.r1.z && OffEntry(D, YAxis) == D.r0.z && OffEntry(D, ZAxis) == D.r0.y;
  }

  /** Every symmetric matrix is what the loop sees at q for some input. */
  lemma Reached(D: Mat3, q: Quat)
    requires NormSq(q) == 1.0 && Symmetric(D)
    ensures Symmetric(Rotated(D, Conj(q))) && Rotated(Rotated(D, Conj(q)), q) == D
  {
    var Q := QuatToMat(q);
    UnitOrthogonal(q);
    ConjIsTranspose(q);
    ConjugateSymmetric(D, Transpose(Q));
    ConjugateMul(D, Transpose(Q), Q);
    assert Transpose(IDENTITY) == IDENTITY;
    MulIdentity(D);
    MulIdentity(Mul(D, IDENTITY));
  }

  /** From a quaternion whose pairs are not parallel, one pass can multiply the off-diagonal sum of squares by more than
      any given factor. */
  lemma NoBound(q: Quat, axis: Axis, factor: real, sqrt: real -> real) returns (A: Mat3)
    requires IsSqrt(sqrt) && NormSq(q) == 1.0 && !Parallel(q, axis)
    ensures Symmetric(A) && Pivot(Rotated(A, q)) == Some(axis)
    ensures Off(Rotated(A, Step(A, q, sqrt))) > Times(factor, Off(Rotated(A, q)))
  {
    var h := HalfSine(0.0, Cosine(Tangent(0.0, sqrt), sqrt), sqrt);
    AngleSlack(0.0, sqrt);
    HalfAngleFacts(0.0, sqrt);
    var next, xi := Normalised(q, axis, h, HalfCosine(h, sqrt), sqrt);
    var k := Large(factor, xi);
    var D := Add(Coupler(axis), Spike(axis, k));
    CouplerFacts(axis, k);
    A := Rotated(D, Conj(q));
    Reached(D, q);
    CouplerStep(A, q, axis, k, sqrt);
    CouplerOff(A, q, axis, k, next, xi);
  }

  lemma CouplerOff(A: Mat3, q: Quat, axis: Axis, k: real, next: Quat, xi: real)
    requires NormSq(q) == 1.0 && NormSq(next) == 1.0 && Rotated(A, q) == Add(Coupler(axis), Spike(axis, k))
    requires xi == SqNorm(Second(Relative(q, next), axis)) && 0.0 <= xi <= 0.0625
    ensures Off(Rotated(A, next)) >= Times(Sq(k), 2.0 * xi) - 2.0
  {
    CouplerSquares(axis);
    RelativeUnit(q, next);
    SpikeGrows(Coupler(axis), axis, k, Relative(q, next), xi);
    RotatedRelative(A, q, next);
  }

  lemma CouplerStep(A: Mat3, q: Quat, axis: Axis, k: real, sqrt: real -> real)
    requires IsSqrt(sqrt) && NormSq(q) == 1.0 && Rotated(A, q) == Add(Coupler(axis), Spike(axis, k))
    ensures var h := HalfSine(0.0, Cosine(Tangent(0.0, sqrt), sqrt), sqrt);
      NormSq(InPlace(q, AxisQuat(axis, h, HalfCosine(h, sqrt)))) > 0.0
      && Step(A, q, sqrt) == Normalise(InPlace(q, AxisQuat(axis, h, HalfCosine(h, sqrt))), sqrt)
  {
    CouplerFacts(axis, k);
    RotationFacts(Rotated(A, q), sqrt);
    UpdateNonzero(q, Rotated(A, q), sqrt);
  }

  lemma Normalised(q: Quat, axis: Axis, h: real, w: real, sqrt: real -> real) returns (next: Quat, xi: real)
    requires IsSqrt(sqrt) && NormSq(q) == 1.0 && !Parallel(q, axis)
    requires UnitPair(h, w) && h != 0.0 && w > 0.0 && Slack(h, w) <= 0.1
    ensures NormSq(InPlace(q, AxisQuat(axis, h, w))) > 0.0
    ensures next == Normalise(InPlace(q, AxisQuat(axis, h, w)), sqrt) && NormSq(next) == 1.0
    ensures xi == SqNorm(Second(Relative(q, next), axis)) && 0.0 < xi <= 0.0625
  {
    xi := PassTilt(q, axis, h, w, sqrt);
    next := Normalise(InPlace(q, AxisQuat(axis, h, w)), sqrt);
    NormaliseUnit(InPlace(q, AxisQuat(axis, h, w)), sqrt);
  }

  lemma Large(factor: real, xi: real) returns (k: real)
    requires xi > 0.0
    ensures Times(Sq(k), 2.0 * xi) - 2.0 > Times(factor, 2.0)
  {
    k := (Abs(factor) + 1.0) / xi + 1.0;
    assert xi * (k - 1.0) == Abs(factor) + 1.0;
    if k < 1.0 { MulPositive(xi, 1.0 - k); }
    MulOrder(k, 1.0, k);
    MulOrder(xi, k, Sq(k));
  }

  /** The pass from q, when it pivots on the axis, multiplies the off-diagonal sum of squares by at most the factor. */
  ghost predicate PassAtMost(A: Mat3, q: Quat, axis: Axis, factor: real, sqrt: real -> real)
    requires IsSqrt(sqrt) && NormSq(q) == 1.0
  {
    Symmetric(A) && Pivot(Rotated(A, q)) == Some(axis) ==>
      Off(Rotated(A, Step(A, q, sqrt))) <= Times(factor, Off(Rotated(A, q)))
  }

  /** A pass from q about the axis is bounded over all inputs if and only if the pairs of q are parallel, and then it is
      a contraction. */
  lemma PassBoundedIff(q: Quat, axis: Axis, factor: real, sqrt: real -> real)
    requires IsSqrt(sqrt) && NormSq(q) == 1.0 && factor >= 4.0 / 5.0
    ensures (forall A: Mat3 :: PassAtMost(A, q, axis, factor, sqrt)) <==> Parallel(q, axis)
  {
    if Parallel(q, axis) {
      forall A: Mat3
        ensures PassAtMost(A, q, axis, factor, sqrt)
      {
        if Symmetric(A) && Pivot(Rotated(A, q)) == Some(axis) {
          ParallelStep(A, q, sqrt);
          OffNonnegative(Rotated(A, q));
          MulOrder(Off(Rotated(A, q)), 4.0 / 5.0, factor);
        }
      }
    } else {
      var A := NoBound(q, axis, factor, sqrt);
      assert !PassAtMost(A, q, axis, factor, sqrt);
    }
  }

  lemma OffNonnegative(D: Mat3)
    ensures Off(D) >= 0.0
  {
    SqNonnegative(D.r0.y);
    SqNonnegative(D.r0.z);
    SqNonnegative(D.r1.x);
    SqNonnegative(D.r1.z);
    SqNonnegative(D.r2.x);
    SqNonnegative(D.r2.y);
  }
}
