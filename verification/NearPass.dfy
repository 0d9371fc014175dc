/** A pass from any unit quaternion, compared with the rotation it should apply. Where the spread is large against the
    pivot the pass contracts. */
module NearPass {
  import opened Reals
  import opened Matrix3
  import opened Quaternion
  import opened JacobiRotation
  import opened JacobiStep
  import opened JacobiConvergence
  import opened UpdateOrder
  import opened AxisTurn
  import opened UpdateTilt
  import opened OffGrowth
  import opened CirclePass
  import opened CoupledStates
  import opened MatrixDistance

  // ----- quaternions that are close

  /** The rotation from p to u is no larger than their difference. */
  lemma RelativeNear(p: Quat, u: Quat)
    requires NormSq(p) == 1.0
    ensures VectorSq(Relative(p, u)) <= NormSq(Difference(u, p))
  {
    var e := Difference(u, p);
    SamePart(p.x, p.y, p.z, p.w, u.x, u.y, u.z, u.w);
    SamePart(p.y, p.z, p.x, p.w, u.y, u.z, u.x, u.w);
    SamePart(p.z, p.x, p.y, p.w, u.z, u.x, u.y, u.w);
    ProductNorm(Conj(p), e);
    ConjNorm(p);
    SqNonnegative(Relative(p, e).w);
  }

  lemma ConjNorm(p: Quat)
    ensures NormSq(Conj(p)) == NormSq(p)
  {
    NegatedSquare(p.x);
    NegatedSquare(p.y);
    NegatedSquare(p.z);
  }

  lemma SamePart(a: real, b: real, c: real, d: real, x: real, y: real, z: real, w: real)
    ensures VectorPart(-a, -b, -c, d, x, y, z, w) == VectorPart(-a, -b, -c, d, x - a, y - b, z - c, w - d)
  {}

  lemma NormAbove(u: Quat, p: Quat)
    ensures NormSq(u) >= 0.99 * NormSq(p) - 99.0 * NormSq(Difference(u, p))
  {
    var e := Difference(u, p);
    NearSquare(e.x, p.x, u.x);
    NearSquare(e.y, p.y, u.y);
    NearSquare(e.z, p.z, u.z);
    NearSquare(e.w, p.w, u.w);
  }

  lemma NearSquare(x: real, y: real, z: real)
    requires z == x + y
    ensures z * z >= 0.99 * (y * y) - 99.0 * (x * x)
  {
    SqNonnegative(10.0 * x + 0.1 * y);
    assert z * z - 0.99 * (y * y) + 99.0 * (x * x) == Sq(10.0 * x + 0.1 * y);
  }

  lemma VectorStretch(k: real, r: Quat)
    ensures VectorSq(Stretch(k, r)) == Times(Sq(k), VectorSq(r))
  {
    StretchVector(k, r.x, r.y, r.z);
  }

  lemma StretchVector(k: real, x: real, y: real, z: real)
    ensures Times(k, x) * Times(k, x) + Times(k, y) * Times(k, y) + Times(k, z) * Times(k, z)
         == Times(Sq(k), x * x + y * y + z * z)
  {}

  /** The update against the product, after normalisation: the turn between them is of the second order in h. */
  lemma UpdateNear(q: Quat, axis: Axis, h: real, w: real, sqrt: real -> real)
    requires IsSqrt(sqrt) && NormSq(q) == 1.0 && UnitPair(h, w) && 0.0 <= w && Sq(h) <= 0.0092
    ensures var p, u := Product(q, AxisQuat(axis, h, w)), InPlace(q, AxisQuat(axis, h, w));
      && NormSq(p) == 1.0 && NormSq(u) > 0.0 && NormSq(Relative(p, Normalise(u, sqrt))) == 1.0
      && VectorSq(Relative(p, Normalise(u, sqrt))) <= 1.03 * Sq(Sq(h))
  {
    var p, u := Product(q, AxisQuat(axis, h, w)), InPlace(q, AxisQuat(axis, h, w));
    ProductUnit(q, axis, h, w);
    UpdateError(q, axis, h, w);
    SlackSharp(h, w);
    RelativeNear(p, u);
    NormAbove(u, p);
    LongEnough(Sq(h), NormSq(Difference(u, p)), NormSq(u));
    SqNonnegative(Sq(h));
    NormalisedNear(p, u, Sq(Sq(h)), sqrt);
  }

  lemma NormalisedNear(p: Quat, u: Quat, bound: real, sqrt: real -> real)
    requires IsSqrt(sqrt) && NormSq(p) == 1.0 && NormSq(u) >= 0.98
    requires bound >= 0.0 && VectorSq(Relative(p, u)) <= 1.006 * bound
    ensures NormSq(Relative(p, Normalise(u, sqrt))) == 1.0 && VectorSq(Relative(p, Normalise(u, sqrt))) <= 1.03 * bound
  {
    NormaliseUnit(u, sqrt);
    RelativeUnit(p, Normalise(u, sqrt));
    LengthPositive(NormSq(u), sqrt);
    InverseSquare(sqrt(NormSq(u)), NormSq(u));
    StretchedNear(p, u, 1.0 / sqrt(NormSq(u)), NormSq(u), bound);
  }

  lemma StretchedNear(p: Quat, u: Quat, k: real, n: real, bound: real)
    requires k * k * n == 1.0 && n >= 0.98 && bound >= 0.0 && VectorSq(Relative(p, u)) <= 1.006 * bound
    ensures VectorSq(Relative(p, Stretch(k, u))) <= 1.03 * bound
  {
    ProductStretch(Conj(p), k, u);
    VectorStretch(k, Relative(p, u));
    ShortenedBy(k, n, VectorSq(Relative(p, u)), bound);
  }

  lemma ShortenedBy(k: real, n: real, v: real, bound: real)
    requires k * k * n == 1.0 && n >= 0.98 && v <= 1.006 * bound && bound >= 0.0
    ensures Times(Sq(k), v) <= 1.03 * bound
  {
    Shortened(k * k, n, v, bound);
  }

  lemma SlackSharp(h: real, w: real)
    requires UnitPair(h, w) && 0.0 <= w && Sq(h) <= 0.0092
    ensures Slack(h, w) <= 1.006 * Sq(Sq(h))
  {
    SqNonnegative(h);
    SquareOrder(0.99, w);
    SquareOrder(w, 1.0);
    MulNonnegative(1.0 - w, w - 0.99);
    assert 2.0 - 2.0 * w <= 1.006 * Sq(h);
    MulOrder(Sq(h), 2.0 - 2.0 * w, 1.006 * Sq(h));
  }

  lemma LongEnough(k: real, e: real, n: real)
    requires 0.0 <= k <= 0.0092 && e <= 1.006 * Sq(k) && n >= 0.99 - 99.0 * e
    ensures n >= 0.98
  {
    SquareOrder(k, 0.0092);
  }

  lemma Shortened(kk: real, n: real, v: real, bound: real)
    requires kk * n == 1.0 && n >= 0.98 && v <= 1.006 * bound && bound >= 0.0
    ensures kk * v <= 1.03 * bound
  {
    if kk <= 0.0 { MulNonnegative(-kk, n); }
    MulOrder(kk, 0.98, n);
    MulOrder(kk, v, 1.006 * bound);
    MulNonnegative(bound, 1.0 - 0.98 * kk);
  }

  // ----- matrices that are close

  /** A rotation moves a matrix no further than its quaternion's vector part is long. */
  lemma RotationNear(D: Mat3, g: Quat, bound: real)
    requires NormSq(g) == 1.0 && VectorSq(g) <= bound
    ensures SumSq(Sub(Conjugate(D, QuatToMat(g)), D)) <= 32.0 * Times(bound, SumSq(D))
  {
    UnitOrthogonal(g);
    TurnDistance(g);
    ConjugateNear(D, QuatToMat(g));
    SumSqNonnegative(D);
    EightTimes(SumSq(D), VectorSq(g), bound);
  }

  lemma EightTimes(s: real, v: real, bound: real)
    requires s >= 0.0 && v <= bound
    ensures Times(8.0 * v, s) <= 8.0 * Times(bound, s)
  {
    MulOrder(s, v, bound);
  }

  lemma SameSquares(A: Mat3, q: Quat)
    requires NormSq(q) == 1.0
    ensures SumSq(Rotated(A, q)) == SumSq(A)
  {
    UnitOrthogonal(q);
    ConjugateSumSq(A, QuatToMat(q));
  }

  lemma RotatedProduct(A: Mat3, q: Quat, r: Quat)
    ensures Rotated(A, Product(q, r)) == Conjugate(Rotated(A, q), QuatToMat(r))
  {
    ProductIsMul(q, r);
    ConjugateMul(A, QuatToMat(q), QuatToMat(r));
  }

  /** The matrix a pass starts from, the one the product leads to and the one the update leads to. */
  lemma PassDistances(A: Mat3, q: Quat, axis: Axis, h: real, w: real, sqrt: real -> real)
    requires IsSqrt(sqrt) && NormSq(q) == 1.0 && UnitPair(h, w) && 0.0 <= w && Sq(h) <= 0.0092
    requires NormSq(InPlace(q, AxisQuat(axis, h, w))) > 0.0
    ensures var D, E := Rotated(A, q), Rotated(A, Product(q, AxisQuat(axis, h, w)));
      var D' := Rotated(A, Normalise(InPlace(q, AxisQuat(axis, h, w)), sqrt));
      && SumSq(Sub(E, D)) <= 32.0 * Times(Sq(h), SumSq(A))
      && SumSq(Sub(D', E)) <= 32.0 * Times(1.03 * Sq(Sq(h)), SumSq(A))
  {
    var r := AxisQuat(axis, h, w);
    var p, u := Product(q, r), Normalise(InPlace(q, r), sqrt);
    SameSquares(A, q);
    RotatedProduct(A, q, r);
    AxisUnit(axis, h, w);
    AxisVector(axis, h, w);
    RotationNear(Rotated(A, q), r, Sq(h));
    UpdateNear(q, axis, h, w, sqrt);
    SameSquares(A, p);
    RotatedRelative(A, p, u);
    RotationNear(Rotated(A, p), Relative(p, u), 1.03 * Sq(Sq(h)));
  }

  lemma AxisVector(axis: Axis, h: real, w: real)
    ensures VectorSq(AxisQuat(axis, h, w)) == Sq(h)
  {}

  /** What the intended rotation takes off the diagonal, on both branches of theta. */
  lemma IntendedOff(A: Mat3, q: Quat, axis: Axis, theta: real, t: real, c: real, h: real, w: real)
    requires Symmetric(A) && PassAngle(theta, t, c, h, w)
    requires Spread(Rotated(A, q), axis) == 2.0 * theta * OffEntry(Rotated(A, q), axis)
    ensures UnitPair(h, w) && 0.92 <= w <= 1.0
    ensures Off(Rotated(A, Product(q, AxisQuat(axis, h, w))))
         <= Off(Rotated(A, q)) - 1.99 * Sq(OffEntry(Rotated(A, q), axis))
  {
    var D := Rotated(A, q);
    var o := OffEntry(D, axis);
    AngleRange(t, c, h, w);
    IntendedLeft(theta, t, c, h, w, o, Spread(D, axis), Residue(theta, t, c));
    TurnOff(A, q, axis, h, w);
    ResidueTiny(theta, t, c, h, w, o);
  }

  lemma ResidueTiny(theta: real, t: real, c: real, h: real, w: real, o: real)
    requires PassAngle(theta, t, c, h, w)
    ensures 2.0 * Sq(-Times(Residue(theta, t, c), o)) <= 0.01 * Sq(o)
  {
    var kappa := Residue(theta, t, c);
    AngleRange(t, c, h, w);
    SquareOrder(0.7, c);
    CosineBelow(t, c);
    if Abs(theta) >= EXACT_LIMIT {
      SquarePositive(h, h * h);
      TinyAngle(t, c, h, w, h * h, kappa);
    }
    TinyTimes(kappa, o);
  }

  lemma TinyTimes(kappa: real, o: real)
    requires 0.0 <= kappa <= 0.000001
    ensures 2.0 * Sq(-Times(kappa, o)) <= 0.01 * Sq(o)
  {
    SqNonnegative(o);
    SquareOrder(kappa, 0.000001);
    SquareProduct(kappa, o);
    NegatedSquare(Times(kappa, o));
    MulOrder(Sq(o), Sq(kappa), 0.001);
  }

  lemma CosineBelow(t: real, c: real)
    requires c > 0.0 && c * c * (1.0 + t * t) == 1.0
    ensures c <= 1.0
  {
    SqNonnegative(t);
    MulNonnegative(Sq(c), Sq(t));
    SquareOrder(c, 1.0);
  }

  // ----- the contraction

  /** The spread of the pivot is large: its square is at least eight times the pivot times the size of the matrix. */
  predicate LargeSpreadFor(D: Mat3, axis: Axis) {
    Sq(Sq(Spread(D, axis))) >= 64.0 * Times(Sq(OffEntry(D, axis)), SumSq(D))
  }

  /** A spread moves little: by 3.4 times what is off the diagonal, against the spread of the pivot. */
  predicate SpreadMoves(D: Mat3, D': Mat3, pivot: Axis, axis: Axis) {
    Times(Sq(Spread(D', axis) - Spread(D, axis)), Sq(Spread(D, pivot))) <= 11.56 * Times(Off(D), SumSq(D))
  }

  /** A large spread makes the angle small. */
  lemma SmallAngle(D: Mat3, axis: Axis, k: real)
    requires LargeSpreadFor(D, axis) && AngleFits(D, axis, k)
    ensures k <= 0.0092
  {
    SpreadBelow(D, axis);
    EntryInSquares(D, axis);
    SqNonnegative(Spread(D, axis));
    SmallScalars(Sq(OffEntry(D, axis)), Sq(Spread(D, axis)), SumSq(D), k);
  }

  lemma AngleAgainstSpread(theta: real, t: real, c: real, h: real, w: real, o: real, d: real)
    requires PassAngle(theta, t, c, h, w) && d == 2.0 * theta * o
    ensures 3.4 * Times(Sq(h), Sq(d)) <= Sq(o)
  {
    TangentTimesSpread(theta, t, o, d);
    HalfOfTangent(t, c, h, w);
    SineTimesSpread(t, h, Sq(h), o, d);
  }

  lemma EntryInSquares(D: Mat3, axis: Axis)
    ensures Sq(OffEntry(D, axis)) <= SumSq(D)
  {
    SqNonnegative(D.r0.x); SqNonnegative(D.r0.y); SqNonnegative(D.r0.z);
    SqNonnegative(D.r1.x); SqNonnegative(D.r1.y); SqNonnegative(D.r1.z);
    SqNonnegative(D.r2.x); SqNonnegative(D.r2.y); SqNonnegative(D.r2.z);
  }

  lemma SmallScalars(o: real, d: real, s: real, k: real)
    requires 0.0 < o <= s && 0.0 <= d <= 2.0 * s && Sq(d) >= 64.0 * Times(o, s) && 3.4 * Times(k, d) <= o && k >= 0.0
    ensures d >= 32.0 * o && k <= 0.0092
  {
    MulOrder(o, d, 2.0 * s);
    assert Sq(d) >= d * (32.0 * o);
    MulPositive(o, s);
    if d < 32.0 * o && d > 0.0 { MulPositive(d, 32.0 * o - d); }
    MulOrder(k, 32.0 * o, d);
    CancelOrder(o, 108.8 * k, 1.0);
  }

  /** From any unit quaternion a pass whose spread is large leaves at most five sixths of the off-diagonal sum, and
      moves no spread far. */
  lemma NearStep(A: Mat3, q: Quat, pivot: Axis, sqrt: real -> real)
    requires Symmetric(A) && IsSqrt(sqrt) && NormSq(q) == 1.0 && Pivot(Rotated(A, q)) == Some(pivot)
    requires LargeSpreadFor(Rotated(A, q), pivot)
    ensures var D, D' := Rotated(A, q), Rotated(A, Step(A, q, sqrt));
      Off(D') <= 5.0 / 6.0 * Off(D) && forall axis: Axis :: SpreadMoves(D, D', pivot, axis)
  {
    var E, k := PassParts(A, q, pivot, sqrt);
    LargestShare(A, q, pivot);
    Outcome(Rotated(A, q), E, Rotated(A, Step(A, q, sqrt)), pivot, k);
  }

  lemma PassParts(A: Mat3, q: Quat, pivot: Axis, sqrt: real -> real) returns (E: Mat3, k: real)
    requires Symmetric(A) && IsSqrt(sqrt) && NormSq(q) == 1.0 && Pivot(Rotated(A, q)) == Some(pivot)
    ensures AngleFits(Rotated(A, q), pivot, k)
    ensures k <= 0.0092 ==> PassFits(Rotated(A, q), E, Rotated(A, Step(A, q, sqrt)), pivot, k)
  {
    var theta, t, c, h, w := PassAngles(Rotated(A, q), pivot, sqrt);
    E, k := A, Sq(h);
    if k <= 0.0092 {
      E := TurnedAndUpdated(A, q, pivot, theta, t, c, h, w, sqrt);
    }
  }

  lemma Outcome(D: Mat3, E: Mat3, D': Mat3, pivot: Axis, k: real)
    requires Symmetric(D) && LargeSpreadFor(D, pivot) && AngleFits(D, pivot, k)
    requires k <= 0.0092 ==> PassFits(D, E, D', pivot, k)
    requires Off(D) <= 6.0 * Sq(OffEntry(D, pivot))
    ensures Off(D') <= 5.0 / 6.0 * Off(D) && forall axis: Axis :: SpreadMoves(D, D', pivot, axis)
  {
    SmallAngle(D, pivot, k);
    OffAfter(D, E, D', pivot, k);
    forall axis: Axis ensures SpreadMoves(D, D', pivot, axis) {
      SpreadAfter(D, E, D', pivot, axis, k);
    }
  }

  /** k is the square of the half-angle sine; pivot and spread bound it. */
  predicate AngleFits(D: Mat3, pivot: Axis, k: real) {
    && k >= 0.0 && Sq(OffEntry(D, pivot)) > 0.0
    && 3.4 * Times(k, Sq(Spread(D, pivot))) <= Sq(OffEntry(D, pivot))
  }

  /** D is turned into E as intended, and D' misses E. */
  predicate PassFits(D: Mat3, E: Mat3, D': Mat3, pivot: Axis, k: real) {
    && Off(E) <= Off(D) - 1.99 * Sq(OffEntry(D, pivot))
    && SumSq(Sub(E, D)) <= 32.0 * Times(k, SumSq(D))
    && SumSq(Sub(D', E)) <= 32.0 * Times(1.03 * Sq(k), SumSq(D))
  }

  lemma LargestShare(A: Mat3, q: Quat, pivot: Axis)
    requires Symmetric(A) && Pivot(Rotated(A, q)) == Some(pivot)
    ensures Symmetric(Rotated(A, q)) && Off(Rotated(A, q)) <= 6.0 * Sq(OffEntry(Rotated(A, q), pivot))
  {
    PivotFacts(Rotated(A, q));
    ConjugateSymmetric(A, QuatToMat(q));
    PivotShare(Rotated(A, q), pivot);
  }

  lemma PassAngles(D: Mat3, pivot: Axis, sqrt: real -> real)
    returns (theta: real, t: real, c: real, h: real, w: real)
    requires IsSqrt(sqrt) && Pivot(D) == Some(pivot)
    ensures Spread(D, pivot) == 2.0 * theta * OffEntry(D, pivot) && AngleFits(D, pivot, Sq(h))
    ensures PassAngle(theta, t, c, h, w) && Rotation(D, sqrt) == AxisQuat(pivot, h, w)
  {
    t, c, h, w := AngleOfPass(D, sqrt);
    theta := ThetaFits(D, pivot, t, c, h, w);
  }

  lemma ThetaFits(D: Mat3, pivot: Axis, t: real, c: real, h: real, w: real) returns (theta: real)
    requires OffEntry(D, pivot) != 0.0 && PassAngle(Theta(D, pivot), t, c, h, w)
    ensures Spread(D, pivot) == 2.0 * theta * OffEntry(D, pivot) && AngleFits(D, pivot, Sq(h))
    ensures PassAngle(theta, t, c, h, w)
  {
    theta := ThetaIs(D, pivot);
    AngleAgainstSpread(theta, t, c, h, w, OffEntry(D, pivot), Spread(D, pivot));
    SquarePositive(OffEntry(D, pivot), Sq(OffEntry(D, pivot)));
    SqNonnegative(h);
  }

  lemma ThetaIs(D: Mat3, axis: Axis) returns (theta: real)
    requires OffEntry(D, axis) != 0.0
    ensures theta == Theta(D, axis) && Spread(D, axis) == 2.0 * theta * OffEntry(D, axis)
  {
    theta := ThetaOf(Spread(D, axis), OffEntry(D, axis));
  }

  lemma ThetaOf(d: real, o: real) returns (theta: real)
    requires o != 0.0
    ensures theta == d / (2.0 * o) && d == 2.0 * theta * o
  {
    Quotient(d, o);
    theta := d / (2.0 * o);
  }

  lemma TurnedAndUpdated(A: Mat3, q: Quat, pivot: Axis, theta: real, t: real, c: real, h: real, w: real,
      sqrt: real -> real)
    returns (E: Mat3)
    requires Symmetric(A) && IsSqrt(sqrt) && NormSq(q) == 1.0 && PassAngle(theta, t, c, h, w) && Sq(h) <= 0.0092
    requires Spread(Rotated(A, q), pivot) == 2.0 * theta * OffEntry(Rotated(A, q), pivot)
    requires Rotation(Rotated(A, q), sqrt) == AxisQuat(pivot, h, w)
    ensures PassFits(Rotated(A, q), E, Rotated(A, Step(A, q, sqrt)), pivot, Sq(h))
  {
    E := Rotated(A, Product(q, AxisQuat(pivot, h, w)));
    IntendedOff(A, q, pivot, theta, t, c, h, w);
    UpdateNonzero(q, Rotated(A, q), sqrt);
    PassDistances(A, q, pivot, h, w, sqrt);
    SameSquares(A, q);
  }

  lemma OffAfter(D: Mat3, E: Mat3, D': Mat3, pivot: Axis, k: real)
    requires LargeSpreadFor(D, pivot) && AngleFits(D, pivot, k) && PassFits(D, E, D', pivot, k)
    requires Off(D) <= 6.0 * Sq(OffEntry(D, pivot))
    ensures Off(D') <= 5.0 / 6.0 * Off(D)
  {
    OffNear(D', E);
    EntryInSquares(D, pivot);
    SqNonnegative(Spread(D, pivot));
    MissBelow(Sq(OffEntry(D, pivot)), Sq(Spread(D, pivot)), SumSq(D), k, SumSq(Sub(D', E)));
  }

  /** The miss of the update is small against the pivot. */
  lemma MissBelow(o: real, d: real, s: real, k: real, miss: real)
    requires 0.0 < o <= s && d >= 0.0 && k >= 0.0 && Sq(d) >= 64.0 * Times(o, s) && 3.4 * Times(k, d) <= o
    requires miss <= 32.0 * Times(1.03 * Sq(k), s)
    ensures miss <= 0.0447 * o
  {
    MulNonnegative(k, d);
    SquareOrder(3.4 * Times(k, d), o);
    var kk, os := Sq(k), Times(o, s);
    MulPositive(o, s);
    MulNonnegative(k, k);
    assert Sq(3.4 * Times(k, d)) == 11.56 * (kk * Sq(d));
    MulOrder(kk, 64.0 * os, Sq(d));
    assert 739.84 * (kk * os) <= Sq(o);
    assert kk * os == o * (kk * s);
    CancelOrder(o, 739.84 * (kk * s), o);
    assert 32.0 * Times(1.03 * kk, s) == 32.96 * (kk * s);
  }

  lemma SpreadAfter(D: Mat3, E: Mat3, D': Mat3, pivot: Axis, axis: Axis, k: real)
    requires Symmetric(D) && AngleFits(D, pivot, k) && PassFits(D, E, D', pivot, k) && k <= 0.0092
    ensures SpreadMoves(D, D', pivot, axis)
  {
    Telescope(D', E, D);
    WeightedSum(Sub(D', E), Sub(E, D));
    SpreadNear(D', D, axis);
    SumSqNonnegative(D);
    SqNonnegative(Spread(D, pivot));
    TwiceEntry(D, pivot);
    MovesScalars(k, SumSq(D), SumSq(Sub(D', E)), SumSq(Sub(E, D)), SumSq(Sub(D', D)), Sq(Spread(D, pivot)),
      Sq(OffEntry(D, pivot)), Off(D), Sq(Spread(D', axis) - Spread(D, axis)));
  }

  lemma TwiceEntry(D: Mat3, axis: Axis)
    requires Symmetric(D)
    ensures 2.0 * Sq(OffEntry(D, axis)) <= Off(D)
  {
    SqNonnegative(D.r0.y);
    SqNonnegative(D.r0.z);
    SqNonnegative(D.r1.z);
  }

  lemma MovesScalars(k: real, s: real, miss: real, turn: real, moved: real, d: real, o: real, off: real, change: real)
    requires 0.0 <= k <= 0.0092 && s >= 0.0 && d >= 0.0 && 2.0 * o <= off && 3.4 * Times(k, d) <= o
    requires miss <= 32.0 * Times(1.03 * Sq(k), s) && turn <= 32.0 * Times(k, s)
    requires moved <= 11.0 * miss + 1.1 * turn && change <= 2.0 * moved
    ensures Times(change, d) <= 11.56 * Times(off, s)
  {
    MovedBelow(k, s, miss, turn);
    MovedTimes(k, s, d, o, off, change);
  }

  lemma MovedBelow(k: real, s: real, miss: real, turn: real)
    requires 0.0 <= k <= 0.0092 && s >= 0.0
    requires miss <= 32.0 * Times(1.03 * Sq(k), s) && turn <= 32.0 * Times(k, s)
    ensures 2.0 * (11.0 * miss + 1.1 * turn) <= 77.2 * Times(k, s)
  {
    MulNonnegative(k, s);
    MulNonnegative(Times(k, s), 0.0092 - k);
    assert Times(1.03 * Sq(k), s) == 1.03 * (Times(k, s) * k);
  }

  lemma MovedTimes(k: real, s: real, d: real, o: real, off: real, change: real)
    requires k >= 0.0 && s >= 0.0 && d >= 0.0 && 2.0 * o <= off && 3.4 * Times(k, d) <= o
    requires change <= 77.2 * Times(k, s)
    ensures Times(change, d) <= 11.56 * Times(off, s)
  {
    MulNonnegative(k, d);
    MulOrder(d, change, 77.2 * Times(k, s));
    assert d * (77.2 * Times(k, s)) == 77.2 * (s * Times(k, d));
    MulOrder(s, 77.2 * Times(k, d), 11.56 * off);
  }
}
