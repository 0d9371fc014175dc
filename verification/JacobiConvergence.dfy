/** How the update in place compares with the rotation a Jacobi method would apply, and what it guarantees. */
module JacobiConvergence {
  import opened Reals
  import opened Matrix3
  import opened Quaternion
  import opened JacobiRotation
  import opened JacobiStep
  import opened PlaneRotation

  // ----- the rotation a Jacobi method would apply: the quaternion product

  lemma RotateAbout(A: Mat3, q: Quat, axis: Axis, h: real, w: real)
    requires Symmetric(A) && UnitPair(h, w)
    ensures ToPlane(Rotated(A, Product(q, AxisQuat(axis, h, w))), axis)
         == TurnPlane(ToPlane(Rotated(A, q), axis), TurnCos(h, w), TurnSin(h, w))
  {
    var r := AxisQuat(axis, h, w);
    ProductIsMul(q, r);
    ConjugateMul(A, QuatToMat(q), QuatToMat(r));
    AxisQuatTurns(axis, h, w);
    ConjugateSymmetric(A, QuatToMat(q));
    ConjugateTurns(Rotated(A, q), axis, TurnCos(h, w), TurnSin(h, w));
  }

  lemma OffFromPlane(D: Mat3, axis: Axis)
    requires Symmetric(D)
    ensures var p := ToPlane(D, axis); var o := OffEntry(D, axis);
      p.o == o && PlaneSpread(p) == Spread(D, axis) && Off(D) == 2.0 * Sq(o) + 2.0 * Coupling(p)
  {}

  /** A turn about the axis: the pivot entry follows the turn, and nothing else off the diagonal gains or loses. */
  lemma TurnOff(A: Mat3, q: Quat, axis: Axis, h: real, w: real)
    requires Symmetric(A) && UnitPair(h, w)
    ensures var D, D' := Rotated(A, q), Rotated(A, Product(q, AxisQuat(axis, h, w)));
      var o, o' := OffEntry(D, axis), OffEntry(D', axis);
      && o' == TurnedEntry(o, Spread(D, axis), TurnCos(h, w), TurnSin(h, w))
      && Energy(o', Spread(D', axis)) == Energy(o, Spread(D, axis))
      && Off(D') - 2.0 * Sq(o') == Off(D) - 2.0 * Sq(o)
  {
    var D, D' := Rotated(A, q), Rotated(A, Product(q, AxisQuat(axis, h, w)));
    ConjugateSymmetric(A, QuatToMat(q));
    ConjugateSymmetric(A, QuatToMat(Product(q, AxisQuat(axis, h, w))));
    RotateAbout(A, q, axis, h, w);
    TurnIsRotation(h, w);
    TurnFacts(ToPlane(D, axis), TurnCos(h, w), TurnSin(h, w));
    OffFromPlane(D, axis);
    OffFromPlane(D', axis);
  }

  /** The spread after a turn about the axis. */
  lemma TurnSpread(A: Mat3, q: Quat, axis: Axis, h: real, w: real)
    requires Symmetric(A) && UnitPair(h, w)
    ensures var D, D' := Rotated(A, q), Rotated(A, Product(q, AxisQuat(axis, h, w)));
      Spread(D', axis) == TurnedSpread(OffEntry(D, axis), Spread(D, axis), TurnCos(h, w), TurnSin(h, w))
  {
    var D, D' := Rotated(A, q), Rotated(A, Product(q, AxisQuat(axis, h, w)));
    ConjugateSymmetric(A, QuatToMat(q));
    ConjugateSymmetric(A, QuatToMat(Product(q, AxisQuat(axis, h, w))));
    RotateAbout(A, q, axis, h, w);
    var p, t := ToPlane(D, axis), ToPlane(D', axis);
    PlaneEntries(p.d0, p.d1, p.o, TurnCos(h, w), TurnSin(h, w), t.d0, t.d1, t.o);
    OffFromPlane(D, axis);
    OffFromPlane(D', axis);
  }

  lemma TurnIsRotation(h: real, w: real)
    requires UnitPair(h, w)
    ensures TurnCos(h, w) * TurnCos(h, w) + TurnSin(h, w) * TurnSin(h, w) == 1.0
  {
    TurnSquares(h, w, TurnCos(h, w), TurnSin(h, w));
  }

  lemma TurnSquares(h: real, w: real, C: real, S: real)
    requires h * h + w * w == 1.0 && C == w * w - h * h && S == -2.0 * h * w
    ensures C * C + S * S == 1.0
  {
    assert C * C + S * S == (h * h + w * w) * (h * h + w * w);
  }

  /** The pivot entry after the intended rotation: zero below the limit on theta, a fraction t^2 c^2 of itself above. */
  lemma IntendedEntry(theta: real, t: real, c: real, h: real, w: real, o: real, d: real)
    requires TangentOf(theta, t) && HalfAngle(t, c, h, w) && d == 2.0 * theta * o
    ensures UnitPair(h, w) && TurnCos(h, w) == c && TurnSin(h, w) == t * c
    ensures TurnedEntry(o, d, TurnCos(h, w), TurnSin(h, w))
         == if Abs(theta) < EXACT_LIMIT then 0.0 else -(t * t) * (c * c) * o
  {
    IntendedScalars(theta, t, c, o, d);
  }

  lemma IntendedScalars(theta: real, t: real, c: real, o: real, d: real)
    requires d == 2.0 * theta * o
    ensures (c * c - (t * c) * (t * c)) * o - c * (t * c) * d == c * c * o * (1.0 - t * t - 2.0 * theta * t)
  {}

  lemma Quotient(d: real, o: real)
    requires o != 0.0
    ensures d == 2.0 * (d / (2.0 * o)) * o
  {
    assert (d / (2.0 * o)) * (2.0 * o) == d;
  }

  predicate UnitPair(h: real, w: real) { h * h + w * w == 1.0 }

  lemma IntendedTurn(o: real, d: real, sqrt: real -> real)
    requires IsSqrt(sqrt) && o != 0.0
    ensures var theta := d / (2.0 * o);
      var h := HalfSine(theta, Cosine(Tangent(theta, sqrt), sqrt), sqrt);
      var w := HalfCosine(h, sqrt);
      UnitPair(h, w) && (Abs(theta) < EXACT_LIMIT ==> TurnedEntry(o, d, TurnCos(h, w), TurnSin(h, w)) == 0.0)
  {
    var theta := d / (2.0 * o);
    HalfAngleFacts(theta, sqrt);
    var t := Tangent(theta, sqrt);
    var c := Cosine(t, sqrt);
    var h := HalfSine(theta, c, sqrt);
    Quotient(d, o);
    IntendedEntry(theta, t, c, h, HalfCosine(h, sqrt), o, d);
  }

  /** A pivot carries at least a third of the off-diagonal sum of squares. */
  lemma PivotShare(D: Mat3, axis: Axis)
    requires Symmetric(D) && StrictlyLargest(D, axis)
    ensures Off(D) <= 6.0 * Sq(OffEntry(D, axis))
  {
    SquaresBelow(D, axis, XAxis);
    SquaresBelow(D, axis, YAxis);
    SquaresBelow(D, axis, ZAxis);
  }

  lemma SquaresBelow(D: Mat3, axis: Axis, other: Axis)
    requires StrictlyLargest(D, axis)
    ensures Sq(OffEntry(D, other)) <= Sq(OffEntry(D, axis))
  {
    if other != axis {
      SquareOrder(Abs(OffEntry(D, other)), Abs(OffEntry(D, axis)));
    }
  }

  /** The intended rotation of a pivot, in the terms TurnOff uses. */
  lemma PivotRotation(D: Mat3, sqrt: real -> real)
    requires IsSqrt(sqrt) && Pivot(D).Some?
    ensures var axis := Pivot(D).value;
      && OffEntry(D, axis) != 0.0 && StrictlyLargest(D, axis)
      && var h := PivotSine(D, axis, sqrt);
      var w := HalfCosine(h, sqrt);
      && Rotation(D, sqrt) == AxisQuat(axis, h, w) && UnitPair(h, w)
      && (Abs(Theta(D, axis)) < EXACT_LIMIT ==>
            TurnedEntry(OffEntry(D, axis), Spread(D, axis), TurnCos(h, w), TurnSin(h, w)) == 0.0)
  {
    PivotFacts(D);
    IntendedTurn(OffEntry(D, Pivot(D).value), Spread(D, Pivot(D).value), sqrt);
  }

  /** The rotation a Jacobi step intends clears the pivot and takes exactly twice its square off the diagonal, so at
      least a third of what is there. It is the product of the quaternions, not the update in place. */
  lemma IntendedStepContracts(A: Mat3, q: Quat, sqrt: real -> real)
    requires Symmetric(A) && IsSqrt(sqrt) && Pivot(Rotated(A, q)).Some?
    ensures var D := Rotated(A, q);
      var axis := Pivot(D).value;
      && OffEntry(D, axis) != 0.0
      && (Abs(Theta(D, axis)) < EXACT_LIMIT ==>
            var D' := Rotated(A, Product(q, Rotation(D, sqrt)));
            && OffEntry(D', axis) == 0.0
            && Off(D') == Off(D) - 2.0 * Sq(OffEntry(D, axis))
            && Off(D') <= 2.0 / 3.0 * Off(D))
  {
    var D := Rotated(A, q);
    var axis := Pivot(D).value;
    PivotRotation(D, sqrt);
    var h := PivotSine(D, axis, sqrt);
    TurnOff(A, q, axis, h, HalfCosine(h, sqrt));
    ConjugateSymmetric(A, QuatToMat(q));
    PivotShare(D, axis);
  }
}
