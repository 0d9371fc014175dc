/** A matrix that couples two directions only is never diagonalised, however many passes the loop takes. */
module CoupledResults {
  import opened Reals
  import opened Matrix3
  import opened Quaternion
  import opened JacobiStep
  import opened PlaneRotation
  import opened SymDiagonalize3
  import opened JacobiConvergence
  import opened DiagonaliseResults
  import opened CirclePass
  import opened FirstPass
  import opened CoupledStates

  /** The loop has turned about the axis only, and too far. */
  predicate FarState(A: Mat3, axis: Axis, q: Quat) {
    var p, D := First(q, axis), Rotated(A, q);
    && Second(q, axis) == Pair(0.0, 0.0) && CoupledOnlyIn(D, axis)
    && TurnedTooFar(p.lead, p.trail, OffEntry(D, axis), Spread(D, axis))
  }

  lemma OnAxis(axis: Axis, q: Quat)
    requires Second(q, axis) == Pair(0.0, 0.0)
    ensures q == AxisQuat(axis, First(q, axis).lead, First(q, axis).trail)
  {
    Split(q, axis);
    JoinAxis(axis, First(q, axis).lead, First(q, axis).trail);
  }

  lemma PartsOfAxis(axis: Axis, a: real, b: real)
    ensures First(AxisQuat(axis, a, b), axis) == Pair(a, b) && Second(AxisQuat(axis, a, b), axis) == Pair(0.0, 0.0)
  {}

  /** The update of a quaternion about the axis, and the turn that leads to it. */
  lemma AxisUpdate(axis: Axis, a: real, b: real, h: real, w: real, sqrt: real -> real)
    returns (l: real, v: real, q: real, r: real, m: real, x: real, y: real, a': real, b': real)
    requires IsSqrt(sqrt) && UnitPair(a, b) && NormSq(InPlace(AxisQuat(axis, a, b), AxisQuat(axis, h, w))) > 0.0
    ensures Normalise(InPlace(AxisQuat(axis, a, b), AxisQuat(axis, h, w)), sqrt) == AxisQuat(axis, a', b')
    ensures AxisQuat(axis, a', b') == Product(AxisQuat(axis, a, b), AxisQuat(axis, x, y))
    ensures BackUpdate(a, b, h, w, l, v, q, r) && m > 0.0 && m * m == l * l + v * v
    ensures m * x == h * q && m * y == r && UnitPair(x, y) && m * a' == l && m * b' == v && UnitPair(a', b')
  {
    PartsOfAxis(axis, a, b);
    SplitInPlace(AxisQuat(axis, a, b), axis, h, w);
    l := Lead(a, b, h, w);
    v := Trail(b, l, h, w);
    q, r := b * b + a * l, w + h * b * (a - l);
    NothingTurned(h, w);
    JoinAxis(axis, l, v);
    m, a', b' := NormalisedAxis(axis, l, v, sqrt);
    UpdateTurn(a, b, h, w, l, v, q, r);
    TurnNorm(a, b, h * q, r, l, v);
    x, y := h * q / m, r / m;
    QuotientPair(h * q, r, m, x, y);
    SplitProduct(AxisQuat(axis, a, b), axis, x, y);
    NothingTurned(x, y);
    QuotientTurn(a, b, h * q, r, l, v, m, x, y, a', b');
    JoinAxis(axis, a', b');
  }

  lemma NothingTurned(h: real, w: real)
    ensures Updated(Pair(0.0, 0.0), h, w) == Pair(0.0, 0.0) == Turned(Pair(0.0, 0.0), h, w)
  {}

  lemma TurnNorm(a: real, b: real, p: real, r: real, l: real, v: real)
    requires UnitPair(a, b) && l == Lead(a, b, p, r) && v == Trail(b, a, p, r)
    ensures l * l + v * v == p * p + r * r
  {
    assert l * l + v * v == (a * a + b * b) * (p * p + r * r);
  }

  lemma QuotientTurn(a: real, b: real, p: real, r: real, l: real, v: real, m: real, x: real, y: real, a': real,
      b': real)
    requires m > 0.0 && m * x == p && m * y == r && l == Lead(a, b, p, r) && v == Trail(b, a, p, r) && m * a' == l
    requires m * b' == v
    ensures Lead(a, b, x, y) == a' && Trail(b, a, x, y) == b'
  {
    assert m * (y * a + x * b) == (m * y) * a + (m * x) * b;
    assert m * (y * b - x * a) == (m * y) * b - (m * x) * a;
    NonzeroFactor(m, y * a + x * b - a');
    NonzeroFactor(m, y * b - x * a - b');
  }

  /** A turn about the axis leaves a matrix coupled in the axis only. */
  lemma TurnKeepsCoupled(A: Mat3, axis: Axis, q: Quat, x: real, y: real)
    requires Symmetric(A) && UnitPair(x, y) && CoupledOnlyIn(Rotated(A, q), axis)
    ensures CoupledOnlyIn(Rotated(A, Product(q, AxisQuat(axis, x, y))), axis)
  {
    TurnOff(A, q, axis, x, y);
    ConjugateSymmetric(A, QuatToMat(q));
    ConjugateSymmetric(A, QuatToMat(Product(q, AxisQuat(axis, x, y))));
    OffOfCoupled(Rotated(A, q), axis);
    OffOfCoupled(Rotated(A, Product(q, AxisQuat(axis, x, y))), axis);
  }

  lemma CoupledPivot(D: Mat3, axis: Axis)
    requires Symmetric(D) && CoupledOnlyIn(D, axis) && OffEntry(D, axis) != 0.0
    ensures Pivot(D) == Some(axis)
  {
    OffOfCoupled(D, axis);
    SquarePositive(OffEntry(D, axis), Sq(OffEntry(D, axis)));
  }

  /** The first pass turns too far. */
  lemma FirstFar(A: Mat3, axis: Axis, sqrt: real -> real)
    requires Symmetric(A) && IsSqrt(sqrt) && CoupledOnlyIn(A, axis) && OffEntry(A, axis) != 0.0
    ensures Pivot(A) == Some(axis) && FarState(A, axis, Step(A, UNIT, sqrt))
  {
    CoupledPivot(A, axis);
    var t, c, h, w, m, a, b := FirstQuat(A, sqrt);
    UnitUpdate(axis, a, b);
    PartsOfAxis(axis, a, b);
    AxisTurned(A, UNIT, axis, a, b);
    TurnKeepsCoupled(A, axis, UNIT, a, b);
    FirstTurned(A, Rotated(A, Step(A, UNIT, sqrt)), axis, t, c, h, w, m, a, b);
  }

  /** D' is D after the turn (x, y) about the axis, as far as the pivot and the spread go. */
  predicate TurnedBy(D: Mat3, D': Mat3, axis: Axis, x: real, y: real) {
    var o, d, o', d' := OffEntry(D, axis), Spread(D, axis), OffEntry(D', axis), Spread(D', axis);
    && o' == TurnedEntry(o, d, TurnCos(x, y), TurnSin(x, y)) && d' == TurnedSpread(o, d, TurnCos(x, y), TurnSin(x, y))
    && Energy(o', d') == Energy(o, d)
  }

  lemma FirstTurned(D: Mat3, D': Mat3, axis: Axis, t: real, c: real, h: real, w: real, m: real, a: real, b: real)
    requires OffEntry(D, axis) != 0.0 && PassAngle(Theta(D, axis), t, c, h, w) && TurnedBy(D, D', axis, a, b)
    requires m > 0.0 && m * m == h * h + Sq(w - h * h) && m * a == h && m * b == w - h * h && UnitPair(a, b)
    ensures TurnedTooFar(a, b, OffEntry(D', axis), Spread(D', axis))
  {
    Quotient(Spread(D, axis), OffEntry(D, axis));
    FirstTooFar(Theta(D, axis), t, c, h, w, OffEntry(D, axis), Spread(D, axis), m, a, b, TurnCos(a, b), TurnSin(a, b),
      OffEntry(D', axis), Spread(D', axis));
  }

  lemma AxisTurned(A: Mat3, q: Quat, axis: Axis, x: real, y: real)
    requires Symmetric(A) && UnitPair(x, y)
    ensures TurnedBy(Rotated(A, q), Rotated(A, Product(q, AxisQuat(axis, x, y))), axis, x, y)
  {
    TurnOff(A, q, axis, x, y);
    TurnSpread(A, q, axis, x, y);
  }

  predicate PassSquares(D: Mat3, D': Mat3, axis: Axis) {
    Squared(OffEntry(D, axis), Spread(D, axis), OffEntry(D', axis), Spread(D', axis))
  }

  /** Every later pass starts and ends in such a state, and squares what is off the diagonal. */
  lemma FarPass(A: Mat3, axis: Axis, q: Quat, sqrt: real -> real)
    requires Symmetric(A) && IsSqrt(sqrt) && NormSq(q) == 1.0 && FarState(A, axis, q)
    ensures FarState(A, axis, Step(A, q, sqrt))
    ensures PassSquares(Rotated(A, q), Rotated(A, Step(A, q, sqrt)), axis)
  {
    var a, b, D := First(q, axis).lead, First(q, axis).trail, Rotated(A, q);
    OnAxis(axis, q);
    NonzeroSpread(a, OffEntry(D, axis), Spread(D, axis));
    ConjugateSymmetric(A, QuatToMat(q));
    CoupledPivot(D, axis);
    var t, c, h, w := AngleOfPass(D, sqrt);
    UpdateNonzero(q, D, sqrt);
    var l, v, s, r, m, x, y, a', b' := AxisUpdate(axis, a, b, h, w, sqrt);
    AxisTurned(A, q, axis, x, y);
    TurnKeepsCoupled(A, axis, q, x, y);
    PartsOfAxis(axis, a', b');
    BackTurned(D, Rotated(A, Step(A, q, sqrt)), axis, t, c, h, w, a, b, l, v, s, r, m, x, y, a', b');
  }

  lemma BackTurned(D: Mat3, D': Mat3, axis: Axis, t: real, c: real, h: real, w: real, a: real, b: real,
      l: real, v: real, q: real, r: real, m: real, x: real, y: real, a': real, b': real)
    requires OffEntry(D, axis) != 0.0 && PassAngle(Theta(D, axis), t, c, h, w) && TurnedBy(D, D', axis, x, y)
    requires TurnedTooFar(a, b, OffEntry(D, axis), Spread(D, axis))
    requires BackUpdate(a, b, h, w, l, v, q, r) && m > 0.0 && m * m == l * l + v * v
    requires m * x == h * q && m * y == r && UnitPair(x, y) && m * a' == l && m * b' == v && UnitPair(a', b')
    ensures TurnedTooFar(a', b', OffEntry(D', axis), Spread(D', axis)) && PassSquares(D, D', axis)
  {
    Quotient(Spread(D, axis), OffEntry(D, axis));
    BackState(Theta(D, axis), t, c, h, w, a, b, OffEntry(D, axis), Spread(D, axis), l, v, q, r, m, x, y, a', b',
      OffEntry(D', axis), Spread(D', axis));
  }

  lemma {:induction false} FarRun(A: Mat3, axis: Axis, q: Quat, n: nat, sqrt: real -> real)
    requires Symmetric(A) && IsSqrt(sqrt) && NormSq(q) == 1.0 && FarState(A, axis, q)
    ensures FarState(A, axis, Run(A, q, n, sqrt))
    decreases n
  {
    if n != 0 && Pivot(Rotated(A, q)).Some? {
      StepUnit(A, q, sqrt);
      FarPass(A, axis, q, sqrt);
      FarRun(A, axis, Step(A, q, sqrt), n - 1, sqrt);
    }
  }

  lemma FarNotDiagonal(A: Mat3, axis: Axis, q: Quat)
    requires FarState(A, axis, q)
    ensures !Diagonal(Rotated(A, q))
  {
    NonzeroSpread(First(q, axis).lead, OffEntry(Rotated(A, q), axis), Spread(Rotated(A, q), axis));
  }

  /** Of the matrices that couple two directions only, after any number of passes, the loop has diagonalised exactly
      those that were diagonal to begin with. */
  lemma CoupledRunDiagonalIff(A: Mat3, axis: Axis, n: nat, sqrt: real -> real)
    requires Symmetric(A) && IsSqrt(sqrt) && CoupledOnlyIn(A, axis)
    ensures Diagonal(Rotated(A, Run(A, UNIT, n, sqrt))) <==> Diagonal(A)
  {
    RotatedByUnit(A);
    if OffEntry(A, axis) == 0.0 {
      OffOfCoupled(A, axis);
      PivotFacts(A);
    } else if n != 0 {
      FirstFar(A, axis, sqrt);
      StepUnit(A, UNIT, sqrt);
      FarRun(A, axis, Step(A, UNIT, sqrt), n - 1, sqrt);
      FarNotDiagonal(A, axis, Run(A, UNIT, n, sqrt));
    }
  }

  /** So sym_diagonalize returns a diagonal D for such a matrix only if it was given one. */
  lemma CoupledDiagonalIff(A: Mat3, axis: Axis, sqrt: real -> real)
    requires Symmetric(A) && IsSqrt(sqrt) && CoupledOnlyIn(A, axis)
    ensures Diagonal(Rotated(A, Final(A, sqrt))) <==> Diagonal(A)
  {
    CoupledRunDiagonalIff(A, axis, MAX_STEPS - 1, sqrt);
  }

  /** The run leaves such a matrix coupled as it was. */
  lemma CoupledKept(A: Mat3, axis: Axis, sqrt: real -> real)
    requires Symmetric(A) && IsSqrt(sqrt) && CoupledOnlyIn(A, axis)
    ensures CoupledOnlyIn(Rotated(A, Final(A, sqrt)), axis)
  {
    RunKeepsCoupled(A, axis, MAX_STEPS - 1, sqrt);
  }

  lemma RunKeepsCoupled(A: Mat3, axis: Axis, n: nat, sqrt: real -> real)
    requires Symmetric(A) && IsSqrt(sqrt) && CoupledOnlyIn(A, axis)
    ensures CoupledOnlyIn(Rotated(A, Run(A, UNIT, n, sqrt)), axis)
  {
    RotatedByUnit(A);
    if OffEntry(A, axis) == 0.0 {
      OffOfCoupled(A, axis);
      PivotFacts(A);
    } else if n != 0 {
      FirstFar(A, axis, sqrt);
      StepUnit(A, UNIT, sqrt);
      FarRun(A, axis, Step(A, UNIT, sqrt), n - 1, sqrt);
    }
  }
}
