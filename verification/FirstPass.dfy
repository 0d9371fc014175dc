/** The first two passes of a run, which start from the unit quaternion. */
module FirstPass {
  import opened Reals
  import opened Matrix3
  import opened Quaternion
  import opened JacobiRotation
  import opened JacobiStep
  import opened PlaneRotation
  import opened JacobiConvergence
  import opened AxisTurn
  import opened CirclePass
  import opened DiagonaliseResults

  lemma UnitUpdate(axis: Axis, h: real, w: real)
    ensures InPlace(UNIT, AxisQuat(axis, h, w)) == AxisQuat(axis, h, w - h * h)
    ensures Product(UNIT, AxisQuat(axis, h, w)) == AxisQuat(axis, h, w)
  {
    SplitInPlace(UNIT, axis, h, w);
    SplitProduct(UNIT, axis, h, w);
    UnitPairs(h, w);
    JoinAxis(axis, h, w - h * h);
    JoinAxis(axis, h, w);
  }

  lemma UnitPairs(h: real, w: real)
    ensures Updated(Pair(0.0, 1.0), h, w) == Pair(h, w - h * h) && Turned(Pair(0.0, 1.0), h, w) == Pair(h, w)
    ensures Updated(Pair(0.0, 0.0), h, w) == Pair(0.0, 0.0) == Turned(Pair(0.0, 0.0), h, w)
  {}

  /** The quaternion after the first pass turns about the pivot's axis; m is its length before normalisation. */
  lemma FirstQuat(A: Mat3, sqrt: real -> real)
    returns (t: real, c: real, h: real, w: real, m: real, x: real, y: real)
    requires IsSqrt(sqrt) && Pivot(A).Some?
    ensures var axis := Pivot(A).value;
      && Rotated(A, UNIT) == A && OffEntry(A, axis) != 0.0 && PassAngle(Theta(A, axis), t, c, h, w)
      && Step(A, UNIT, sqrt) == AxisQuat(axis, x, y)
    ensures m > 0.0 && m * m == h * h + Sq(w - h * h) && m * x == h && m * y == w - h * h && UnitPair(x, y)
  {
    RotatedByUnit(A);
    t, c, h, w := AngleOfPass(A, sqrt);
    UnitUpdate(Pivot(A).value, h, w);
    UpdateNonzero(UNIT, A, sqrt);
    m, x, y := NormalisedAxis(Pivot(A).value, h, w - h * h, sqrt);
  }

  // ----- what the first pass leaves of the pivot

  /** The ranges the angle of a pass allows: k is the square of the half-angle sine, and the length before normalisation
      squares to n. */
  lemma FirstRange(t: real, c: real, h: real, w: real, k: real, b: real, B: real, n: real)
    requires HalfAngle(t, c, h, w) && t * t <= 1.0 && k == h * h && b == w - k && B == b * b - k && n == k + b * b
    ensures 0.0 < k <= 0.15 && 0.7 <= c <= 1.0 && 0.92 <= w <= 1.0 && w * w >= 0.85 && 0.77 <= b <= 1.0
    ensures 0.4 <= B <= 1.0 && n >= 0.59 && c == 1.0 - 2.0 * k && w * w == 1.0 - k
  {
    AngleRange(t, c, h, w);
    SquareOrder(0.7, c);
    SquarePositive(h, k);
    SquareOrder(0.77, b);
    SquareOrder(b, 1.0);
  }

  lemma Missing(w: real, k: real, b: real, c: real, B: real, g: real)
    requires b == w - k && B == b * b - k && c == w * w - k && g == k * (w * b + k)
    ensures w * B - b * c == -g
  {}

  lemma FactorsPositive(w: real, k: real, b: real, c: real, B: real, x: real, y: real, g: real, f: real)
    requires k > 0.0 && w > 0.0 && b > 0.0 && c > 0.0 && B > 0.0
    requires x == b * B && y == w * c && g == k * (w * b + k) && f == c * B + 4.0 * k * w * b
    ensures g > 0.0 && f > 0.0 && x > 0.0 && y > 0.0
  {
    MulPositive(w, b);
    MulPositive(k, w * b + k);
    MulPositive(c, B);
    MulPositive(k, w * b);
    MulPositive(b, B);
    MulPositive(w, c);
    assert 4.0 * k * w * b == 4.0 * (k * (w * b));
  }

  lemma FirstFactor(w: real, k: real, b: real, g: real, n: real)
    requires g == k * (w * b + k) && n == k + b * b && w * w + k == 1.0 && k > 0.0
    ensures Sq(g) <= Times(Sq(k), n)
  {
    var e := w * b + k;
    assert Sq(e) + k * Sq(w - b) == (w * w + k) * n;
    SqNonnegative(w - b);
    MulNonnegative(k, Sq(w - b));
    SqProductBound(g, k, e, n);
  }

  lemma SecondFactor(w: real, k: real, b: real, c: real, B: real, f: real, n: real)
    requires f == c * B + 4.0 * k * w * b && n == k + b * b && B == b * b - k
    requires c == w * w - k && w * w + k == 1.0 && k > 0.0
    ensures Sq(f) <= Sq(n)
  {
    TurnLength(w, k, c, 1.0);
    TurnLength(b, k, B, n);
    LengthOfProduct(w, k, b, c, B, f, n);
  }

  lemma TurnLength(w: real, k: real, c: real, n: real)
    requires c == w * w - k && n == k + w * w
    ensures c * c + 4.0 * k * (w * w) == Sq(n)
  {}

  lemma LengthOfProduct(w: real, k: real, b: real, c: real, B: real, f: real, n: real)
    requires k > 0.0 && f == c * B + 4.0 * k * w * b
    requires c * c + 4.0 * k * (w * w) == 1.0 && B * B + 4.0 * k * (b * b) == Sq(n)
    ensures Sq(f) <= Sq(n)
  {
    var g := w * B - b * c;
    assert Sq(f) + 4.0 * k * Sq(g) == (c * c + 4.0 * k * (w * w)) * (B * B + 4.0 * k * (b * b));
    SqNonnegative(g);
    MulNonnegative(k, Sq(g));
  }

  /** The square of the factor of the first pass, over the square of k. */
  function FirstBound(theta: real): real { if Abs(theta) < EXACT_LIMIT then 4.14 else 1600.0 }

  lemma ExactRest(k: real, n: real, y: real, g: real, f: real)
    requires n >= 0.59 && y >= 0.644 && Sq(g) <= Times(Sq(k), n) && Sq(f) <= Sq(n)
    ensures Sq(Times(g, f)) <= Times(4.14 * Sq(k), Sq(Times(y, n * n)))
  {
    SqNonnegative(g);
    SqNonnegative(f);
    ProductBelow(Sq(g), Times(Sq(k), n), Sq(f), Sq(n));
    SquareProduct(g, f);
    SquareOrder(0.644, y);
    ProductBelow(0.41, Sq(y), 0.59, n);
    assert Times(0.41, 0.59) == 0.2419;
    SqNonnegative(k);
    CubeOrder(Sq(k), Sq(y), n);
    FourthPower(y, n);
  }

  lemma CubeOrder(kk: real, yy: real, n: real)
    requires n > 0.0 && kk >= 0.0 && Times(yy, n) >= 0.2419
    ensures Times(Times(kk, n), Sq(n)) <= Times(4.14 * kk, Times(Times(yy, n), Times(n, Sq(n))))
  {
    MulPositive(n, n);
    MulPositive(n, Sq(n));
    var cube, ratio := Times(n, Sq(n)), Times(yy, n);
    MulNonnegative(kk, cube);
    MulOrder(kk * cube, 1.0, 4.14 * ratio);
    assert Times(Times(kk, n), Sq(n)) == kk * cube;
    assert Times(4.14 * kk, Times(ratio, cube)) == kk * cube * (4.14 * ratio);
  }

  lemma FourthPower(y: real, n: real)
    ensures Sq(Times(y, n * n)) == Times(Times(Sq(y), n), Times(n, Sq(n)))
  {}

  lemma AsymptoticRest(k: real, n: real, y: real, g: real, f: real, x: real, kappa: real)
    requires k > 0.0 && n >= 0.59 && y >= 0.644 && 0.0 < g <= 2.0 * k && 0.0 < f <= 2.0
    requires 0.0 < x <= 1.0 && 0.0 <= kappa <= 4.0 * k
    ensures Sq(Times(g, f) + Times(x, kappa)) <= Times(1600.0 * Sq(k), Sq(Times(y, n * n)))
  {
    ProductBelow(g, 2.0 * k, f, 2.0);
    ProductBelow(x, 1.0, kappa, 4.0 * k);
    var rest := Times(g, f) + Times(x, kappa);
    MulNonnegative(g, f);
    MulNonnegative(x, kappa);
    SquareOrder(rest, 8.0 * k);
    ProductBelow(0.59, n, 0.59, n);
    ProductBelow(0.644, y, 0.34, n * n);
    SquareOrder(0.2, Times(y, n * n));
    SqNonnegative(k);
    MulOrder(1600.0 * Sq(k), 0.04, Sq(Times(y, n * n)));
  }

  lemma CrudeFactors(w: real, k: real, b: real, c: real, B: real, p: real, g: real, f: real)
    requires 0.0 < k <= 0.15 && 0.0 < w <= 1.0 && 0.0 < b <= 1.0 && 0.0 < c <= 1.0 && 0.0 < B <= 1.0
    requires p == b * B && g == k * (w * b + k) && f == c * B + 4.0 * k * w * b
    ensures p <= 1.0 && g <= 2.0 * k && f <= 2.0
  {
    ProductBelow(b, 1.0, B, 1.0);
    ProductBelow(w, 1.0, b, 1.0);
    ProductBelow(c, 1.0, B, 1.0);
    MulOrder(k, w * b + k, 2.0);
    MulNonnegative(w, b);
    ProductBelow(k, 0.15, w * b, 1.0);
    assert 4.0 * k * w * b == 4.0 * Times(k, w * b);
  }

  lemma RestBelow(theta: real, t: real, c: real, h: real, w: real, k: real, b: real, B: real, n: real,
      x: real, y: real, g: real, f: real, kappa: real)
    requires PassAngle(theta, t, c, h, w) && kappa == Residue(theta, t, c)
    requires k == h * h && b == w - k && B == b * b - k && n == k + b * b
    requires x == b * B && y == w * c && g == k * (w * b + k) && f == c * B + 4.0 * k * w * b && g > 0.0 && f > 0.0
    requires x > 0.0
    ensures n > 0.0 && Times(g, f) + Times(x, kappa) > 0.0
    ensures Sq(Times(g, f) + Times(x, kappa)) <= Times(FirstBound(theta) * Sq(k), Sq(Times(y, n * n)))
  {
    FirstRange(t, c, h, w, k, b, B, n);
    ProductBelow(0.92, w, 0.7, c);
    MulPositive(g, f);
    if Abs(theta) < EXACT_LIMIT {
      FirstFactor(w, k, b, g, n);
      SecondFactor(w, k, b, c, B, f, n);
      ExactRest(k, n, y, g, f);
    } else {
      TinyAngle(t, c, h, w, k, kappa);
      SquareOrder(w, 1.0);
      ProductBelow(k, k, w * w, 1.0);
      CrudeFactors(w, k, b, c, B, x, g, f);
      MulNonnegative(x, kappa);
      AsymptoticRest(k, n, y, g, f, x, kappa);
    }
  }

  /** The entry after the first pass, from the angle of the pass and the entries before it: it has changed sign, and its
      size is of the second order in the angle. */
  lemma FirstEntry(theta: real, t: real, c: real, h: real, w: real, o: real, d: real, m: real, a: real, b': real,
      o': real)
    requires PassAngle(theta, t, c, h, w) && d == 2.0 * theta * o && o != 0.0
    requires m * m == h * h + Sq(w - h * h) && m * a == h && m * b' == w - h * h
    requires o' == TurnedEntry(o, d, TurnCos(a, b'), TurnSin(a, b'))
    ensures Times(o', o) < 0.0 && Sq(o') <= Times(FirstBound(theta) * Sq(h * h), Sq(o))
  {
    var k, b := h * h, w - h * h;
    var B, n := b * b - k, k + b * b;
    FirstRange(t, c, h, w, k, b, B, n);
    var kappa := Residue(theta, t, c);
    var u, v, x, y := B * B - 4.0 * k * (b * b), c * c - 4.0 * k * (w * w), b * B, w * c;
    var g, f := k * (w * b + k), c * B + 4.0 * k * w * b;
    Missing(w, k, b, c, B, g);
    TurnScaled(h, k, b, B, n, m, a, b');
    LeftOver(theta, t, c, h, w, o, d, TurnCos(a, b'), TurnSin(a, b'), o', k, b, B, n, kappa, u, v, x, y, g, f);
    FactorsPositive(w, k, b, c, B, x, y, g, f);
    RestBelow(theta, t, c, h, w, k, b, B, n, x, y, g, f, kappa);
    Conclude(y, n, o, o', Times(g, f) + Times(x, kappa), FirstBound(theta) * Sq(k));
  }

  lemma TurnScaled(h: real, k: real, b: real, B: real, n: real, m: real, x: real, y: real)
    requires k == h * h && B == b * b - k && n == m * m && m * x == h && m * y == b
    ensures n * TurnCos(x, y) == B && n * TurnSin(x, y) == -2.0 * h * b
  {
    assert m * m * (y * y - x * x) == (m * y) * (m * y) - (m * x) * (m * x);
    assert m * m * (-2.0 * x * y) == -2.0 * (m * x) * (m * y);
  }

  lemma TenthLeft(theta: real, t: real, c: real, h: real, w: real, o: real, o': real)
    requires PassAngle(theta, t, c, h, w) && Sq(o') <= Times(FirstBound(theta) * Sq(h * h), Sq(o))
    ensures 10.0 * Sq(o') <= Sq(o)
  {
    FactorBelowTenth(theta, t, c, h, w, h * h);
    SqNonnegative(o);
    TenthOf(FirstBound(theta) * Sq(h * h), Sq(o), Sq(o'));
  }

  lemma FactorBelowTenth(theta: real, t: real, c: real, h: real, w: real, k: real)
    requires PassAngle(theta, t, c, h, w) && k == h * h
    ensures FirstBound(theta) * Sq(k) <= 0.1
  {
    FirstRange(t, c, h, w, k, w - k, Sq(w - k) - k, k + Sq(w - k));
    if Abs(theta) >= EXACT_LIMIT {
      TinyAngle(t, c, h, w, k, Residue(theta, t, c));
      SquareOrder(k, 0.000001);
    } else {
      SquareOrder(k, 0.15);
    }
  }

  lemma TenthOf(p: real, oo: real, oo': real)
    requires p <= 0.1 && oo >= 0.0 && oo' <= Times(p, oo)
    ensures 10.0 * oo' <= oo
  {
    MulOrder(oo, p, 0.1);
  }

  /** The first pass turns about the pivot's axis but never by the right angle: it never clears the pivot, whatever the
      entries are. It leaves at most a tenth of the pivot's square and at most seven tenths of the off-diagonal sum. */
  lemma FirstStep(A: Mat3, sqrt: real -> real)
    requires Symmetric(A) && IsSqrt(sqrt) && Pivot(A).Some?
    ensures var axis := Pivot(A).value;
      var D := Rotated(A, Step(A, UNIT, sqrt));
      && OffEntry(D, axis) != 0.0
      && 10.0 * Sq(OffEntry(D, axis)) <= Sq(OffEntry(A, axis))
      && Off(D) - 2.0 * Sq(OffEntry(D, axis)) == Off(A) - 2.0 * Sq(OffEntry(A, axis))
      && Off(D) <= 7.0 / 10.0 * Off(A)
  {
    var axis := Pivot(A).value;
    var t, c, h, w, m, x, y := FirstQuat(A, sqrt);
    UnitUpdate(axis, x, y);
    TurnOff(A, UNIT, axis, x, y);
    PivotFacts(A);
    PivotShare(A, axis);
    FirstPivot(A, axis, t, c, h, w, m, x, y, OffEntry(Rotated(A, Step(A, UNIT, sqrt)), axis));
  }

  lemma FirstPivot(A: Mat3, axis: Axis, t: real, c: real, h: real, w: real, m: real, x: real, y: real, o': real)
    requires OffEntry(A, axis) != 0.0 && PassAngle(Theta(A, axis), t, c, h, w)
    requires m * m == h * h + Sq(w - h * h) && m * x == h && m * y == w - h * h
    requires o' == TurnedEntry(OffEntry(A, axis), Spread(A, axis), TurnCos(x, y), TurnSin(x, y))
    ensures o' != 0.0 && 10.0 * Sq(o') <= Sq(OffEntry(A, axis))
  {
    Quotient(Spread(A, axis), OffEntry(A, axis));
    FirstEntry(Theta(A, axis), t, c, h, w, OffEntry(A, axis), Spread(A, axis), m, x, y, o');
    TenthLeft(Theta(A, axis), t, c, h, w, OffEntry(A, axis), o');
  }

  // ----- the second pass

  /** After a first pass about one axis, the second pass still turns about its own. */
  predicate KeepsAxis(first: Axis, second: Axis) {
    first == second || first == ZAxis || (first == YAxis && second == ZAxis)
  }

  /** Which second passes contract: those about the axis of the first, those that follow a pass about z, and those about
      z that follow a pass about y. */
  lemma SecondPass(A: Mat3, sqrt: real -> real)
    requires Symmetric(A) && IsSqrt(sqrt) && Pivot(A).Some?
    requires Pivot(Rotated(A, Step(A, UNIT, sqrt))).Some?
    ensures var q := Step(A, UNIT, sqrt);
      var first, second := Pivot(A).value, Pivot(Rotated(A, q)).value;
      && NormSq(q) == 1.0 && (Parallel(q, second) <==> KeepsAxis(first, second))
      && (KeepsAxis(first, second) ==> Off(Rotated(A, Step(A, q, sqrt))) <= 14.0 / 25.0 * Off(A))
  {
    var q := Step(A, UNIT, sqrt);
    var first, second := Pivot(A).value, Pivot(Rotated(A, q)).value;
    StepUnit(A, UNIT, sqrt);
    var t, c, h, w, m, x, y := FirstQuat(A, sqrt);
    FirstNonzero(t, c, h, w, m, x, y);
    ParallelAfterFirst(first, second, x, y);
    FirstStep(A, sqrt);
    if KeepsAxis(first, second) {
      ParallelStep(A, q, sqrt);
    }
  }

  lemma FirstNonzero(t: real, c: real, h: real, w: real, m: real, x: real, y: real)
    requires HalfAngle(t, c, h, w) && t * t <= 1.0 && m > 0.0 && m * x == h && m * y == w - h * h
    ensures x != 0.0 && y != 0.0
  {
    AngleRange(t, c, h, w);
    SquareOrder(0.7, c);
    assert w - h * h > 0.0;
  }

  lemma ParallelAfterFirst(first: Axis, second: Axis, x: real, y: real)
    requires x != 0.0 && y != 0.0
    ensures Parallel(AxisQuat(first, x, y), second) <==> KeepsAxis(first, second)
  {
    NonzeroFactor(x, y);
  }
}
