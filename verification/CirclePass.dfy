/** One pass about the axis a quaternion already turns about, in scalars. The half angle of the pass has sine h, with
    square k, and cosine w. The turn the update makes instead has cosine B / n and sine -2 h z / n. */
module CirclePass {
  import opened Reals
  import opened Matrix3
  import opened Quaternion
  import opened JacobiRotation
  import opened JacobiStep
  import opened PlaneRotation
  import opened JacobiConvergence

  /** The angle of a pass, with everything known about it. */
  ghost predicate PassAngle(theta: real, t: real, c: real, h: real, w: real) {
    TangentOf(theta, t) && HalfAngle(t, c, h, w)
  }

  lemma AngleOfPass(A: Mat3, sqrt: real -> real) returns (t: real, c: real, h: real, w: real)
    requires IsSqrt(sqrt) && Pivot(A).Some?
    ensures var axis := Pivot(A).value;
      && OffEntry(A, axis) != 0.0 && PassAngle(Theta(A, axis), t, c, h, w)
      && Rotation(A, sqrt) == AxisQuat(axis, h, w)
  {
    RotationFacts(A, sqrt);
    var axis := Pivot(A).value;
    t := Tangent(Theta(A, axis), sqrt);
    c := Cosine(t, sqrt);
    h := PivotSine(A, axis, sqrt);
    w := HalfCosine(h, sqrt);
  }

  lemma JoinAxis(axis: Axis, a: real, b: real)
    ensures Join(axis, Pair(a, b), Pair(0.0, 0.0)) == AxisQuat(axis, a, b)
  {}

  lemma NormalisedAxis(axis: Axis, a: real, b: real, sqrt: real -> real) returns (m: real, x: real, y: real)
    requires IsSqrt(sqrt) && NormSq(AxisQuat(axis, a, b)) > 0.0
    ensures Normalise(AxisQuat(axis, a, b), sqrt) == AxisQuat(axis, x, y)
    ensures m > 0.0 && m * m == a * a + Sq(b) && m * x == a && m * y == b && UnitPair(x, y)
  {
    var u := AxisQuat(axis, a, b);
    LengthPositive(NormSq(u), sqrt);
    m := sqrt(NormSq(u));
    assert NormSq(u) == a * a + b * b;
    x, y := a / m, b / m;
    QuotientPair(a, b, m, x, y);
  }

  lemma QuotientPair(a: real, b: real, m: real, x: real, y: real)
    requires m > 0.0 && m * m == a * a + b * b && x == a / m && y == b / m
    ensures m * x == a && m * y == b && UnitPair(x, y)
  {
    var k := 1.0 / m;
    assert x == k * a && y == k * b && k * m == 1.0;
    assert x * x + y * y == k * k * (m * m) == (k * m) * (k * m);
  }

  // ----- what the pass leaves of the pivot

  /** Eliminating e, twice the half-angle sine times the spread, from the entry after the pass and the entry after the
      intended rotation. */
  lemma Eliminate(p: real, u: real, v: real, x: real, y: real, e: real, kappa: real, o: real, rest: real)
    requires p == u * o + x * e && v * o + y * e == -Times(kappa, o) && y * u - x * v - x * kappa == -rest
    ensures Times(y, p) == -Times(rest, o)
  {
    assert y * (x * e) == x * (y * e);
    assert y * p == (y * u - x * v - x * kappa) * o;
  }

  /** u, v, x and y are the coefficients of that elimination; f is the first of the two factors they leave. */
  predicate Coefficients(w: real, k: real, z: real, c: real, B: real, u: real, v: real, x: real, y: real, f: real) {
    && u == B * B - 4.0 * k * (z * z) && v == c * c - 4.0 * k * (w * w) && x == z * B && y == w * c
    && f == c * B + 4.0 * k * w * z
  }

  lemma Factored(w: real, k: real, z: real, c: real, B: real, u: real, v: real, x: real, y: real, g: real, f: real,
      kappa: real)
    requires Coefficients(w, k, z, c, B, u, v, x, y, f) && w * B - z * c == -g
    ensures y * u - x * v - x * kappa == -(Times(g, f) + Times(x, kappa))
  {
    FactorIdentity(w, k, z, c, B, u, v, x, y, f);
    assert Times(w * B - z * c, f) == -Times(g, f);
  }

  lemma FactorIdentity(w: real, k: real, z: real, c: real, B: real, u: real, v: real, x: real, y: real, f: real)
    requires Coefficients(w, k, z, c, B, u, v, x, y, f)
    ensures y * u - x * v == Times(w * B - z * c, f)
  {}

  lemma PassRelation(o: real, d: real, h: real, k: real, z: real, B: real, n: real, C: real, S: real, o': real,
      u: real, p: real, e: real)
    requires u == B * B - 4.0 * k * (z * z) && p == z * B && e == 2.0 * h * d && k == h * h
    requires n * C == B && n * S == -2.0 * h * z && o' == TurnedEntry(o, d, C, S)
    ensures n * n * o' == u * o + p * e
  {
    var s := -2.0 * h * z;
    assert s * s == 4.0 * (h * h) * (z * z);
    assert p * e == -(B * s * d);
    ScaledEntry(o, d, C, S, n, B, s, u, p * e);
  }

  lemma ScaledEntry(o: real, d: real, C: real, S: real, n: real, c: real, s: real, u: real, rest: real)
    requires n * C == c && n * S == s && u == c * c - s * s && rest == -(c * s * d)
    ensures n * n * TurnedEntry(o, d, C, S) == u * o + rest
  {
    assert c * c == n * n * (C * C) && s * s == n * n * (S * S) && c * s == n * n * (C * S);
    assert n * n * ((C * C - S * S) * o - C * S * d) == (n * n * (C * C) - n * n * (S * S)) * o - n * n * (C * S) * d;
  }

  lemma IntendedRelation(o: real, d: real, h: real, w: real, k: real, c: real, left: real, v: real, q: real, e: real)
    requires v == c * c - 4.0 * k * (w * w) && q == w * c && e == 2.0 * h * d
    requires k == h * h && c == w * w - k && left == TurnedEntry(o, d, TurnCos(h, w), TurnSin(h, w))
    ensures v * o + q * e == left
  {
    var s := -2.0 * h * w;
    assert s * s == 4.0 * k * (w * w);
    assert c * s * d == -(q * e);
  }

  /** What the intended rotation leaves: nothing below the limit on theta. */
  function Residue(theta: real, t: real, c: real): real {
    if Abs(theta) < EXACT_LIMIT then 0.0 else t * t * (c * c)
  }

  /** The pivot after the pass against the pivot before it. */
  lemma LeftOver(theta: real, t: real, c: real, h: real, w: real, o: real, d: real, C: real, S: real, o': real,
      k: real, z: real, B: real, n: real, kappa: real, u: real, v: real, x: real, y: real, g: real, f: real)
    requires PassAngle(theta, t, c, h, w) && d == 2.0 * theta * o && kappa == Residue(theta, t, c)
    requires k == h * h && c == w * w - k && Coefficients(w, k, z, c, B, u, v, x, y, f) && w * B - z * c == -g
    requires n * C == B && n * S == -2.0 * h * z && o' == TurnedEntry(o, d, C, S)
    ensures Times(y, n * n * o') == -Times(Times(g, f) + Times(x, kappa), o)
  {
    var e := 2.0 * h * d;
    IntendedLeft(theta, t, c, h, w, o, d, kappa);
    IntendedRelation(o, d, h, w, k, c, -Times(kappa, o), v, y, e);
    PassRelation(o, d, h, k, z, B, n, C, S, o', u, x, e);
    Factored(w, k, z, c, B, u, v, x, y, g, f, kappa);
    Eliminate(n * n * o', u, v, x, y, e, kappa, o, Times(g, f) + Times(x, kappa));
  }

  lemma IntendedLeft(theta: real, t: real, c: real, h: real, w: real, o: real, d: real, kappa: real)
    requires PassAngle(theta, t, c, h, w) && d == 2.0 * theta * o && kappa == Residue(theta, t, c)
    ensures TurnedEntry(o, d, TurnCos(h, w), TurnSin(h, w)) == -Times(kappa, o)
  {
    IntendedEntry(theta, t, c, h, w, o, d);
  }

  lemma ProductBelow(a: real, b: real, c: real, d: real)
    requires 0.0 <= a <= b && 0.0 <= c <= d
    ensures Times(a, c) <= Times(b, d)
  {
    MulOrder(c, a, b);
    MulOrder(b, c, d);
  }

  lemma TinyAngle(t: real, c: real, h: real, w: real, k: real, kappa: real)
    requires HalfAngle(t, c, h, w) && t * t <= 0.000000000001 && k == h * h && kappa == t * t * (c * c)
    requires w * w >= 0.85 && 0.7 <= c <= 1.0 && k > 0.0
    ensures 0.0 <= kappa <= 0.000001 && k <= 0.000001 && kappa == 4.0 * Times(k, w * w)
  {
    SquareOrder(c, 1.0);
    SqNonnegative(t);
    ProductBelow(Sq(t), 0.000000000001, Sq(c), 1.0);
    MulNonnegative(Sq(t), Sq(c));
    ResidueSquare(t, c, h, w, k);
    TinySquare(k, w * w, Times(Sq(t), Sq(c)));
  }

  lemma ResidueSquare(t: real, c: real, h: real, w: real, k: real)
    requires -2.0 * h * w == t * c && k == h * h
    ensures Times(Sq(t), Sq(c)) == 4.0 * Times(k, w * w) && t * t * (c * c) == Times(Sq(t), Sq(c))
  {
    assert (-2.0 * h * w) * (-2.0 * h * w) == 4.0 * (h * h * (w * w));
    assert (t * c) * (t * c) == t * t * (c * c);
  }

  lemma TinySquare(k: real, ww: real, kappa: real)
    requires k > 0.0 && ww >= 0.85 && kappa == 4.0 * Times(k, ww) && kappa <= 0.000001
    ensures k <= 0.000001
  {
    MulOrder(k, 0.85, ww);
  }

  lemma SquareProduct(g: real, f: real)
    ensures Sq(Times(g, f)) == Times(Sq(g), Sq(f))
  {}

  /** From the factor the pass applies to the pivot: its sign, and the square it leaves. */
  lemma Conclude(y: real, n: real, o: real, o': real, rest: real, bound: real)
    requires y > 0.0 && n > 0.0 && o != 0.0 && rest != 0.0 && Times(y, n * n * o') == -Times(rest, o)
    requires Sq(rest) <= Times(bound, Sq(Times(y, n * n)))
    ensures Sq(o') <= Times(bound, Sq(o))
    ensures rest > 0.0 ==> Times(o', o) < 0.0
    ensures rest < 0.0 ==> Times(o', o) > 0.0
  {
    MulPositive(n, n);
    MulPositive(y, n * n);
    var s := Times(y, n * n);
    assert s * o' == -(rest * o);
    SquareProduct(s, o');
    SquareProduct(rest, o);
    SquarePositive(s, Sq(s));
    SquarePositive(o, Sq(o));
    MulOrder(Sq(o), Sq(rest), Times(bound, Sq(s)));
    ScaledDown(Sq(s), Sq(o'), Sq(rest), Sq(o), bound);
    SignOfFactor(s, o', rest, o);
  }

  lemma ScaledDown(ss: real, oo': real, rr: real, oo: real, bound: real)
    requires ss > 0.0 && ss * oo' == rr * oo && oo * rr <= oo * Times(bound, ss)
    ensures oo' <= Times(bound, oo)
  {
    assert oo * Times(bound, ss) == ss * Times(bound, oo);
    CancelOrder(ss, oo', Times(bound, oo));
  }

  lemma SignOfFactor(s: real, o': real, rest: real, o: real)
    requires s > 0.0 && o != 0.0 && s * o' == -(rest * o)
    ensures rest > 0.0 ==> Times(o', o) < 0.0
    ensures rest < 0.0 ==> Times(o', o) > 0.0
  {
    SquarePositive(o, o * o);
    assert s * Times(o', o) == -(rest * (o * o));
    if rest > 0.0 {
      MulPositive(rest, o * o);
      if Times(o', o) >= 0.0 { MulNonnegative(s, Times(o', o)); }
    } else if rest < 0.0 {
      MulPositive(-rest, o * o);
      if Times(o', o) <= 0.0 { MulNonnegative(s, -Times(o', o)); }
    }
  }
}
