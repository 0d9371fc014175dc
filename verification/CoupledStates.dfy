/** The states a run passes through on a matrix that couples two directions only. After the first pass the quaternion
    has turned too far, and every later pass turns back, but not all the way. */
module CoupledStates {
  import opened Reals
  import opened JacobiRotation
  import opened JacobiStep
  import opened PlaneRotation
  import opened JacobiConvergence
  import opened AxisTurn
  import opened CirclePass
  import opened FirstPass

  /** a and b are the half-angle sine and cosine reached so far, o the pivot and d the spread. The quaternion has turned
      too far, in the sense of a, and by no more than the second order in a. */
  predicate TurnedTooFar(a: real, b: real, o: real, d: real) {
    && UnitPair(a, b) && b > 0.0 && Sq(a) <= 0.26
    && Times(Times(d, o), a) > 0.0 && Sq(o) <= 1.15 * Times(Sq(Sq(a)), Sq(d))
  }

  // ----- the sign of the spread

  lemma SpreadSign(o: real, d: real, C: real, S: real, o': real, d': real)
    requires C * C + S * S == 1.0 && o != 0.0 && 10.0 * Sq(o') <= Sq(o)
    requires o' == TurnedEntry(o, d, C, S) && d' == TurnedSpread(o, d, C, S)
    ensures Times(C * S, Times(d', o)) > 0.0
  {
    var c2, cs := C * C - S * S, C * S;
    DoubleTurn(C, S, c2, cs);
    assert o' == c2 * o - cs * d && d' == c2 * d + 4.0 * cs * o;
    SpreadFrom(o, d, c2, cs, o', d');
    SquarePositive(o, Sq(o));
    SqProductBound(c2 * o', o', c2, 1.0);
    SqNonnegative(c2 * o' - o);
    assert Sq(c2 * o' - o) == Sq(c2 * o') - 2.0 * (c2 * o' * o) + Sq(o);
    assert Times(cs, Times(d', o)) == Sq(o) - c2 * o' * o;
  }

  lemma SpreadFrom(o: real, d: real, c2: real, cs: real, o': real, d': real)
    requires c2 * c2 + 4.0 * cs * cs == 1.0 && o' == c2 * o - cs * d && d' == c2 * d + 4.0 * cs * o
    ensures cs * d' == o - c2 * o' && c2 * c2 <= 1.0
  {
    assert cs * d' == c2 * (cs * d) + 4.0 * cs * cs * o;
    assert c2 * (cs * d) == c2 * (c2 * o - o');
    assert cs * cs >= 0.0;
  }

  // ----- the first pass turns too far

  lemma FirstTooFar(theta: real, t: real, c: real, h: real, w: real, o: real, d: real,
      m: real, a: real, b: real, C: real, S: real, o': real, d': real)
    requires PassAngle(theta, t, c, h, w) && d == 2.0 * theta * o && o != 0.0
    requires m > 0.0 && m * m == h * h + Sq(w - h * h) && m * a == h && m * b == w - h * h && UnitPair(a, b)
    requires C == TurnCos(a, b) && S == TurnSin(a, b) && Energy(o', d') == Energy(o, d)
    requires o' == TurnedEntry(o, d, C, S) && d' == TurnedSpread(o, d, C, S)
    ensures TurnedTooFar(a, b, o', d')
  {
    FirstEntry(theta, t, c, h, w, o, d, m, a, b, o');
    TenthLeft(theta, t, c, h, w, o, o');
    FirstPair(t, c, h, w, m, a, b, h * h, w - h * h, m * m);
    TurnIsRotation(a, b);
    SpreadSign(o, d, C, S, o', d');
    FarSign(a, b, C, S, o, o', d');
    FirstSize(theta, h * h, Sq(a), o, d, o', d');
  }

  lemma FirstPair(t: real, c: real, h: real, w: real, m: real, a: real, b: real, k: real, r: real, n: real)
    requires HalfAngle(t, c, h, w) && t * t <= 1.0 && k == h * h && r == w - k && n == k + r * r
    requires m > 0.0 && m * m == n && m * a == h && m * b == r
    ensures b > 0.0 && Sq(a) <= 0.26 && Sq(a) >= k && Sq(b) > Sq(a)
  {
    FirstRange(t, c, h, w, k, r, r * r - k, n);
    FirstLength(w, k, n);
    PairOf(h, m, a, b, k, r, n);
  }

  lemma PairOf(h: real, m: real, a: real, b: real, k: real, r: real, n: real)
    requires 0.59 <= n <= 1.0 && 0.0 < k <= 0.15 && r > 0.0 && k < r * r && k == h * h
    requires m > 0.0 && m * m == n && m * a == h && m * b == r
    ensures b > 0.0 && Sq(a) <= 0.26 && Sq(a) >= k && Sq(b) > Sq(a)
  {
    PositiveQuotient(m, b, r);
    PairSquares(m, a, b, h, r, n);
    SqNonnegative(a);
    PairRange(n, k, r * r, Sq(a), Sq(b));
  }

  lemma PositiveQuotient(m: real, b: real, r: real)
    requires m > 0.0 && m * b == r && r > 0.0
    ensures b > 0.0
  {
    if b <= 0.0 { MulNonnegative(m, -b); }
  }

  lemma PairSquares(m: real, a: real, b: real, h: real, r: real, n: real)
    requires m * m == n && m * a == h && m * b == r
    ensures n * Sq(a) == h * h && n * Sq(b) == r * r
  {
    assert n * Sq(a) == (m * a) * (m * a) && n * Sq(b) == (m * b) * (m * b);
  }

  lemma FirstLength(w: real, k: real, n: real)
    requires 0.0 < k <= 0.15 && 0.92 <= w && w * w == 1.0 - k && n == k + Sq(w - k)
    ensures n <= 1.0
  {
    MulOrder(k, k, 2.0 * w);
    assert n == 1.0 - 2.0 * (w * k) + k * k;
  }

  lemma PairRange(n: real, k: real, rr: real, aa: real, bb: real)
    requires 0.59 <= n <= 1.0 && k <= 0.15 && k < rr && aa >= 0.0 && n * aa == k && n * bb == rr
    ensures k <= aa <= 0.26 && aa < bb
  {
    if aa > 0.26 { MulOrder(n, 0.26, aa); }
    MulOrder(aa, n, 1.0);
    if bb <= aa { MulOrder(n, bb, aa); }
  }

  /** A turn with positive cosine whose sine opposes a, and a pivot that has changed sign. */
  lemma FarSign(a: real, b: real, C: real, S: real, o: real, o': real, d': real)
    requires b > 0.0 && b * b > a * a && C == TurnCos(a, b) && S == TurnSin(a, b)
    requires Times(C * S, Times(d', o)) > 0.0 && Times(o', o) < 0.0
    ensures Times(Times(d', o'), a) > 0.0
  {
    var x := Times(Times(d', o), a);
    assert Times(C * S, Times(d', o)) == -2.0 * (C * b) * x;
    MulPositive(C, b);
    if x >= 0.0 { MulNonnegative(C * b, x); }
    MulPositive(-x, -Times(o', o));
    assert (-x) * (-Times(o', o)) == Times(Times(d', o'), a) * (o * o);
    if Times(Times(d', o'), a) <= 0.0 { MulNonnegative(-Times(Times(d', o'), a), o * o); }
  }

  lemma FirstSize(theta: real, k: real, s: real, o: real, d: real, o': real, d': real)
    requires d == 2.0 * theta * o && 0.0 <= k <= s && 10.0 * Sq(o') <= Sq(o)
    requires Energy(o', d') == Energy(o, d) && Sq(o') <= Times(FirstBound(theta) * Sq(k), Sq(o))
    ensures Sq(o') <= 1.15 * Times(Sq(s), Sq(d'))
  {
    SpreadGrows(o, d, o', d');
    SqNonnegative(o);
    SquareOrder(k, s);
    var need := FirstBound(theta) / 1.15;
    if Abs(theta) >= EXACT_LIMIT {
      LargeSpread(theta, o, d);
    }
    assert Sq(d') >= need * Sq(o);
    SqNonnegative(k);
    ProductBelow(Sq(k), Sq(s), need * Sq(o), Sq(d'));
    assert Times(FirstBound(theta) * Sq(k), Sq(o)) == 1.15 * Times(Sq(k), need * Sq(o));
  }

  lemma SpreadGrows(o: real, d: real, o': real, d': real)
    requires Energy(o', d') == Energy(o, d) && 10.0 * Sq(o') <= Sq(o)
    ensures Sq(d') >= Sq(d) + 3.6 * Sq(o) && Sq(d) >= 0.0
  {
    SqNonnegative(d);
  }

  lemma LargeSpread(theta: real, o: real, d: real)
    requires Abs(theta) >= EXACT_LIMIT && d == 2.0 * theta * o
    ensures Sq(d) >= 1600.0 * Sq(o)
  {
    SquareOrder(20.0, Abs(theta));
    SqNonnegative(o);
    assert Sq(d) == Sq(o) * (4.0 * Sq(theta));
    MulOrder(Sq(o), 1600.0, 4.0 * Sq(theta));
  }

  // ----- every later pass turns back, but not all the way

  /** The angle of the pass: against a, and of the second order in it. */
  lemma AngleBack(theta: real, t: real, c: real, h: real, w: real, a: real, b: real, o: real, d: real)
    requires PassAngle(theta, t, c, h, w) && d == 2.0 * theta * o && TurnedTooFar(a, b, o, d)
    ensures Times(a, h) < 0.0 && Sq(h) <= 0.34 * Sq(Sq(a))
  {
    NonzeroSpread(a, o, d);
    SquarePositive(d, Sq(d));
    TangentTimesSpread(theta, t, o, d);
    CancelSpread(t, d, Sq(Sq(a)));
    HalfOfTangent(t, c, h, w);
    BackSign(theta, t, c, h, w, a, o, d);
  }

  lemma CancelSpread(t: real, d: real, s: real)
    requires Sq(d) > 0.0 && Sq(t * d) <= 1.15 * Times(s, Sq(d))
    ensures Sq(t) <= 1.15 * s
  {
    assert Sq(t * d) == Sq(d) * Sq(t);
    CancelOrder(Sq(d), Sq(t), 1.15 * s);
  }

  lemma NonzeroSpread(a: real, o: real, d: real)
    requires Times(Times(d, o), a) > 0.0
    ensures d != 0.0 && o != 0.0 && a != 0.0
  {}

  lemma TangentTimesSpread(theta: real, t: real, o: real, d: real)
    requires TangentOf(theta, t) && d == 2.0 * theta * o
    ensures Sq(t * d) <= Sq(o)
  {
    var z := 2.0 * theta * t;
    assert t * t >= 0.0;
    assert 0.0 <= z <= 1.0;
    SquareOrder(z, 1.0);
    assert t * d == o * z;
    SqProductBound(t * d, o, z, 1.0);
  }

  lemma HalfOfTangent(t: real, c: real, h: real, w: real)
    requires HalfAngle(t, c, h, w) && t * t <= 1.0
    ensures 3.4 * Sq(h) <= Sq(t)
  {
    AngleRange(t, c, h, w);
    SquareOrder(c, 1.0);
    SqNonnegative(t);
    SqNonnegative(h);
    ProductBelow(Sq(t), Sq(t), Sq(c), 1.0);
    ProductBelow(Sq(h), Sq(h), 0.85, w * w);
    ResidueSquare(t, c, h, w, Sq(h));
  }

  lemma BackSign(theta: real, t: real, c: real, h: real, w: real, a: real, o: real, d: real)
    requires PassAngle(theta, t, c, h, w) && d == 2.0 * theta * o && Times(Times(d, o), a) > 0.0
    ensures Times(a, h) < 0.0
  {
    NonzeroSpread(a, o, d);
    ThetaAgainst(theta, a, o, d);
    var sgn := Sign(theta);
    SameSignAs(theta, a, sgn);
    SineAgainst(a, h, w, t, c, sgn);
  }

  lemma ThetaAgainst(theta: real, a: real, o: real, d: real)
    requires d == 2.0 * theta * o && o != 0.0 && Times(Times(d, o), a) > 0.0
    ensures Times(theta, a) > 0.0
  {
    SquarePositive(o, o * o);
    assert Times(Times(d, o), a) == 2.0 * (o * o) * Times(theta, a);
    if Times(theta, a) <= 0.0 { MulNonnegative(2.0 * (o * o), -Times(theta, a)); }
  }

  lemma SineAgainst(a: real, h: real, w: real, t: real, c: real, sgn: real)
    requires a * sgn > 0.0 && t * sgn > 0.0 && sgn * sgn == 1.0 && c > 0.0 && w > 0.0 && -2.0 * h * w == t * c
    ensures Times(a, h) < 0.0
  {
    MulPositive(a * sgn, t * sgn);
    assert (a * sgn) * (t * sgn) == (sgn * sgn) * (a * t);
    MulPositive(a * t, c);
    assert a * t * c == -2.0 * w * Times(a, h);
    if Times(a, h) >= 0.0 { MulNonnegative(2.0 * w, Times(a, h)); }
  }

  lemma SameSignAs(theta: real, a: real, sgn: real)
    requires Times(theta, a) > 0.0 && sgn == Sign(theta)
    ensures a * sgn > 0.0 && sgn * sgn == 1.0
  {
    if theta > 0.0 && a <= 0.0 { MulNonnegative(theta, -a); }
    if theta <= 0.0 && a >= 0.0 { MulNonnegative(-theta, a); }
  }

  /** The sizes of a, of the angle's sine h against it, and of the lead they leave. */
  lemma Magnitudes(a: real, b: real, h: real, w: real, l: real) returns (A: real, eta: real, lead: real, rest: real)
    requires Times(a, h) < 0.0 && l == Lead(a, b, h, w)
    ensures A > 0.0 && eta > 0.0 && A * A == a * a && eta * eta == h * h
    ensures lead == w * A - eta * b && rest == A - lead
    ensures a * l == A * lead && l * l == lead * lead && h * (a - l) == -(eta * rest) && l * (l - a) == -(lead * rest)
  {
    if a > 0.0 {
      if h >= 0.0 { MulNonnegative(a, h); }
      A, eta := a, -h;
    } else {
      if h <= 0.0 { MulNonnegative(-a, -h); }
      A, eta := -a, h;
    }
    lead := w * A - eta * b;
    rest := A - lead;
  }

  /** The ranges the second-order bound on the angle allows. */
  lemma BackRange(A: real, b: real, eta: real, w: real, lead: real, rest: real)
    requires A > 0.0 && eta > 0.0 && b > 0.0 && A * A + b * b == 1.0 && A * A <= 0.26 && eta * eta <= 0.34 * Sq(A * A)
    requires w > 0.0 && w * w + eta * eta == 1.0 && lead == w * A - eta * b && rest == A - lead
    ensures A <= 0.51 && 0.86 <= b <= 1.0 && eta <= 0.6 * (A * A) && eta <= 0.31 * A && eta <= 0.16
    ensures 0.987 <= w <= 1.0 && 0.67 * A <= lead <= A && 0.86 * eta <= rest <= 0.17 && rest <= 1.1 * eta
  {
    SineRange(A, eta);
    CosineRange(A, b, eta, w);
    LeadRange(A, b, eta, w);
    RestRange(A, b, eta, w);
  }

  lemma RestRange(A: real, b: real, eta: real, w: real)
    requires 0.0 < A <= 0.51 && 0.86 <= b <= 1.0 && 0.0 < eta <= 0.16 && 0.987 <= w <= 1.0 && w * w + eta * eta == 1.0
    ensures A - (w * A - eta * b) <= 1.1 * eta
  {
    MulNonnegative(eta, 1.0 - b);
    MulNonnegative(w, 1.0 - w);
    MulNonnegative(eta, 0.16 - eta);
    MulNonnegative(1.0 - w, 0.51 - A);
    assert A - (w * A - eta * b) == A * (1.0 - w) + eta * b;
    assert (1.0 - w) * (0.51 - A) == 0.51 * (1.0 - w) - A * (1.0 - w);
  }

  lemma SineRange(A: real, eta: real)
    requires A > 0.0 && eta > 0.0 && A * A <= 0.26 && eta * eta <= 0.34 * Sq(A * A)
    ensures A <= 0.51 && eta <= 0.6 * (A * A) && eta <= 0.31 * A && eta <= 0.16
  {
    SquareOrder(A, 0.51);
    SqNonnegative(A * A);
    assert Sq(0.6 * (A * A)) == 0.36 * Sq(A * A);
    SquareOrder(eta, 0.6 * (A * A));
    MulNonnegative(A, 0.51 - A);
  }

  lemma CosineRange(A: real, b: real, eta: real, w: real)
    requires b > 0.0 && w > 0.0 && A * A + b * b == 1.0 && 0.0 <= A * A <= 0.26
    requires w * w + eta * eta == 1.0 && 0.0 < eta <= 0.16
    ensures 0.86 <= b <= 1.0 && 0.987 <= w <= 1.0
  {
    SquareOrder(0.86, b);
    SquareOrder(b, 1.0);
    SquareOrder(eta, 0.16);
    SquareOrder(0.987, w);
    SquareOrder(w, 1.0);
  }

  lemma LeadRange(A: real, b: real, eta: real, w: real)
    requires 0.0 < A <= 0.51 && 0.86 <= b <= 1.0 && 0.0 < eta <= 0.31 * A && eta <= 0.16 && 0.987 <= w <= 1.0
    ensures 0.67 * A <= w * A - eta * b <= A && 0.86 * eta <= A - (w * A - eta * b) <= 0.17
  {
    MulNonnegative(A, w - 0.987);
    MulNonnegative(A, 1.0 - w);
    MulNonnegative(eta, 1.0 - b);
    MulNonnegative(eta, b - 0.86);
  }

  /** The turn the update makes has sine and cosine in the ratio of h q to r; its square length is n. */
  predicate Update(b: real, w: real, k: real, along: real, back: real, q: real, r: real, B: real, n: real) {
    && q == b * b + along && r == w - back && B == r * r - k * (q * q) && n == r * r + k * (q * q)
  }

  lemma UpdateRange(b: real, w: real, k: real, along: real, back: real, q: real, r: real, B: real, n: real)
    requires Update(b, w, k, along, back, q, r, B, n) && 0.86 <= b && 0.987 <= w <= 1.0
    requires 0.0 <= k <= 0.0256 && 0.0 <= along <= 1.0 - b * b && 0.0 <= back <= 0.0272
    ensures 0.73 <= q <= 1.0 && 0.95 <= r <= 1.0 && 0.87 <= B <= 1.0 && 0.9 <= n <= 1.03
  {
    SquareOrder(0.86, b);
    SquareOrder(0.95, r);
    SquareOrder(r, 1.0);
    SquareOrder(q, 1.0);
    MulNonnegative(k, q * q);
    MulNonnegative(k, 1.0 - q * q);
  }

  /** The two terms of the factor the pass applies to the pivot: the first turns back, the second is what the asymptote
      leaves, and the first prevails. The square of the factor is of the order of k. */
  lemma TurnsBack(lead: real, rest: real, e: real, f: real, x: real, kappa: real, y: real, n: real, k: real)
    requires 0.0 < lead && lead * lead <= 0.26 && 0.0 < rest && rest * rest <= 1.22 * k
    requires 0.9 <= e <= 1.04 && 0.8 <= f <= 1.2 && 0.0 < x <= 1.0
    requires 0.0 <= kappa < 0.72 * Times(lead, rest) && y >= 0.92 && n >= 0.9
    ensures var g := -(lead * rest * e);
      && Times(g, f) + Times(x, kappa) < 0.0
      && Sq(Times(g, f) + Times(x, kappa)) <= Times(1.02 * k, Sq(Times(y, n * n)))
  {
    var p := Times(lead, rest);
    MulPositive(lead, rest);
    ProductBelow(0.9, e, 0.8, f);
    ProductBelow(e, 1.04, f, 1.2);
    var ef := Times(e, f);
    ProductBelow(p, p, 0.72, ef);
    ProductBelow(p, p, ef, 1.25);
    ProductBelow(x, 1.0, kappa, kappa);
    MulNonnegative(x, kappa);
    Regrouped(lead, rest, e, f);
    var whole := Times(p, ef) - Times(x, kappa);
    WholeSquare(lead, rest, p, whole, k);
    assert Sq(whole) == Sq(-whole);
    ProductBelow(0.9, n, 0.9, n);
    ProductBelow(0.92, y, 0.81, n * n);
    SquareOrder(0.7, Times(y, n * n));
    SqNonnegative(rest);
    MulOrder(1.02 * k, 0.49, Sq(Times(y, n * n)));
  }

  lemma WholeSquare(lead: real, rest: real, p: real, whole: real, k: real)
    requires lead * lead <= 0.26 && rest * rest <= 1.22 * k && p == Times(lead, rest) && 0.0 < whole <= 1.25 * p
    ensures Sq(whole) <= 0.496 * k
  {
    SquareOrder(whole, 1.25 * p);
    SqNonnegative(lead);
    SqNonnegative(rest);
    SquareProduct(lead, rest);
    ProductBelow(Sq(lead), 0.26, Sq(rest), 1.22 * k);
    assert Sq(1.25 * p) == 1.5625 * Sq(p);
  }

  lemma Regrouped(lead: real, rest: real, e: real, f: real)
    ensures Times(-(lead * rest * e), f) == -Times(Times(lead, rest), Times(e, f))
  {}

  lemma FactorRange(w: real, k: real, c: real, q: real, r: real, B: real, e: real, f: real, x: real, y: real)
    requires 0.987 <= w <= 1.0 && 0.0 < k <= 0.0256 && c == 1.0 - 2.0 * k
    requires 0.73 <= q <= 1.0 && 0.95 <= r <= 1.0 && 0.87 <= B <= 1.0
    requires e == w * r + k * q && f == c * B + 4.0 * k * w * (q * r) && x == q * r * B && y == w * c
    ensures 0.9 <= e <= 1.04 && 0.8 <= f <= 1.2 && 0.0 < x <= 1.0 && y >= 0.92
  {
    ProductBelow(0.987, w, 0.95, r);
    ProductBelow(w, 1.0, r, 1.0);
    ProductBelow(k, 0.0256, q, 1.0);
    MulPositive(k, q);
    ProductBelow(0.94, c, 0.87, B);
    ProductBelow(c, 1.0, B, 1.0);
    ProductBelow(q, 1.0, r, 1.0);
    MulPositive(q, r);
    MulPositive(w, q * r);
    ProductBelow(w, 1.0, q * r, 1.0);
    ProductBelow(k, 0.0256, w * (q * r), 1.0);
    MulPositive(k, w * (q * r));
    assert 4.0 * k * w * (q * r) == 4.0 * Times(k, w * (q * r));
    ProductBelow(q * r, 1.0, B, 1.0);
    MulPositive(q * r, B);
    ProductBelow(0.987, w, 0.94, c);
  }

  lemma ResidueRange(theta: real, t: real, c: real, h: real, w: real, k: real, kappa: real)
    requires PassAngle(theta, t, c, h, w) && kappa == Residue(theta, t, c) && k == h * h
    requires 0.987 <= w <= 1.0 && 0.7 <= c <= 1.0
    ensures kappa == 0.0 || (0.0 <= kappa <= 4.0 * k && k <= 0.000001)
  {
    if Abs(theta) >= EXACT_LIMIT {
      SquareOrder(0.987, w);
      SquarePositive(h, k);
      TinyAngle(t, c, h, w, k, kappa);
      SquareOrder(w, 1.0);
      ProductBelow(k, k, w * w, 1.0);
    }
  }

  /** Above the limit on theta the residue is small against the turn back. */
  lemma ResidueSmall(k: real, kappa: real, A: real, eta: real, lead: real, rest: real)
    requires kappa == 0.0 || (0.0 <= kappa <= 4.0 * k && k <= 0.000001)
    requires k == eta * eta && 0.0 < A <= 0.51 && 0.0 < eta <= 0.6 * (A * A) && lead >= 0.67 * A && rest >= 0.86 * eta
    ensures 0.0 <= kappa < 0.72 * Times(lead, rest)
  {
    MulPositive(A, eta);
    ProductBelow(0.67 * A, lead, 0.86 * eta, rest);
    assert Times(0.67 * A, 0.86 * eta) == 0.5762 * Times(A, eta);
    if kappa != 0.0 {
      SquareOrder(eta, 0.001);
      TenTimes(A, eta);
    }
  }

  lemma TenTimes(A: real, eta: real)
    requires 0.0 < A <= 0.51 && 0.0 < eta <= 0.6 * (A * A) && eta <= 0.001
    ensures 4.0 * (eta * eta) < 0.4 * Times(A, eta)
  {
    assert 10.0 * eta < A by {
      if A < 0.1 { MulNonnegative(A, 0.1 - A); }
    }
    MulPositive(eta, A - 10.0 * eta);
  }

  /** The scalars of a pass from the half angle (a, b): the update leads to (l, v) / m, by a turn (h q, r) / m. */
  predicate BackUpdate(a: real, b: real, h: real, w: real, l: real, v: real, q: real, r: real) {
    l == Lead(a, b, h, w) && v == Trail(b, l, h, w) && q == b * b + a * l && r == w + h * b * (a - l)
  }

  lemma UpdateTurn(a: real, b: real, h: real, w: real, l: real, v: real, q: real, r: real)
    requires UnitPair(a, b) && BackUpdate(a, b, h, w, l, v, q, r)
    ensures Lead(a, b, h * q, r) == l && Trail(b, a, h * q, r) == v
    ensures r - q * w == (a - l) * l
  {
    TurnLead(a, b, h, w, l, q, r);
    TurnTrail(a, b, h, w, l, v, q, r);
    TurnGap(a, b, h, w, l, q, r);
  }

  lemma TurnGap(a: real, b: real, h: real, w: real, l: real, q: real, r: real)
    requires a * a + b * b == 1.0 && l == w * a + h * b && q == b * b + a * l && r == w + h * b * (a - l)
    ensures r - q * w == (a - l) * l
  {
    assert q == 1.0 - a * (a - l);
    assert r - q * w == h * b * (a - l) + w * (a * (a - l));
  }

  lemma TurnLead(a: real, b: real, h: real, w: real, l: real, q: real, r: real)
    requires UnitPair(a, b) && l == Lead(a, b, h, w) && q == b * b + a * l && r == w + h * b * (a - l)
    ensures r * a + h * q * b == l
  {
    assert r * a + h * q * b == w * a + h * b * (a * a + b * b);
  }

  lemma TurnTrail(a: real, b: real, h: real, w: real, l: real, v: real, q: real, r: real)
    requires UnitPair(a, b) && v == Trail(b, l, h, w) && q == b * b + a * l && r == w + h * b * (a - l)
    ensures r * b - h * q * a == v
  {
    TrailIdentity(a, b, h, w, l);
    assert h * l * (a * a + b * b) == h * l;
  }

  lemma TrailIdentity(a: real, b: real, h: real, w: real, l: real)
    ensures (w + h * b * (a - l)) * b - h * (b * b + a * l) * a == w * b - h * l * (a * a + b * b)
  {}

  lemma MissingBack(w: real, k: real, c: real, q: real, r: real, B: real, l: real, a: real, e: real)
    requires r - q * w == (a - l) * l && c == w * w - k && B == r * r - k * (q * q) && e == w * r + k * q
    ensures w * B - q * r * c == -(l * (l - a) * e)
  {
    assert w * B - q * r * c == (r - q * w) * e;
  }

  lemma BackTurn(m: real, n: real, h: real, k: real, q: real, r: real, x: real, y: real, B: real)
    requires n == m * m && m * x == h * q && m * y == r && k == h * h && B == r * r - k * (q * q)
    ensures n * TurnCos(x, y) == B && n * TurnSin(x, y) == -2.0 * h * (q * r)
  {
    assert m * m * (y * y - x * x) == (m * y) * (m * y) - (m * x) * (m * x);
    assert m * m * (-2.0 * x * y) == -2.0 * (m * x) * (m * y);
  }

  /** The ranges of the scalars of such a pass. */
  predicate BackScalars(w: real, c: real, k: real, q: real, r: real, B: real, n: real, lead: real, rest: real,
      kappa: real) {
    && 0.987 <= w <= 1.0 && 0.0 < k <= 0.0256 && c == 1.0 - 2.0 * k && c == w * w - k
    && 0.73 <= q <= 1.0 && 0.95 <= r <= 1.0 && B == r * r - k * (q * q) && 0.87 <= B <= 1.0 && 0.9 <= n <= 1.03
    && 0.0 < lead && lead * lead <= 0.26 && 0.0 < rest && rest * rest <= 1.22 * k
    && 0.0 <= kappa < 0.72 * Times(lead, rest)
  }

  lemma BackNumbers(theta: real, t: real, c: real, h: real, w: real, a: real, b: real, o: real, d: real,
      l: real, v: real, q: real, r: real, k: real, B: real, n: real, kappa: real) returns (lead: real, rest: real)
    requires PassAngle(theta, t, c, h, w) && d == 2.0 * theta * o && TurnedTooFar(a, b, o, d)
    requires BackUpdate(a, b, h, w, l, v, q, r) && k == h * h && kappa == Residue(theta, t, c)
    requires B == r * r - k * (q * q) && n == r * r + k * (q * q)
    ensures BackScalars(w, c, k, q, r, B, n, lead, rest, kappa)
    ensures l * (l - a) == -(lead * rest) && l * l == lead * lead && a * l > 0.0 && h * l < 0.0
    ensures lead * lead >= 0.44 * Sq(a) && lead * lead <= w * w * Sq(a)
  {
    AngleBack(theta, t, c, h, w, a, b, o, d);
    var A, eta: real;
    A, eta, lead, rest := Magnitudes(a, b, h, w, l);
    BackRange(A, b, eta, w, lead, rest);
    LeadAndRest(A, eta, lead, rest);
    BackLengths(A, b, eta, w, lead, rest, k, q, r, B, n, a, l, h);
    ResidueRange(theta, t, c, h, w, k, kappa);
    ResidueSmall(k, kappa, A, eta, lead, rest);
    LeadSquares(A, b, eta, w, lead);
    LeadSign(a, h, l, A, eta, lead, rest);
  }

  lemma LeadAndRest(A: real, eta: real, lead: real, rest: real)
    requires A > 0.0 && eta > 0.0 && A * A <= 0.26 && 0.0 < lead <= A && 0.0 < rest <= 1.1 * eta
    ensures lead * lead <= 0.26 && rest * rest <= 1.22 * (eta * eta)
  {
    SquareOrder(lead, A);
    SquareOrder(rest, 1.1 * eta);
    MulPositive(eta, eta);
  }

  lemma LeadSquares(A: real, b: real, eta: real, w: real, lead: real)
    requires A > 0.0 && eta > 0.0 && b > 0.0 && w > 0.0 && lead == w * A - eta * b && lead >= 0.67 * A
    ensures lead * lead >= 0.44 * (A * A) && lead * lead <= w * w * (A * A)
  {
    SquareOrder(0.67 * A, lead);
    MulPositive(eta, b);
    MulPositive(w, A);
    SquareOrder(lead, w * A);
  }

  lemma LeadSign(a: real, h: real, l: real, A: real, eta: real, lead: real, rest: real)
    requires A > 0.0 && eta > 0.0 && lead > 0.0 && rest == A - lead && Times(a, h) < 0.0
    requires a * l == A * lead && A * A == a * a && h * (a - l) == -(eta * rest) && eta * eta == h * h
    ensures a * l > 0.0 && h * l < 0.0
  {
    MulPositive(A, lead);
    assert (a * l) * Times(a, h) == a * a * (h * l);
    MulPositive(a * l, -Times(a, h));
    if h * l >= 0.0 { MulNonnegative(a * a, h * l); }
  }

  lemma BackLengths(A: real, b: real, eta: real, w: real, lead: real, rest: real,
      k: real, q: real, r: real, B: real, n: real, a: real, l: real, h: real)
    requires 0.0 < A <= 0.51 && 0.86 <= b <= 1.0 && 0.0 < eta <= 0.16 && 0.987 <= w <= 1.0
    requires 0.67 * A <= lead <= A && 0.86 * eta <= rest <= 0.17 && A * A + b * b == 1.0
    requires k == eta * eta && q == b * b + a * l && a * l == A * lead && h * (a - l) == -(eta * rest)
    requires r == w + h * b * (a - l) && B == r * r - k * (q * q) && n == r * r + k * (q * q)
    ensures 0.0 < k <= 0.0256 && 0.73 <= q <= 1.0 && 0.95 <= r <= 1.0 && 0.87 <= B <= 1.0 && 0.9 <= n <= 1.03
  {
    SquareOrder(eta, 0.16);
    MulPositive(eta, eta);
    AlongRange(A, b, lead);
    var back := BackTerm(b, eta, rest, h, a, l);
    UpdateRange(b, w, k, a * l, back, q, r, B, n);
  }

  lemma AlongRange(A: real, b: real, lead: real)
    requires 0.0 < lead <= A && A * A + b * b == 1.0
    ensures 0.0 <= A * lead <= 1.0 - b * b
  {
    MulNonnegative(A, lead);
    MulOrder(A, lead, A);
  }

  lemma BackTerm(b: real, eta: real, rest: real, h: real, a: real, l: real) returns (back: real)
    requires 0.86 <= b <= 1.0 && 0.0 < eta <= 0.16 && 0.0 < rest <= 0.17 && h * (a - l) == -(eta * rest)
    ensures 0.0 <= back <= 0.0272 && h * b * (a - l) == -back
  {
    back := Times(b, Times(eta, rest));
    ProductBelow(eta, 0.16, rest, 0.17);
    MulNonnegative(eta, rest);
    ProductBelow(b, 1.0, Times(eta, rest), 0.0272);
    MulNonnegative(b, Times(eta, rest));
    assert h * b * (a - l) == b * (h * (a - l));
  }

  /** What the pass leaves of the pivot: a pivot of the same sign and at most a fraction of its size. */
  lemma BackEntry(theta: real, t: real, c: real, h: real, w: real, o: real, d: real, a: real, l: real,
      q: real, r: real, m: real, x: real, y: real, o': real, k: real, B: real, n: real, kappa: real, lead: real,
          rest: real)
    requires PassAngle(theta, t, c, h, w) && d == 2.0 * theta * o && o != 0.0 && kappa == Residue(theta, t, c)
    requires BackScalars(w, c, k, q, r, B, n, lead, rest, kappa) && k == h * h && n == m * m
    requires l * (l - a) == -(lead * rest) && r - q * w == (a - l) * l && m * x == h * q && m * y == r
    requires o' == TurnedEntry(o, d, TurnCos(x, y), TurnSin(x, y))
    ensures Times(o', o) > 0.0 && Sq(o') <= Times(1.02 * k, Sq(o))
  {
    var e, f, z, p := w * r + k * q, c * B + 4.0 * k * w * (q * r), q * r, w * c;
    FactorRange(w, k, c, q, r, B, e, f, z * B, p);
    TurnsBack(lead, rest, e, f, z * B, kappa, p, n, k);
    MissingBack(w, k, c, q, r, B, l, a, e);
    BackTurn(m, n, h, k, q, r, x, y, B);
    var g := -(lead * rest * e);
    SameFactor(l, a, e, lead, rest);
    LeftOver(theta, t, c, h, w, o, d, TurnCos(x, y), TurnSin(x, y), o', k, z, B, n, kappa,
      B * B - 4.0 * k * (z * z), c * c - 4.0 * k * (w * w), z * B, p, g, f);
    Conclude(p, n, o, o', Times(g, f) + Times(z * B, kappa), 1.02 * k);
  }

  lemma SameFactor(l: real, a: real, e: real, lead: real, rest: real)
    requires l * (l - a) == -(lead * rest)
    ensures l * (l - a) * e == -(lead * rest * e)
  {}

  /** The half angle after the pass: no larger, and not much smaller. */
  lemma BackPair(a: real, b: real, h: real, w: real, l: real, v: real, m: real, n: real, a': real, b': real)
    requires UnitPair(a, b) && b > 0.0 && w > 0.0 && v == Trail(b, l, h, w) && h * l < 0.0
    requires 0.44 * Sq(a) <= l * l <= w * w * Sq(a) && m > 0.0 && n == m * m && n == l * l + v * v && n <= 1.03
    requires m * a' == l && m * b' == v
    ensures b' > 0.0 && 0.42 * Sq(a) <= Sq(a') <= Sq(a)
  {
    MulPositive(w, b);
    PositiveQuotient(m, b', v);
    PairSquares(m, a', b', l, v, n);
    SquareOrder(w * b, v);
    SqNonnegative(a);
    SqNonnegative(a');
    NotLarger(Sq(a), b * b, w * w, l * l, v * v, n, Sq(a'));
    NotMuchSmaller(n, Sq(a'), Sq(a));
  }

  lemma NotLarger(aa: real, bb: real, ww: real, ll: real, vv: real, n: real, aa': real)
    requires aa + bb == 1.0 && aa >= 0.0 && bb >= 0.0 && ll <= ww * aa && vv >= ww * bb && n == ll + vv && n > 0.0
    requires n * aa' == ll
    ensures aa' <= aa
  {
    MulNonnegative(bb, ww * aa - ll);
    MulNonnegative(aa, vv - ww * bb);
    assert aa * vv - bb * ll >= 0.0;
    assert n * aa - ll == aa * vv - bb * ll by {
      assert n * aa == ll * aa + vv * aa;
      assert ll == ll * (aa + bb);
    }
    CancelOrder(n, aa', aa);
  }

  lemma NotMuchSmaller(n: real, aa': real, aa: real)
    requires 0.0 < n <= 1.03 && aa' >= 0.0 && n * aa' >= 0.44 * aa
    ensures aa' >= 0.42 * aa
  {
    MulNonnegative(aa', 1.03 - n);
  }

  lemma BackSize(a: real, o: real, d: real, a': real, o': real, d': real)
    requires Sq(o) <= 1.15 * Times(Sq(Sq(a)), Sq(d)) && 0.42 * Sq(a) <= Sq(a') && Sq(o') <= Times(0.06, Sq(o))
    requires Energy(o', d') == Energy(o, d)
    ensures Sq(o') <= 1.15 * Times(Sq(Sq(a')), Sq(d'))
  {
    SqNonnegative(o);
    SpreadGrows(o, d, o', d');
    SqNonnegative(a);
    SquareOrder(0.42 * Sq(a), Sq(a'));
    SqNonnegative(Sq(a));
    assert Sq(0.42 * Sq(a)) == 0.1764 * Sq(Sq(a));
    ProductBelow(0.1764 * Sq(Sq(a)), Sq(Sq(a')), Sq(d), Sq(d'));
    assert Times(0.1764 * Sq(Sq(a)), Sq(d)) == 0.1764 * Times(Sq(Sq(a)), Sq(d));
  }

  /** A turn with positive cosine whose sine opposes h, which opposes a, and a pivot that has kept its sign. */
  lemma BackSignOf(h: real, l: real, m: real, q: real, r: real, B: real, n: real,
      C: real, S: real, o: real, o': real, d': real, a': real)
    requires m > 0.0 && q > 0.0 && r > 0.0 && B > 0.0 && n > 0.0 && n * C == B && n * S == -2.0 * h * (q * r)
    requires h * l < 0.0 && m * a' == l && Times(C * S, Times(d', o)) > 0.0 && Times(o', o) > 0.0
    ensures Times(Times(d', o'), a') > 0.0
  {
    SpreadAgainst(h, q, r, B, n, C, S, o, d');
    SameProduct(h, Times(d', o), l);
    KeptSign(l, m, a', o, o', d');
  }

  lemma SpreadAgainst(h: real, q: real, r: real, B: real, n: real, C: real, S: real, o: real, d': real)
    requires q > 0.0 && r > 0.0 && B > 0.0 && n > 0.0 && n * C == B && n * S == -2.0 * h * (q * r)
    requires Times(C * S, Times(d', o)) > 0.0
    ensures h * Times(d', o) < 0.0
  {
    PositiveQuotient(n, C, B);
    MulPositive(q, r);
    var p := Times(d', o);
    MulPositive(n, Times(C * S, p));
    assert n * Times(C * S, p) == C * (n * S) * p;
    assert C * (n * S) * p == -2.0 * (C * (q * r)) * (h * p);
    MulPositive(C, q * r);
    if h * p >= 0.0 { MulNonnegative(C * (q * r), h * p); }
  }

  lemma SameProduct(h: real, p: real, l: real)
    requires h * p < 0.0 && h * l < 0.0
    ensures Times(p, l) > 0.0
  {
    MulPositive(-(h * p), -(h * l));
    assert (h * p) * (h * l) == h * h * Times(p, l);
    if Times(p, l) <= 0.0 { MulNonnegative(h * h, -Times(p, l)); }
  }

  lemma KeptSign(l: real, m: real, a': real, o: real, o': real, d': real)
    requires m > 0.0 && m * a' == l && Times(Times(d', o), l) > 0.0 && Times(o', o) > 0.0
    ensures Times(Times(d', o'), a') > 0.0
  {
    var z := Times(Times(d', o'), a');
    MulPositive(Times(Times(d', o), l), Times(o', o));
    assert Times(Times(d', o), l) * Times(o', o) == (o * o) * (d' * o' * l);
    assert d' * o' * l == m * z;
    assert o * o >= 0.0;
    MulNonnegative(m, o * o);
    if z <= 0.0 { MulNonnegative(m * (o * o), -z); }
  }

  /** A pass from a state that has turned too far leads to another such state. */
  lemma BackState(theta: real, t: real, c: real, h: real, w: real, a: real, b: real, o: real, d: real,
      l: real, v: real, q: real, r: real, m: real, x: real, y: real, a': real, b': real, o': real, d': real)
    requires PassAngle(theta, t, c, h, w) && d == 2.0 * theta * o && TurnedTooFar(a, b, o, d)
    requires BackUpdate(a, b, h, w, l, v, q, r) && m > 0.0 && m * m == l * l + v * v
    requires m * x == h * q && m * y == r && UnitPair(x, y) && m * a' == l && m * b' == v && UnitPair(a', b')
    requires o' == TurnedEntry(o, d, TurnCos(x, y), TurnSin(x, y))
    requires d' == TurnedSpread(o, d, TurnCos(x, y), TurnSin(x, y))
    requires Energy(o', d') == Energy(o, d)
    ensures TurnedTooFar(a', b', o', d') && Squared(o, d, o', d')
  {
    var k, n, kappa := h * h, m * m, Residue(theta, t, c);
    var B := r * r - k * (q * q);
    UpdateLength(m, h, k, q, r, x, y);
    var lead, rest := BackNumbers(theta, t, c, h, w, a, b, o, d, l, v, q, r, k, B, n, kappa);
    UpdateTurn(a, b, h, w, l, v, q, r);
    NonzeroSpread(a, o, d);
    BackEntry(theta, t, c, h, w, o, d, a, l, q, r, m, x, y, o', k, B, n, kappa, lead, rest);
    FactorSmall(theta, t, c, h, w, k, o, d, o', d');
    BackPair(a, b, h, w, l, v, m, n, a', b');
    BackSize(a, o, d, a', o', d');
    BackTurn(m, n, h, k, q, r, x, y, B);
    TurnIsRotation(x, y);
    StillFar(h, l, m, q, r, B, n, TurnCos(x, y), TurnSin(x, y), o, d, o', d', a');
  }

  /** What the pass leaves is of the second order in what was there, against the spread, which has not shrunk. */
  predicate Squared(o: real, d: real, o': real, d': real) {
    Times(Sq(o'), Sq(d)) <= 0.3 * Sq(Sq(o)) && Sq(d') >= Sq(d)
  }

  lemma FactorSmall(theta: real, t: real, c: real, h: real, w: real, k: real, o: real, d: real, o': real, d': real)
    requires PassAngle(theta, t, c, h, w) && d == 2.0 * theta * o && k == h * h && 0.0 < k <= 0.0256
    requires Sq(o') <= Times(1.02 * k, Sq(o)) && Energy(o', d') == Energy(o, d)
    ensures Squared(o, d, o', d') && Sq(o') <= Times(0.06, Sq(o))
  {
    SqNonnegative(o);
    SqNonnegative(d);
    SmallFactor(k, Sq(o), Sq(o'));
    SpreadGrows(o, d, o', d');
    TangentTimesSpread(theta, t, o, d);
    HalfOfTangent(t, c, h, w);
    SineTimesSpread(t, h, k, o, d);
    SecondOrder(k, o, d, o');
  }

  lemma SmallFactor(k: real, oo: real, oo': real)
    requires k <= 0.0256 && oo >= 0.0 && oo' <= Times(1.02 * k, oo)
    ensures oo' <= Times(0.06, oo)
  {
    MulNonnegative(oo, 0.0256 - k);
  }

  lemma SineTimesSpread(t: real, h: real, k: real, o: real, d: real)
    requires 3.4 * Sq(h) <= Sq(t) && Sq(t * d) <= Sq(o) && k == h * h
    ensures 3.4 * Times(k, Sq(d)) <= Sq(o)
  {
    SqNonnegative(d);
    MulOrder(Sq(d), 3.4 * Sq(h), Sq(t));
    assert Sq(t * d) == Sq(d) * Sq(t);
  }

  lemma SecondOrder(k: real, o: real, d: real, o': real)
    requires 3.4 * Times(k, Sq(d)) <= Sq(o) && Sq(o') <= Times(1.02 * k, Sq(o))
    ensures Times(Sq(o'), Sq(d)) <= 0.3 * Sq(Sq(o))
  {
    SqNonnegative(d);
    SqNonnegative(o);
    MulOrder(Sq(d), Sq(o'), Times(1.02 * k, Sq(o)));
    MulOrder(Sq(o), 3.4 * Times(k, Sq(d)), Sq(o));
    assert Sq(d) * Times(1.02 * k, Sq(o)) == 0.3 * (Sq(o) * (3.4 * Times(k, Sq(d))));
  }

  lemma StillFar(h: real, l: real, m: real, q: real, r: real, B: real, n: real, C: real, S: real,
      o: real, d: real, o': real, d': real, a': real)
    requires m > 0.0 && q > 0.0 && r > 0.0 && B > 0.0 && n > 0.0 && n * C == B && n * S == -2.0 * h * (q * r)
    requires C * C + S * S == 1.0 && o' == TurnedEntry(o, d, C, S) && d' == TurnedSpread(o, d, C, S)
    requires h * l < 0.0 && m * a' == l && o != 0.0 && Times(o', o) > 0.0 && Sq(o') <= Times(0.06, Sq(o))
    ensures Times(Times(d', o'), a') > 0.0
  {
    SqNonnegative(o);
    SpreadSign(o, d, C, S, o', d');
    BackSignOf(h, l, m, q, r, B, n, C, S, o, o', d', a');
  }

  lemma UpdateLength(m: real, h: real, k: real, q: real, r: real, x: real, y: real)
    requires m * x == h * q && m * y == r && UnitPair(x, y) && k == h * h
    ensures m * m == r * r + k * (q * q)
  {
    assert (m * x) * (m * x) + (m * y) * (m * y) == m * m * (x * x + y * y);
    assert (h * q) * (h * q) == k * (q * q);
  }
}
