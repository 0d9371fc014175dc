/** Passes whose update in place still is a turn about the pivot axis: those that start from a quaternion whose two
    pairs are parallel, as in the first pass of every run. There the update turns too far, but it contracts. */
module AxisTurn {
  import opened Reals
  import opened Matrix3
  import opened Quaternion
  import opened JacobiRotation
  import opened JacobiStep
  import opened PlaneRotation
  import opened JacobiConvergence
  import opened UpdateOrder

  /** The area spanned by the two pairs of components that a turn about the axis mixes. */
  function Cross(q: Quat, axis: Axis): real {
    First(q, axis).lead * Second(q, axis).trail - First(q, axis).trail * Second(q, axis).lead
  }

  predicate Parallel(q: Quat, axis: Axis) { Cross(q, axis) == 0.0 }

  /** A bound on the square of the error of one update, for a rotation with half-angle sine h and cosine w. */
  function Slack(h: real, w: real): real { Sq(h) * (2.0 - 2.0 * w) }

  // ----- how far the update in place turns beyond the intended rotation

  /** (a, b) is turned to (l, u) by the product and to a multiple of (l, v) in place. */
  predicate TurnedPair(a: real, b: real, h: real, w: real, l: real, u: real, v: real) {
    && UnitPair(a, b) && UnitPair(h, w)
    && l == Lead(a, b, h, w) && u == Trail(b, a, h, w) && v == Trail(b, l, h, w)
  }

  lemma ErrorBound(a: real, b: real, h: real, w: real, l: real, u: real, v: real)
    requires TurnedPair(a, b, h, w, l, u, v)
    ensures UnitPair(l, u) && v - u == h * (a - l) && Sq(v - u) <= Slack(h, w)
  {
    OffByTurn(a, b, h, w, a - l, a * h + b * (1.0 - w));
    TurnKeepsUnit(a, b, h, w, l, u);
    assert v - u == h * (a - l);
    SqProductBound(v - u, h, a - l, 2.0 - 2.0 * w);
  }

  lemma TurnKeepsUnit(a: real, b: real, h: real, w: real, l: real, u: real)
    requires UnitPair(a, b) && UnitPair(h, w) && l == Lead(a, b, h, w) && u == Trail(b, a, h, w)
    ensures UnitPair(l, u)
  {
    assert l * l + u * u == (a * a + b * b) * (h * h + w * w);
  }

  lemma OffByTurn(a: real, b: real, h: real, w: real, x: real, y: real)
    requires UnitPair(a, b) && UnitPair(h, w) && x == a - Lead(a, b, h, w) && y == a * h + b * (1.0 - w)
    ensures Sq(x) <= 2.0 - 2.0 * w
  {
    assert x == a * (1.0 - w) - h * b;
    assert x * x + y * y == (a * a + b * b) * ((1.0 - w) * (1.0 - w) + h * h);
    assert (1.0 - w) * (1.0 - w) + h * h == 2.0 - 2.0 * w;
    assert y * y >= 0.0;
  }

  /** The turn from (l, u) to (l, v) / m. */
  lemma ResidualTurn(l: real, u: real, v: real, m: real) returns (h: real, w: real)
    requires UnitPair(l, u) && m > 0.0 && m * m == l * l + v * v
    ensures UnitPair(h, w)
    ensures Lead(l, u, h, w) == Times(1.0 / m, l) && Trail(u, l, h, w) == Times(1.0 / m, v)
    ensures Sq(h) <= Sq(v - u) && h == -(1.0 / m) * (l * (v - u))
  {
    var k := 1.0 / m;
    assert k * m == 1.0;
    h, w := k * (u * l - l * v), k * (l * l + u * v);
    ResidualUnit(l, u, v, m, k, h, w);
    ResidualSine(l, u, v, m, k, h);
    assert Lead(l, u, h, w) == k * (l * (l * l + u * u));
    assert Trail(u, l, h, w) == k * (v * (l * l + u * u));
  }

  lemma ResidualUnit(l: real, u: real, v: real, m: real, k: real, h: real, w: real)
    requires UnitPair(l, u) && k * m == 1.0 && m * m == l * l + v * v
    requires h == k * (u * l - l * v) && w == k * (l * l + u * v)
    ensures UnitPair(h, w)
  {
    assert h * h + w * w == k * k * ((u * l - l * v) * (u * l - l * v) + (l * l + u * v) * (l * l + u * v));
    assert (u * l - l * v) * (u * l - l * v) + (l * l + u * v) * (l * l + u * v) == (l * l + u * u) * (l * l + v * v);
    assert k * k * (m * m) == (k * m) * (k * m);
  }

  lemma ResidualSine(l: real, u: real, v: real, m: real, k: real, h: real)
    requires k * m == 1.0 && m * m == l * l + v * v && h == k * (u * l - l * v)
    ensures Sq(h) <= Sq(v - u)
  {
    var e := v - u;
    assert h == -k * (l * e);
    var kl := k * l;
    KBelow(l, v, m, k);
    assert Sq(h) == Sq(kl) * Sq(e);
    MulOrder(Sq(e), Sq(kl), 1.0);
  }

  lemma KBelow(l: real, v: real, m: real, k: real)
    requires k * m == 1.0 && m * m == l * l + v * v
    ensures Sq(k * l) <= 1.0
  {
    assert Sq(k * l) + Sq(k * v) == k * k * (m * m);
    assert k * k * (m * m) == (k * m) * (k * m);
    assert Sq(k * v) >= 0.0;
  }

  // ----- what the excess turn does to the pivot entry

  lemma ExcessFactor(h: real, w: real, C: real, S: real)
    requires UnitPair(h, w) && C == TurnCos(h, w) && S == TurnSin(h, w)
    ensures Sq(C * S) <= 4.0 * Sq(h) && Sq(C * C - S * S) <= 1.0
  {
    TurnIsRotation(h, w);
    DoubleTurn(C, S, C * C - S * S, C * S);
    SquaresBelowOne(C, S);
    SquaresBelowOne(h, w);
    SqProductBound(C * S, S, C, 1.0);
    SqProductBound(S, -2.0 * h, w, 1.0);
    assert Sq(-2.0 * h) == 4.0 * Sq(h);
    assert Sq(C * S) >= 0.0;
  }

  lemma SquaresBelowOne(h: real, w: real)
    requires UnitPair(h, w)
    ensures Sq(h) <= 1.0 && Sq(w) <= 1.0
  {
    assert h * h >= 0.0 && w * w >= 0.0;
  }

  lemma AngleRange(t: real, c: real, h: real, w: real)
    requires HalfAngle(t, c, h, w) && t * t <= 1.0
    ensures Sq(c) >= 0.5 && Sq(w) >= 0.85 && 0.92 <= w <= 1.0
  {
    CosineSquare(t * t, c * c);
    SquareOrder(0.7, c);
    SquareOrder(0.92, w);
    SquareOrder(w, 1.0);
  }

  lemma CosineSquare(tt: real, cc: real)
    requires tt <= 1.0 && cc >= 0.0 && cc * (1.0 + tt) == 1.0
    ensures cc >= 0.5
  {
    MulOrder(cc, 1.0 + tt, 2.0);
  }

  lemma AngleBounds(t: real, c: real, h: real, w: real)
    requires HalfAngle(t, c, h, w) && t * t <= 1.0
    ensures 5.0 * (2.0 - 2.0 * w) <= 2.0 * Times(Sq(w), Sq(c)) && Times(Sq(w), Sq(c)) > 0.0
    ensures 2.0 - 2.0 * w <= 2.0 * Sq(h)
  {
    AngleRange(t, c, h, w);
    ProductAbove(Sq(w), Sq(c));
    OneMinusCosine(h, w);
  }

  lemma ProductAbove(ww: real, cc: real)
    requires ww >= 0.85 && cc >= 0.5
    ensures Times(ww, cc) >= 0.425
  {
    MulOrder(ww, 0.5, cc);
  }

  lemma OneMinusCosine(h: real, w: real)
    requires h * h + w * w == 1.0 && 0.0 <= w <= 1.0
    ensures 1.0 - w <= Sq(h)
  {
    SquareBelow(w);
  }

  // The energy of the pivot block in terms of the angle, below and above the limit on theta.

  lemma ExactPivotEnergy(theta: real, t: real, c: real, h: real, w: real, o: real, d: real)
    requires t * t + 2.0 * theta * t == 1.0 && HalfAngle(t, c, h, w) && d == 2.0 * theta * o
    ensures 4.0 * Sq(h) * Times(Sq(w), Sq(c)) * Energy(o, d) == Sq(o)
  {
    EnergyTimes(theta, t, o, d, 1.0 - t * t);
    var s := 1.0 + t * t;
    ExpandEnergy(t, Sq(o), s);
    ExactEnergy(t, c, h, w, Energy(o, d), s, Sq(o));
  }

  lemma ExpandEnergy(t: real, oo: real, s: real)
    requires s == 1.0 + t * t
    ensures (4.0 * Sq(t) + (1.0 - t * t) * (1.0 - t * t)) * oo == s * s * oo
  {}

  lemma AsymptoticPivotEnergy(theta: real, t: real, o: real, d: real)
    requires 2.0 * theta * t == 1.0 && d == 2.0 * theta * o
    ensures Sq(t) * Energy(o, d) == (4.0 * Sq(t) + 1.0) * Sq(o)
  {
    EnergyTimes(theta, t, o, d, 1.0);
  }

  lemma EnergyTimes(theta: real, t: real, o: real, d: real, x: real)
    requires d == 2.0 * theta * o && x == 2.0 * theta * t
    ensures Sq(t) * Energy(o, d) == (4.0 * Sq(t) + x * x) * Sq(o)
  {
    assert Sq(t) * Sq(d) == x * x * Sq(o);
    assert Sq(t) * Energy(o, d) == 4.0 * Sq(t) * Sq(o) + Sq(t) * Sq(d);
  }

  lemma ExactEnergy(t: real, c: real, h: real, w: real, E: real, s: real, oo: real)
    requires c * c * s == 1.0 && -2.0 * h * w == t * c && Sq(t) * E == s * s * oo
    ensures 4.0 * Sq(h) * Times(Sq(w), Sq(c)) * E == oo
  {
    var hw := -2.0 * h * w;
    assert 4.0 * Sq(h) * (Sq(w) * Sq(c)) == Sq(hw) * Sq(c) == Sq(t) * (Sq(c) * Sq(c));
    assert Sq(t) * (Sq(c) * Sq(c)) * E == (Sq(c) * Sq(c)) * (s * s * oo);
    assert (Sq(c) * Sq(c)) * (s * s * oo) == (c * c * s) * (c * c * s) * oo;
  }

  // After the intended rotation and the excess turn at most two fifths of the pivot's square is left.

  lemma ExactPivotFactor(theta: real, t: real, c: real, h: real, w: real, o: real, d: real,
                         d0: real, h2: real, w2: real, o2: real)
    requires t * t <= 1.0 && t * t + 2.0 * theta * t == 1.0 && HalfAngle(t, c, h, w) && d == 2.0 * theta * o
    requires Energy(0.0, d0) == Energy(o, d)
    requires UnitPair(h2, w2) && Sq(h2) <= Slack(h, w)
    requires o2 == TurnedEntry(0.0, d0, TurnCos(h2, w2), TurnSin(h2, w2))
    ensures 5.0 * Sq(o2) <= 2.0 * Sq(o)
  {
    var cs := ExcessEntry(0.0, d0, Slack(h, w), h2, w2, o2, Energy(o, d));
    ExactPivotEnergy(theta, t, c, h, w, o, d);
    AngleBounds(t, c, h, w);
    ExactFactor(Sq(h), 2.0 - 2.0 * w, Times(Sq(w), Sq(c)), cs, Energy(o, d), Sq(o), Sq(o2));
  }

  lemma AsymptoticPivotFactor(theta: real, t: real, c: real, h: real, w: real, o: real, d: real,
                              o0: real, d0: real, h2: real, w2: real, o2: real)
    requires 2.0 * theta * t == 1.0 && t * t <= 0.000000000001 && HalfAngle(t, c, h, w) && d == 2.0 * theta * o
    requires o0 == -(t * t) * (c * c) * o && Energy(o0, d0) == Energy(o, d)
    requires UnitPair(h2, w2) && Sq(h2) <= Slack(h, w)
    requires o2 == TurnedEntry(o0, d0, TurnCos(h2, w2), TurnSin(h2, w2))
    ensures 5.0 * Sq(o2) <= 2.0 * Sq(o)
  {
    var cs := ExcessEntry(o0, d0, Slack(h, w), h2, w2, o2, Energy(o, d));
    AsymptoticPivotEnergy(theta, t, o, d);
    AngleBounds(t, c, h, w);
    SmallAngle(t, c, h, w);
    SmallEntry(t, c, o, o0);
    AsymptoticFactor(Sq(t), Sq(h), 2.0 - 2.0 * w, cs, Energy(o, d), Sq(o), Sq(o0), Sq(o2));
  }

  lemma ExcessEntry(o0: real, d0: real, bound: real, h: real, w: real, o2: real, E: real) returns (cs: real)
    requires UnitPair(h, w) && Sq(h) <= bound && o2 == TurnedEntry(o0, d0, TurnCos(h, w), TurnSin(h, w))
    requires Energy(o0, d0) == E
    ensures 0.0 <= cs <= 4.0 * bound && E >= 0.0
    ensures o0 == 0.0 ==> Sq(o2) == cs * E
    ensures Sq(o2) <= 2.0 * Sq(o0) + 2.0 * (cs * E)
  {
    var C, S := TurnCos(h, w), TurnSin(h, w);
    ExcessFactor(h, w, C, S);
    SplitEntry(o0, d0, C * C - S * S, C * S, o2, E);
    cs := Sq(C * S);
  }

  lemma SplitEntry(o0: real, d0: real, x: real, y: real, o2: real, E: real)
    requires o2 == x * o0 - y * d0 && Sq(x) <= 1.0 && Energy(o0, d0) == E
    ensures o0 == 0.0 ==> Sq(o2) == Sq(y) * E
    ensures Sq(o2) <= 2.0 * Sq(o0) + 2.0 * (Sq(y) * E)
    ensures E >= 0.0 && Sq(y) >= 0.0 && Sq(o0) >= 0.0
  {
    var p, r := x * o0, y * d0;
    assert Sq(o2) == 2.0 * Sq(p) + 2.0 * Sq(r) - Sq(p + r);
    assert Sq(p + r) >= 0.0;
    SqProductBound(p, o0, x, 1.0);
    assert Sq(d0) <= E;
    SqProductBound(r, y, d0, E);
  }

  lemma ExactFactor(hh: real, g: real, wc: real, cs: real, E: real, oo: real, o2: real)
    requires 0.0 <= cs <= 4.0 * (hh * g) && E >= 0.0 && o2 == cs * E
    requires 4.0 * hh * wc * E == oo && wc > 0.0 && 5.0 * g <= 2.0 * wc && oo >= 0.0
    ensures 5.0 * o2 <= 2.0 * oo
  {
    var y := 4.0 * (hh * g) * E;
    MulOrder(E, cs, 4.0 * (hh * g));
    MulOrder(wc, o2, y);
    assert wc * y == g * oo;
    MulOrder(oo, 5.0 * g, 2.0 * wc);
    CancelOrder(wc, 5.0 * o2, 2.0 * oo);
  }

  lemma SmallAngle(t: real, c: real, h: real, w: real)
    requires HalfAngle(t, c, h, w)
    ensures 2.0 * Sq(h) <= Sq(t)
  {
    SquareBelow(c);
    assert 1.0 - c * c == t * t * (c * c);
    assert t * t >= 0.0;
    assert c * c <= 1.0;
    MulOrder(t * t, c * c, 1.0);
  }

  lemma SmallEntry(t: real, c: real, o: real, o0: real)
    requires t * t <= 1.0 && 0.0 < c < 1.0 && o0 == -(t * t) * (c * c) * o
    ensures Sq(o0) <= Sq(t) * Sq(o)
  {
    SquareBelow(c);
    assert c * c >= 0.0 && t * t >= 0.0;
    SmallScaled(t * t, c * c, o, o0);
  }

  lemma SmallScaled(tt: real, cc: real, o: real, o0: real)
    requires 0.0 <= tt <= 1.0 && 0.0 <= cc <= 1.0 && o0 == -tt * cc * o
    ensures Sq(o0) <= tt * Sq(o)
  {
    MulOrder(tt, cc, 1.0);
    var x := tt * cc;
    assert 0.0 <= x <= tt;
    SquareBelow(x);
    assert Sq(o0) == (x * x) * Sq(o);
    MulOrder(Sq(o), x * x, tt);
  }

  lemma AsymptoticFactor(tt: real, hh: real, g: real, cs: real, E: real, oo: real, o0: real, o2: real)
    requires 0.0 <= tt <= 0.000000000001 && 0.0 <= 2.0 * hh <= tt && g <= 2.0 * hh
    requires 0.0 <= cs <= 4.0 * (hh * g) && E >= 0.0 && oo >= 0.0 && o0 <= tt * oo
    requires tt * E == (4.0 * tt + 1.0) * oo && o2 <= 2.0 * o0 + 2.0 * (cs * E)
    ensures 5.0 * o2 <= 2.0 * oo
  {
    MulOrder(hh, g, 2.0 * hh);
    MulOrder(hh, 2.0 * hh, tt);
    MulOrder(tt, 2.0 * hh, tt);
    assert cs <= 2.0 * (tt * tt);
    MulOrder(E, cs, 2.0 * (tt * tt));
    assert 2.0 * (tt * tt) * E == 2.0 * tt * ((4.0 * tt + 1.0) * oo);
    MulOrder(tt * oo, 4.0 * tt + 1.0, 5.0);
    var y := tt * oo;
    assert cs * E <= 10.0 * y;
    TinyMultiple(tt, oo, y);
  }

  lemma TinyMultiple(tt: real, oo: real, y: real)
    requires 0.0 <= tt <= 0.000000000001 && oo >= 0.0 && y == tt * oo
    ensures 110.0 * y <= 2.0 * oo
  {
    MulOrder(oo, 110.0 * tt, 2.0);
  }

  lemma ExcessPivot(o: real, d: real, o0: real, d0: real, h2: real, w2: real, o2: real, sqrt: real -> real)
    requires IsSqrt(sqrt) && o != 0.0
    requires var theta := d / (2.0 * o);
      var h := HalfSine(theta, Cosine(Tangent(theta, sqrt), sqrt), sqrt);
      var w := HalfCosine(h, sqrt);
      o0 == TurnedEntry(o, d, TurnCos(h, w), TurnSin(h, w)) && Sq(h2) <= Slack(h, w)
    requires Energy(o0, d0) == Energy(o, d) && UnitPair(h2, w2)
    requires o2 == TurnedEntry(o0, d0, TurnCos(h2, w2), TurnSin(h2, w2))
    ensures 5.0 * Sq(o2) <= 2.0 * Sq(o)
  {
    var theta := d / (2.0 * o);
    HalfAngleFacts(theta, sqrt);
    var t := Tangent(theta, sqrt);
    var c := Cosine(t, sqrt);
    var h := HalfSine(theta, c, sqrt);
    Quotient(d, o);
    PivotFactor(theta, t, c, h, HalfCosine(h, sqrt), o, d, o0, d0, h2, w2, o2);
  }

  lemma PivotFactor(theta: real, t: real, c: real, h: real, w: real, o: real, d: real,
                     o0: real, d0: real, h2: real, w2: real, o2: real)
    requires TangentOf(theta, t) && HalfAngle(t, c, h, w) && d == 2.0 * theta * o
    requires o0 == TurnedEntry(o, d, TurnCos(h, w), TurnSin(h, w)) && Energy(o0, d0) == Energy(o, d)
    requires UnitPair(h2, w2) && Sq(h2) <= Slack(h, w) && o2 == TurnedEntry(o0, d0, TurnCos(h2, w2), TurnSin(h2, w2))
    ensures 5.0 * Sq(o2) <= 2.0 * Sq(o)
  {
    IntendedEntry(theta, t, c, h, w, o, d);
    if Abs(theta) < EXACT_LIMIT {
      ExactPivotFactor(theta, t, c, h, w, o, d, d0, h2, w2, o2);
    } else {
      AsymptoticPivotFactor(theta, t, c, h, w, o, d, o0, d0, h2, w2, o2);
    }
  }

  // ----- the step

  function Scaled(k: real, p: Pair): Pair { Pair(Times(k, p.lead), Times(k, p.trail)) }

  /** Parallel pairs are multiples of one unit pair. */
  lemma CommonPair(q: Quat, axis: Axis, sqrt: real -> real) returns (e: Pair, a: real, b: real)
    requires IsSqrt(sqrt) && NormSq(q) == 1.0 && Parallel(q, axis)
    ensures UnitPair(e.lead, e.trail) && UnitPair(a, b)
    ensures First(q, axis) == Scaled(a, e) && Second(q, axis) == Scaled(b, e)
  {
    Split(q, axis);
    e, a, b := CommonMultiple(First(q, axis), Second(q, axis), sqrt);
  }

  lemma CommonMultiple(f: Pair, s: Pair, sqrt: real -> real) returns (e: Pair, a: real, b: real)
    requires IsSqrt(sqrt) && SqNorm(f) + SqNorm(s) == 1.0 && f.lead * s.trail - f.trail * s.lead == 0.0
    ensures UnitPair(e.lead, e.trail) && UnitPair(a, b) && f == Scaled(a, e) && s == Scaled(b, e)
  {
    if f == Pair(0.0, 0.0) {
      e, a, b := s, 0.0, 1.0;
    } else {
      NonzeroPairNorm(f);
      LengthPositive(SqNorm(f), sqrt);
      var m := sqrt(SqNorm(f));
      var k := 1.0 / m;
      e, a, b := Scaled(k, f), m, Times(k, s.lead * f.lead + s.trail * f.trail);
      CommonScalars(f.lead, f.trail, s.lead, s.trail, m, k, e.lead, e.trail, b);
    }
  }

  lemma NonzeroPairNorm(p: Pair)
    requires p != Pair(0.0, 0.0)
    ensures SqNorm(p) > 0.0
  {
    if p.lead != 0.0 { SquarePositive(p.lead, p.lead * p.lead); }
    if p.trail != 0.0 { SquarePositive(p.trail, p.trail * p.trail); }
  }

  lemma CommonScalars(p: real, r: real, u: real, v: real, m: real, k: real, x: real, y: real, b: real)
    requires k * m == 1.0 && m * m == p * p + r * r && p * p + r * r + (u * u + v * v) == 1.0 && p * v - r * u == 0.0
    requires x == Times(k, p) && y == Times(k, r) && b == Times(k, u * p + v * r)
    ensures UnitPair(x, y) && UnitPair(m, b) && p == Times(m, x) && r == Times(m, y)
    ensures u == Times(b, x) && v == Times(b, y)
  {
    var kk := k * k;
    assert kk * (m * m) == (k * m) * (k * m);
    assert x * x + y * y == kk * (p * p + r * r);
    assert m * (k * p) == (k * m) * p && m * (k * r) == (k * m) * r;
    assert (u * p + v * r) * p == u * (p * p + r * r) + r * (p * v - r * u);
    assert (u * p + v * r) * r == v * (p * p + r * r) - p * (p * v - r * u);
    assert b * x == kk * ((u * p + v * r) * p) && b * y == kk * ((u * p + v * r) * r);
    assert kk * (u * (m * m)) == u * (kk * (m * m)) && kk * (v * (m * m)) == v * (kk * (m * m));
    UnitOfMultiples(b, x, y, u, v);
  }

  lemma UnitOfMultiples(b: real, x: real, y: real, u: real, v: real)
    requires x * x + y * y == 1.0 && u == b * x && v == b * y
    ensures b * b == u * u + v * v
  {
    assert u * u + v * v == b * b * (x * x + y * y);
  }

  lemma ScaledTurn(k: real, p: Pair, h: real, w: real)
    ensures Turned(Scaled(k, p), h, w) == Scaled(k, Turned(p, h, w))
    ensures Updated(Scaled(k, p), h, w) == Scaled(k, Updated(p, h, w))
  {
    ScaledLead(k, p.lead, p.trail, h, w);
    ScaledLead(k, Lead(p.lead, p.trail, h, w), p.trail, h, w);
  }

  lemma ScaledLead(k: real, a: real, b: real, h: real, w: real)
    ensures Lead(Times(k, a), Times(k, b), h, w) == Times(k, Lead(a, b, h, w))
    ensures Trail(Times(k, b), Times(k, a), h, w) == Times(k, Trail(b, a, h, w))
  {}

  lemma ScaledNorms(a: real, b: real, g: Pair, axis: Axis)
    requires UnitPair(a, b)
    ensures NormSq(Join(axis, Scaled(a, g), Scaled(b, g))) == SqNorm(g)
  {
    NormOfMultiples(a, b, g.lead, g.trail);
    NegatedSquare(Times(b, g.trail));
  }

  lemma NormOfMultiples(a: real, b: real, x: real, y: real)
    requires UnitPair(a, b)
    ensures Sq(Times(a, x)) + Sq(Times(a, y)) + Sq(Times(b, x)) + Sq(Times(b, y)) == x * x + y * y
  {
    assert a * x * (a * x) + a * y * (a * y) + b * x * (b * x) + b * y * (b * y) == (a * a + b * b) * (x * x + y * y);
  }

  lemma ScaledShrunk(k: real, g: Pair, m: real)
    requires m > 0.0
    ensures Scaled(1.0 / m, Scaled(k, g)) == Scaled(k, Shrunk(g, m))
  {
    TimesSwap(1.0 / m, k, g.lead);
    TimesSwap(1.0 / m, k, g.trail);
  }

  lemma TimesSwap(a: real, b: real, x: real)
    ensures Times(a, Times(b, x)) == Times(b, Times(a, x))
  {}

  /** From parallel pairs the update in place is the intended rotation followed by a small further turn about the axis,
      and the pairs stay parallel. */
  lemma ParallelTurn(q: Quat, axis: Axis, h: real, w: real, sqrt: real -> real) returns (h2: real, w2: real)
    requires IsSqrt(sqrt) && NormSq(q) == 1.0 && Parallel(q, axis) && UnitPair(h, w) && w > 0.0
    ensures UnitPair(h2, w2) && Sq(h2) <= Slack(h, w)
    ensures h != 0.0 && h2 == 0.0 ==> LeadsKept(q, axis, h, w) || LeadsCleared(q, axis, h, w)
    ensures NormSq(InPlace(q, AxisQuat(axis, h, w))) > 0.0
    ensures var next := Normalise(InPlace(q, AxisQuat(axis, h, w)), sqrt);
      next == Product(Product(q, AxisQuat(axis, h, w)), AxisQuat(axis, h2, w2)) && Parallel(next, axis)
  {
    var e, a, b := CommonPair(q, axis, sqrt);
    var r := AxisQuat(axis, h, w);
    var u, q0 := InPlace(q, r), Product(q, r);
    SplitInPlace(q, axis, h, w);
    SplitProduct(q, axis, h, w);
    ScaledTurn(a, e, h, w);
    ScaledTurn(b, e, h, w);
    InPlaceNonzero(q, axis, h, w);
    NormaliseUnit(u, sqrt);
    LengthPositive(NormSq(u), sqrt);
    var m := sqrt(NormSq(u));
    var f, g := Turned(e, h, w), Updated(e, h, w);
    ScaledNorms(a, b, g, axis);
    h2, w2 := PairTurn(e, h, w, m);
    SplitProduct(q0, axis, h2, w2);
    JoinParts(axis, Scaled(a, f), Scaled(b, f));
    ScaledTurn(a, f, h2, w2);
    ScaledTurn(b, f, h2, w2);
    StretchJoin(1.0 / m, axis, Scaled(a, g), Scaled(b, g));
    ScaledShrunk(a, g, m);
    ScaledShrunk(b, g, m);
    JoinParts(axis, Scaled(a, Shrunk(g, m)), Scaled(b, Shrunk(g, m)));
    MultiplesParallel(Normalise(u, sqrt), axis, a, b, Shrunk(g, m));
  }

  lemma MultiplesParallel(q: Quat, axis: Axis, a: real, b: real, e: Pair)
    requires First(q, axis) == Scaled(a, e) && Second(q, axis) == Scaled(b, e)
    ensures Parallel(q, axis)
  {
    CrossOfMultiples(a, b, e.lead, e.trail);
  }

  lemma CrossOfMultiples(a: real, b: real, x: real, y: real)
    ensures Times(a, x) * Times(b, y) - Times(a, y) * Times(b, x) == 0.0
  {}

  function Shrunk(p: Pair, m: real): Pair
    requires m > 0.0
  {
    Pair(Times(1.0 / m, p.lead), Times(1.0 / m, p.trail))
  }

  lemma PairTurn(p: Pair, h: real, w: real, m: real) returns (h2: real, w2: real)
    requires UnitPair(p.lead, p.trail) && UnitPair(h, w) && m > 0.0 && m * m == SqNorm(Updated(p, h, w))
    ensures UnitPair(h2, w2) && Sq(h2) <= Slack(h, w)
    ensures Turned(Turned(p, h, w), h2, w2) == Shrunk(Updated(p, h, w), m)
    ensures h != 0.0 && h2 == 0.0 ==> Turned(p, h, w).lead == p.lead || Turned(p, h, w).lead == 0.0
  {
    var f, g := Turned(p, h, w), Updated(p, h, w);
    ErrorBound(p.lead, p.trail, h, w, f.lead, f.trail, g.trail);
    h2, w2 := ResidualTurn(f.lead, f.trail, g.trail, m);
    if h != 0.0 && h2 == 0.0 {
      NoResidual(1.0 / m, f.lead, p.lead, h, g.trail - f.trail);
    }
  }

  lemma NoResidual(k: real, l: real, a: real, h: real, e: real)
    requires k > 0.0 && h != 0.0 && e == h * (a - l) && -k * (l * e) == 0.0
    ensures l == 0.0 || l == a
  {
    NonzeroFactor(k, l * e);
    NonzeroFactor(l, e);
    NonzeroFactor(h, a - l);
  }

  lemma JoinParts(axis: Axis, p: Pair, s: Pair)
    ensures First(Join(axis, p, s), axis) == p && Second(Join(axis, p, s), axis) == s
  {}

  /** A pass from parallel pairs: the pivot's square falls to two fifths or less, the rest of the off-diagonal sum of
      squares stays what it was, and at least a fifth of the sum is gone. */
  lemma ParallelStep(A: Mat3, q: Quat, sqrt: real -> real)
    requires Symmetric(A) && IsSqrt(sqrt) && NormSq(q) == 1.0 && Pivot(Rotated(A, q)).Some?
    requires Parallel(q, Pivot(Rotated(A, q)).value)
    ensures var D, D' := Rotated(A, q), Rotated(A, Step(A, q, sqrt));
      var axis := Pivot(D).value;
      && Parallel(Step(A, q, sqrt), axis)
      && 5.0 * Sq(OffEntry(D', axis)) <= 2.0 * Sq(OffEntry(D, axis))
      && Off(D') - 2.0 * Sq(OffEntry(D', axis)) == Off(D) - 2.0 * Sq(OffEntry(D, axis))
      && Off(D') <= 4.0 / 5.0 * Off(D)
  {
    var D := Rotated(A, q);
    var axis := Pivot(D).value;
    PivotRotation(D, sqrt);
    var h := PivotSine(D, axis, sqrt);
    var w := HalfCosine(h, sqrt);
    PivotCosine(D, axis, sqrt);
    var h2, w2 := ParallelTurn(q, axis, h, w, sqrt);
    var q0 := Product(q, AxisQuat(axis, h, w));
    var D0, D' := Rotated(A, q0), Rotated(A, Step(A, q, sqrt));
    TurnOff(A, q, axis, h, w);
    TurnOff(A, q0, axis, h2, w2);
    ConjugateSymmetric(A, QuatToMat(q));
    PivotShare(D, axis);
    ExcessPivot(OffEntry(D, axis), Spread(D, axis), OffEntry(D0, axis), Spread(D0, axis), h2, w2, OffEntry(D', axis),
        sqrt);
  }

  lemma PivotCosine(D: Mat3, axis: Axis, sqrt: real -> real)
    requires IsSqrt(sqrt) && OffEntry(D, axis) != 0.0
    ensures var h := PivotSine(D, axis, sqrt);
      h != 0.0 && HalfCosine(h, sqrt) > 0.0 && Slack(h, HalfCosine(h, sqrt)) <= 0.1
  {
    AngleSlack(Theta(D, axis), sqrt);
  }

  lemma AngleSlack(theta: real, sqrt: real -> real)
    requires IsSqrt(sqrt)
    ensures var h := HalfSine(theta, Cosine(Tangent(theta, sqrt), sqrt), sqrt);
      h != 0.0 && HalfCosine(h, sqrt) > 0.0 && Slack(h, HalfCosine(h, sqrt)) <= 0.1
  {
    HalfAngleFacts(theta, sqrt);
    var t := Tangent(theta, sqrt);
    var h := HalfSine(theta, Cosine(t, sqrt), sqrt);
    SlackSmall(theta, t, Cosine(t, sqrt), h, HalfCosine(h, sqrt));
  }

  lemma SlackSmall(theta: real, t: real, c: real, h: real, w: real)
    requires TangentOf(theta, t) && HalfAngle(t, c, h, w)
    ensures h != 0.0 && w > 0.0 && Slack(h, w) <= 0.1
  {
    AngleRange(t, c, h, w);
    SmallProduct(Sq(h), 2.0 - 2.0 * w);
  }

  lemma SmallProduct(x: real, y: real)
    requires 0.0 <= x <= 0.15 && y <= 0.16
    ensures x * y <= 0.1
  {
    MulOrder(x, y, 0.16);
  }

  /** From parallel pairs and below the limit on theta, a pass clears the pivot exactly when the update in place happens
      to apply the intended rotation. */
  lemma ParallelClearsIff(A: Mat3, q: Quat, sqrt: real -> real)
    requires Symmetric(A) && IsSqrt(sqrt) && NormSq(q) == 1.0 && Pivot(Rotated(A, q)).Some?
    requires Parallel(q, Pivot(Rotated(A, q)).value)
    ensures var D := Rotated(A, q);
      var axis := Pivot(D).value;
      && OffEntry(D, axis) != 0.0
      && var h := PivotSine(D, axis, sqrt);
      var w := HalfCosine(h, sqrt);
      Abs(Theta(D, axis)) < EXACT_LIMIT ==>
        (OffEntry(Rotated(A, Step(A, q, sqrt)), axis) == 0.0
         <==> LeadsKept(q, axis, h, w) || LeadsCleared(q, axis, h, w))
  {
    var D := Rotated(A, q);
    var axis := Pivot(D).value;
    PivotRotation(D, sqrt);
    var h := PivotSine(D, axis, sqrt);
    var w := HalfCosine(h, sqrt);
    PivotCosine(D, axis, sqrt);
    var h2, w2 := ParallelTurn(q, axis, h, w, sqrt);
    var q0 := Product(q, AxisQuat(axis, h, w));
    var D0, D' := Rotated(A, q0), Rotated(A, Step(A, q, sqrt));
    TurnOff(A, q, axis, h, w);
    TurnOff(A, q0, axis, h2, w2);
    if Abs(Theta(D, axis)) < EXACT_LIMIT {
      if LeadsKept(q, axis, h, w) || LeadsCleared(q, axis, h, w) {
        InPlaceExactIff(q, axis, h, w, sqrt);
        ProductIsMul(q, AxisQuat(axis, h, w));
      } else {
        ExcessVisible(OffEntry(D, axis), Spread(D, axis), Spread(D0, axis), h, w, h2, w2);
      }
    }
  }

  /** An excess turn within the slack moves the cleared entry away from zero. */
  lemma ExcessVisible(o: real, d: real, d0: real, h: real, w: real, h2: real, w2: real)
    requires o != 0.0 && Energy(0.0, d0) == Energy(o, d) && UnitPair(h2, w2) && h2 != 0.0 && Sq(h2) <= Slack(h, w)
    requires Slack(h, w) <= 0.1
    ensures TurnedEntry(0.0, d0, TurnCos(h2, w2), TurnSin(h2, w2)) != 0.0
  {
    SquarePositive(o, o * o);
    assert d * d >= 0.0;
    assert d0 != 0.0;
    var C, S := TurnCos(h2, w2), TurnSin(h2, w2);
    assert w2 * w2 >= 0.9;
    assert C >= 0.8;
    NonzeroFactor(h2, w2);
    NonzeroFactor(C, S);
    NonzeroFactor(C * S, d0);
  }

  // ----- any quaternion

  function Difference(p: Quat, q: Quat): Quat { Quat(p.x - q.x, p.y - q.y, p.z - q.z, p.w - q.w) }

  /** From any unit quaternion the update in place stays within the slack of the intended product: its error is of
      second order in the sine of the half angle. */
  lemma UpdateError(q: Quat, axis: Axis, h: real, w: real)
    requires NormSq(q) == 1.0 && UnitPair(h, w) && 0.0 <= w
    ensures var r := AxisQuat(axis, h, w);
      NormSq(Difference(InPlace(q, r), Product(q, r))) <= Slack(h, w) <= 2.0 * (Sq(h) * Sq(h))
  {
    var f, s := First(q, axis), Second(q, axis);
    DifferenceSplit(q, axis, h, w);
    Split(q, axis);
    var e, g := TrailError(f, h, w), TrailError(s, h, w);
    JoinTrails(axis, e, g);
    PairError(f, h, w);
    PairError(s, h, w);
    AddBounds(SqNorm(f), SqNorm(s), Slack(h, w), Sq(e), Sq(g));
    SlackOrder(h, w);
  }

  function TrailError(p: Pair, h: real, w: real): real { Updated(p, h, w).trail - Turned(p, h, w).trail }

  lemma DifferenceSplit(q: Quat, axis: Axis, h: real, w: real)
    ensures Difference(InPlace(q, AxisQuat(axis, h, w)), Product(q, AxisQuat(axis, h, w)))
         == Join(axis, Pair(0.0, TrailError(First(q, axis), h, w)), Pair(0.0, TrailError(Second(q, axis), h, w)))
  {
    SplitInPlace(q, axis, h, w);
    SplitProduct(q, axis, h, w);
  }

  lemma JoinTrails(axis: Axis, e: real, g: real)
    ensures NormSq(Join(axis, Pair(0.0, e), Pair(0.0, g))) == Sq(e) + Sq(g)
  {
    NegatedSquare(g);
  }

  lemma PairError(p: Pair, h: real, w: real)
    requires UnitPair(h, w)
    ensures Sq(TrailError(p, h, w)) <= Times(SqNorm(p), Slack(h, w))
  {
    ErrorOfPair(p.lead, p.trail, h, w, TrailError(p, h, w), SqNorm(p));
  }

  lemma ErrorOfPair(a: real, b: real, h: real, w: real, e: real, n: real)
    requires UnitPair(h, w) && n == a * a + b * b
    requires e == Trail(b, Lead(a, b, h, w), h, w) - Trail(b, a, h, w)
    ensures Sq(e) <= n * Slack(h, w)
  {
    var x, y, z := a - Lead(a, b, h, w), a * h + b * (1.0 - w), 2.0 - 2.0 * w;
    assert e == h * x;
    LeadShift(a, b, h, w, x, y, n, z);
    SqProductBound(e, h, x, n * z);
    assert Sq(h) * (n * z) == n * (Sq(h) * z);
  }

  lemma LeadShift(a: real, b: real, h: real, w: real, x: real, y: real, n: real, z: real)
    requires UnitPair(h, w) && n == a * a + b * b && x == a - Lead(a, b, h, w) && y == a * h + b * (1.0 - w)
    requires z == 2.0 - 2.0 * w
    ensures Sq(x) <= n * z
  {
    assert x == a * (1.0 - w) - h * b;
    assert x * x + y * y == n * ((1.0 - w) * (1.0 - w) + h * h);
    assert (1.0 - w) * (1.0 - w) + h * h == z;
    assert y * y >= 0.0;
  }

  lemma AddBounds(n: real, m: real, k: real, e: real, g: real)
    requires n + m == 1.0 && e <= Times(n, k) && g <= Times(m, k)
    ensures e + g <= k
  {
    assert n * k + m * k == (n + m) * k;
  }

  lemma SlackOrder(h: real, w: real)
    requires UnitPair(h, w) && 0.0 <= w
    ensures Slack(h, w) <= 2.0 * (Sq(h) * Sq(h))
  {
    SquaresBelowOne(h, w);
    SquareOrder(w, 1.0);
    OneMinusCosine(h, w);
    MulOrder(Sq(h), 2.0 - 2.0 * w, 2.0 * Sq(h));
  }
}
