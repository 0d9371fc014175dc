/** The angle of a step is the only one in its range that clears the pivot. */
module PivotAngle {
  import opened Reals
  import opened Matrix3
  import opened Quaternion
  import opened JacobiRotation
  import opened JacobiStep

  /** A turn with cosine c and sine s, by less than a quarter and in the sense the sign of theta asks for, clears a
      pivot with this theta. */
  predicate Clears(theta: real, c: real, s: real) {
    c > 0.0 && s * Sign(theta) > 0.0 && c * c - s * s == 2.0 * theta * c * s
  }

  /** Below the limit a step turns by that angle; h and w are the sine and cosine of half of it. */
  lemma AngleIs(theta: real, c: real, s: real, h: real, w: real, sqrt: real -> real)
    requires IsSqrt(sqrt) && Abs(theta) < EXACT_LIMIT && Clears(theta, c, s)
    requires h * h + w * w == 1.0 && w > 0.0 && c == w * w - h * h && s == -2.0 * h * w
    ensures HalfSine(theta, Cosine(Tangent(theta, sqrt), sqrt), sqrt) == h && HalfCosine(h, sqrt) == w
  {
    HalfAngleFacts(theta, sqrt);
    var t := Tangent(theta, sqrt);
    var c0 := Cosine(t, sqrt);
    var h0 := HalfSine(theta, c0, sqrt);
    SameTangent(theta, Sign(theta), t, c, s);
    DoubledUnit(h, w, c, s);
    SameCosine(t, c, s, c0);
    SameHalf(t, c, h0, HalfCosine(h0, sqrt), h, w);
  }

  lemma DoubledUnit(h: real, w: real, c: real, s: real)
    requires h * h + w * w == 1.0 && c == w * w - h * h && s == -2.0 * h * w
    ensures c * c + s * s == 1.0
  {
    assert c * c + s * s == (h * h + w * w) * (h * h + w * w);
  }

  /** Two roots of t^2 + 2 theta t = 1 with the same sign are the same root. */
  lemma SameTangent(theta: real, sgn: real, t: real, c: real, s: real)
    requires (sgn == 1.0 || sgn == -1.0) && t * sgn > 0.0 && t * t + 2.0 * theta * t == 1.0
    requires c > 0.0 && s * sgn > 0.0 && c * c - s * s == 2.0 * theta * c * s
    ensures t * c == s
  {
    var y := t * c;
    RootScaled(theta, t, c, y);
    SameSign(sgn, t, c, s, y);
    if y != s {
      ProductOfRoots(2.0 * theta * c, y, s, c * c);
      MulPositive(c, c);
    }
  }

  lemma SameSign(sgn: real, t: real, c: real, s: real, y: real)
    requires (sgn == 1.0 || sgn == -1.0) && t * sgn > 0.0 && c > 0.0 && s * sgn > 0.0 && y == t * c
    ensures s * y > 0.0
  {
    MulPositive(t * sgn, c);
    MulPositive(Times(t * sgn, c), s * sgn);
    assert Times(t * sgn, c) * (s * sgn) == (sgn * sgn) * (s * y);
  }

  lemma ProductOfRoots(b: real, y: real, s: real, d: real)
    requires y != s && y * y + b * y == d && s * s + b * s == d
    ensures s * y == -d
  {
    assert (y - s) * (y + s + b) == 0.0;
    NonzeroFactor(y - s, y + s + b);
    assert s * y == s * (-s - b);
  }

  lemma RootScaled(theta: real, t: real, c: real, y: real)
    requires t * t + 2.0 * theta * t == 1.0 && y == t * c
    ensures y * y + 2.0 * theta * c * y == c * c
  {
    assert y * y + 2.0 * theta * c * y == c * c * (t * t + 2.0 * theta * t);
  }

  lemma SameCosine(t: real, c: real, s: real, c0: real)
    requires c > 0.0 && t * c == s && c * c + s * s == 1.0 && c0 > 0.0 && c0 * c0 * (1.0 + t * t) == 1.0
    ensures c0 == c
  {
    assert c * c * (1.0 + t * t) == c * c + s * s;
    assert (c0 * c0 - c * c) * (1.0 + t * t) == 0.0;
    assert t * t >= 0.0;
    NonzeroFactor(1.0 + t * t, c0 * c0 - c * c);
    SquareOrder(c0, c);
  }

  lemma SameHalf(t: real, c: real, h0: real, w0: real, h: real, w: real)
    requires HalfAngle(t, c, h0, w0)
    requires h * h + w * w == 1.0 && w > 0.0 && c == w * w - h * h && t * c == -2.0 * h * w
    ensures h0 == h && w0 == w
  {
    SquareOrder(w0, w);
    assert w * (h0 - h) == 0.0;
    NonzeroFactor(w, h0 - h);
  }

  /** The same for the pivot entry o and the spread d that theta is formed from. */
  predicate ClearsEntry(o: real, d: real, c: real, s: real) {
    && o != 0.0 && c > 0.0 && s != 0.0 && (s > 0.0 <==> Times(d, o) > 0.0)
    && (c * c - s * s) * o == c * s * d && Abs(d) < 2000000.0 * Abs(o)
  }

  lemma EntryTheta(o: real, d: real, c: real, s: real)
    requires ClearsEntry(o, d, c, s)
    ensures var theta := d / (2.0 * o); Abs(theta) < EXACT_LIMIT && Clears(theta, c, s)
  {
    var theta := d / (2.0 * o);
    assert theta * (2.0 * o) == d;
    ThetaSign(theta, o, d);
    ThetaRange(theta, o, d);
    var x := c * c - s * s - 2.0 * theta * c * s;
    assert x * o == 0.0;
    NonzeroFactor(o, x);
  }

  lemma ThetaSign(theta: real, o: real, d: real)
    requires o != 0.0 && theta * (2.0 * o) == d
    ensures theta > 0.0 <==> Times(d, o) > 0.0
  {
    SquarePositive(o, o * o);
    assert d * o == 2.0 * (theta * (o * o));
    if theta > 0.0 { MulPositive(theta, o * o); }
    if theta < 0.0 { MulPositive(-theta, o * o); }
  }

  lemma ThetaRange(theta: real, o: real, d: real)
    requires o != 0.0 && theta * (2.0 * o) == d && Abs(d) < 2000000.0 * Abs(o)
    ensures Abs(theta) < EXACT_LIMIT
  {
    var x, y := Abs(theta), Abs(o);
    assert x * y == Abs(theta * o) == Abs(d) / 2.0;
    if x >= EXACT_LIMIT { MulOrder(y, EXACT_LIMIT, x); }
  }

  /** So a pass is known once its axis and a turn that clears the pivot are. */
  lemma PassIs(A: Mat3, q: Quat, axis: Axis, c: real, s: real, h: real, w: real, sqrt: real -> real)
    requires IsSqrt(sqrt) && NormSq(q) == 1.0 && Pivot(Rotated(A, q)) == Some(axis)
    requires ClearsEntry(OffEntry(Rotated(A, q), axis), Spread(Rotated(A, q), axis), c, s)
    requires h * h + w * w == 1.0 && w > 0.0 && c == w * w - h * h && s == -2.0 * h * w
    ensures Rotation(Rotated(A, q), sqrt) == AxisQuat(axis, h, w)
    ensures NormSq(InPlace(q, AxisQuat(axis, h, w))) > 0.0
    ensures Step(A, q, sqrt) == Normalise(InPlace(q, AxisQuat(axis, h, w)), sqrt)
  {
    var D := Rotated(A, q);
    EntryTheta(OffEntry(D, axis), Spread(D, axis), c, s);
    AngleIs(Theta(D, axis), c, s, h, w, sqrt);
    UpdateNonzero(q, D, sqrt);
  }
}
