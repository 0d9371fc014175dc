/** The scalar part of one diagonalisation step: from the pivot entry and the spread of the two diagonal entries it
    couples to the half angle of the rotation. */
module JacobiRotation {
  import opened Reals

  const EXACT_LIMIT := 1000000.0

  function Sign(theta: real): real { if theta > 0.0 then 1.0 else -1.0 }

  function Secant(x: real, sqrt: real -> real): real { sqrt(x * x + 1.0) }

  /** sign(T)/(|T|+sqrt(T^2+1)), or its asymptote for large |T|. */
  function Tangent(theta: real, sqrt: real -> real): real
    requires IsSqrt(sqrt)
  {
    var sgn, thet := Sign(theta), Abs(theta);
    if thet < EXACT_LIMIT then
      ExactRoot(thet, sqrt);
      sgn / (thet + Secant(thet, sqrt))
    else 0.5 * sgn / thet
  }

  function Cosine(t: real, sqrt: real -> real): real
    requires IsSqrt(sqrt)
  {
    SecantPositive(t, sqrt);
    1.0 / Secant(t, sqrt)
  }

  /** The vector component of the rotation's quaternion. */
  function HalfSine(theta: real, c: real, sqrt: real -> real): real {
    -1.0 * (Sign(theta) * sqrt((1.0 - c) / 2.0))
  }

  /** jr[3] of the source. */
  function HalfCosine(h: real, sqrt: real -> real): real { sqrt(1.0 - h * h) }

  /** t solves t^2 + 2 theta t = 1 below the limit, and misses by t^2 above it. */
  predicate TangentOf(theta: real, t: real) {
    && t * Sign(theta) > 0.0 && t * t <= 1.0
    && (Abs(theta) < EXACT_LIMIT ==> t * t + 2.0 * theta * t == 1.0)
    && (Abs(theta) >= EXACT_LIMIT ==> 2.0 * theta * t == 1.0 && t * t <= 0.000000000001)
  }

  /** c is the cosine of the angle whose tangent is t; h and w are the sine and cosine of half the opposite angle. */
  predicate HalfAngle(t: real, c: real, h: real, w: real) {
    && 0.0 < c < 1.0 && c * c * (1.0 + t * t) == 1.0
    && h != 0.0 && h * h == (1.0 - c) / 2.0
    && w > 0.0 && w * w == (1.0 + c) / 2.0
    && -2.0 * h * w == t * c
  }

  lemma TangentFacts(theta: real, sqrt: real -> real)
    requires IsSqrt(sqrt)
    ensures TangentOf(theta, Tangent(theta, sqrt))
  {
    var thet := Abs(theta);
    if thet < EXACT_LIMIT {
      ExactRoot(thet, sqrt);
      var d := thet + Secant(thet, sqrt);
      SignedQuotient(Sign(theta), d);
      SignedTangent(theta, 1.0 / d, Tangent(theta, sqrt));
    } else {
      Asymptote(thet);
      SignedTangent(theta, 0.5 / thet, Tangent(theta, sqrt));
    }
  }

  /** So t turns in the sense of theta, downwards at zero, and solves the equation if and only if |theta| is below a
      million. */
  lemma TangentExactIff(theta: real, sqrt: real -> real)
    requires IsSqrt(sqrt)
    ensures Tangent(theta, sqrt) > 0.0 <==> theta > 0.0
    ensures var t := Tangent(theta, sqrt); t * t + 2.0 * theta * t == 1.0 <==> Abs(theta) < 1000000.0
  {
    TangentFacts(theta, sqrt);
    var t := Tangent(theta, sqrt);
    SquarePositive(t, t * t);
  }

  lemma SignedQuotient(sgn: real, d: real)
    requires d != 0.0
    requires sgn == 1.0 || sgn == -1.0
    ensures sgn / d == if sgn == 1.0 then 1.0 / d else -(1.0 / d)
  {}

  lemma SignedTangent(theta: real, u: real, t: real)
    requires t == if theta > 0.0 then u else -u
    requires u > 0.0 && u * u <= 1.0
    requires Abs(theta) < EXACT_LIMIT ==> u * u + 2.0 * Abs(theta) * u == 1.0
    requires Abs(theta) >= EXACT_LIMIT ==> 2.0 * Abs(theta) * u == 1.0 && u * u <= 0.000000000001
    ensures TangentOf(theta, t)
  {
    assert t * t == u * u && theta * t == Abs(theta) * u;
  }

  lemma ExactRoot(thet: real, sqrt: real -> real)
    requires thet >= 0.0 && IsSqrt(sqrt)
    ensures var d := thet + Secant(thet, sqrt);
      d > 0.0 && var u := 1.0 / d; u > 0.0 && u * u <= 1.0 && u * u + 2.0 * thet * u == 1.0
  {
    assert thet * thet >= 0.0;
    var r := Secant(thet, sqrt);
    assert Root(r, thet * thet + 1.0);
    SquareOrder(1.0, r);
    var u := 1.0 / (thet + r);
    assert u * (thet + r) == 1.0;
    assert u == u * ((r - thet) * (r + thet)) == r - thet;
    SquareOrder(u, 1.0);
  }

  lemma Asymptote(thet: real)
    requires thet >= EXACT_LIMIT
    ensures var u := 0.5 / thet; u > 0.0 && u * u <= 0.000000000001 && u * thet == 0.5
  {
    var u := 0.5 / thet;
    if u > 0.000001 { MulPositive(u - 0.000001, thet); }
    SquareOrder(u, 0.000001);
  }

  /** Everything later proofs use about the angle of a step. */
  lemma HalfAngleFacts(theta: real, sqrt: real -> real)
    requires IsSqrt(sqrt)
    ensures var t := Tangent(theta, sqrt);
      var c := Cosine(t, sqrt);
      var h := HalfSine(theta, c, sqrt);
      TangentOf(theta, t) && HalfAngle(t, c, h, HalfCosine(h, sqrt))
  {
    TangentFacts(theta, sqrt);
    var t, sgn := Tangent(theta, sqrt), Sign(theta);
    CosineFacts(t, sqrt);
    var c := Cosine(t, sqrt);
    var k := sqrt((1.0 - c) / 2.0);
    assert Root(k, (1.0 - c) / 2.0);
    var h := HalfSine(theta, c, sqrt);
    SignedSquare(sgn, k, h);
    HalfCosineRoot(h, sqrt);
    HalfAngleScalars(t, sgn, c, k, h, HalfCosine(h, sqrt));
  }

  lemma HalfCosineRoot(h: real, sqrt: real -> real)
    requires IsSqrt(sqrt) && h * h <= 1.0
    ensures Root(HalfCosine(h, sqrt), 1.0 - h * h)
  {
    assert Root(sqrt(1.0 - h * h), 1.0 - h * h);
  }

  lemma SignedSquare(sgn: real, k: real, h: real)
    requires sgn * sgn == 1.0 && h == -1.0 * (sgn * k)
    ensures h * h == k * k
  {
    assert h * h == (sgn * sgn) * (k * k);
  }

  lemma HalfAngleScalars(t: real, sgn: real, c: real, k: real, h: real, w: real)
    requires sgn * sgn == 1.0 && t * sgn > 0.0 && 0.0 < c < 1.0 && c * c * (1.0 + t * t) == 1.0
    requires Root(k, (1.0 - c) / 2.0) && h == -1.0 * (sgn * k) && Root(w, 1.0 - h * h)
    ensures HalfAngle(t, c, h, w)
  {
    SignedSquare(sgn, k, h);
    var u := t * sgn;
    assert u * u == t * t * (sgn * sgn) == t * t;
    DoubleAngle(u, c, k, w);
    calc {
      -2.0 * h * w;
      sgn * (2.0 * k * w);
      sgn * (u * c);
      (sgn * sgn) * (t * c);
      t * c;
    }
  }

  lemma SecantPositive(t: real, sqrt: real -> real)
    requires IsSqrt(sqrt)
    ensures Secant(t, sqrt) >= 1.0 && Root(Secant(t, sqrt), t * t + 1.0)
  {
    assert t * t >= 0.0;
    assert Root(Secant(t, sqrt), t * t + 1.0);
    SquareOrder(1.0, Secant(t, sqrt));
  }

  lemma CosineFacts(t: real, sqrt: real -> real)
    requires t != 0.0 && IsSqrt(sqrt)
    ensures var c := Cosine(t, sqrt); 0.0 < c < 1.0 && c * c * (1.0 + t * t) == 1.0
  {
    SecantPositive(t, sqrt);
    Reciprocal(t, Secant(t, sqrt));
  }

  lemma Reciprocal(t: real, r: real)
    requires t != 0.0 && r >= 1.0 && Root(r, t * t + 1.0)
    ensures var c := 1.0 / r; 0.0 < c < 1.0 && c * c * (1.0 + t * t) == 1.0
  {
    SquarePositive(t, r * r - 1.0);
    AboveOne(r);
    var c := 1.0 / r;
    assert c * r == 1.0;
    assert c * c * (r * r) == (c * r) * (c * r);
  }

  lemma DoubleAngle(u: real, c: real, k: real, w: real)
    requires u > 0.0 && 0.0 < c < 1.0 && c * c * (1.0 + u * u) == 1.0
    requires k >= 0.0 && w >= 0.0 && k * k == (1.0 - c) / 2.0 && w * w == (1.0 + c) / 2.0
    ensures 2.0 * k * w == u * c && k > 0.0 && w > 0.0
  {
    var a, b := 2.0 * k * w, u * c;
    assert a * a == 4.0 * (k * k) * (w * w) == (1.0 - c) * (1.0 + c);
    assert b * b == u * u * (c * c);
    SquareOrder(a, b);
  }
}
