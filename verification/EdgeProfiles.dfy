/** What the edge flux makes of simple profiles: the limiter as a harmonic mean, linear and cubic fields, and an edge
    seen from its other end. */
module EdgeProfiles {
  import opened Reals
  import opened EdgeFlux

  // ----- the limiter

  /** For differences a and b of one sign the limiter is 4ab / ((a + b)^2 + 1e-16); otherwise it is zero. */
  lemma LimiterIs(a: real, b: real, small: real)
    requires small == 0.0000000000000001
    ensures VanLeer(a, b) * (Sq(a + b) + small) == if a * b > 0.0 then 4.0 * (a * b) else 0.0
  {
    LimiterDenominator(a, b);
    QuotientTimes(2.0 * (a * b + Abs(a * b)), (a + b) * (a + b) + SMALL);
  }

  lemma QuotientTimes(x: real, den: real)
    requires den > 0.0
    ensures x / den * den == x
  {}

  /** The limited half step: half the harmonic mean of the two differences, up to the small number in the denominator,
      and nothing at an extremum. */
  lemma LimitedStepIs(step: real, dq: real, small: real)
    requires small == 0.0000000000000001
    ensures var a := 4.0 * step - dq;
      Times(step, VanLeer(a, dq)) * (Sq(a + dq) + small) == if a * dq > 0.0 then a * dq * (a + dq) else 0.0
  {
    LimiterIs(4.0 * step - dq, dq, small);
    StepTimes(step, 4.0 * step - dq, dq, VanLeer(4.0 * step - dq, dq), Sq(4.0 * step - dq + dq) + small);
  }

  lemma StepTimes(step: real, a: real, b: real, limit: real, den: real)
    requires a + b == 4.0 * step && limit * den == if a * b > 0.0 then 4.0 * (a * b) else 0.0
    ensures Times(step, limit) * den == if a * b > 0.0 then a * b * (a + b) else 0.0
  {
    assert Times(step, limit) * den == step * (limit * den);
    assert step * (4.0 * (a * b)) == a * b * (4.0 * step);
  }

  // ----- a linear profile

  /** By how much the limited half step falls short on a linear profile. */
  function Shortfall(dq: real, small: real): real
    requires small > 0.0
  {
    SquareAndSmall(dq, small);
    0.5 * dq * (small / (4.0 * Sq(dq) + small))
  }

  lemma SquareAndSmall(dq: real, small: real)
    requires small > 0.0
    ensures 4.0 * Sq(dq) + small > 0.0
  {
    SqNonnegative(dq);
  }

  /** What a half step becomes where the gradient and the nodal difference agree. */
  lemma LinearStep(step: real, dq: real, small: real)
    requires small == 0.0000000000000001 && 2.0 * step == dq
    ensures Times(step, VanLeer(2.0 * 2.0 * step - dq, dq)) == 0.5 * dq - Shortfall(dq, small)
  {
    LimiterIs(dq, dq, small);
    SquareAndSmall(dq, small);
    if dq != 0.0 { SquarePositive(dq, dq * dq); }
    OneMinus(VanLeer(dq, dq), 4.0 * Sq(dq), small);
    assert 2.0 * 2.0 * step - dq == dq;
  }

  lemma OneMinus(limit: real, x: real, small: real)
    requires x + small > 0.0 && limit * (x + small) == x
    ensures limit == 1.0 - small / (x + small)
  {
    QuotientTimes(small, x + small);
    assert (limit - 1.0 + small / (x + small)) * (x + small) == 0.0;
    NonzeroFactor(limit - 1.0 + small / (x + small), x + small);
  }

  /** What is left of the shortfall in the options' terms: nothing without the limiter, and half the difference without
      extrapolation. */
  function Miss(dq: real, o: Options, small: real): real
    requires small > 0.0
  {
    0.5 * dq - o.hoUpwind * (0.5 * dq - if o.useLimiter then Shortfall(dq, small) else 0.0)
  }

  lemma LinearReach(step: real, dq: real, o: Options, small: real)
    requires small == 0.0000000000000001 && 2.0 * step == dq
    ensures Reach(step, o.hoUpwind, Limit(step, dq, o)) == 0.5 * dq - Miss(dq, o, small)
  {
    if o.useLimiter { LinearStep(step, dq, small); }
    ReachIsShortened(step, o.hoUpwind, Limit(step, dq, o));
  }

  /** On a linear profile both extrapolated values are the midpoint up to the miss, each short of it from its own
      side, and the value carried is the midpoint up to the upwinded part of the miss. */
  lemma LinearProfile(e: Edge, o: Options, small: real)
    requires small == 0.0000000000000001
    ensures var q, miss := Middle(e.qL, e.qR), Miss(e.qR - e.qL, o, small);
      && (2.0 * e.dqL == e.qR - e.qL ==> ExtrapolatedLeft(e, o) == q - miss)
      && (2.0 * e.dqR == e.qR - e.qL ==> ExtrapolatedRight(e, o) == q + miss)
      && (2.0 * e.dqL == 2.0 * e.dqR == e.qR - e.qL ==>
            FaceValue(e, o) == q - Times(if e.tmdot > 0.0 then 1.0 else -1.0, e.pecfac * o.alphaUpw * miss))
  {
    var dq := e.qR - e.qL;
    if 2.0 * e.dqL == dq { LinearReach(e.dqL, dq, o, small); }
    if 2.0 * e.dqR == dq { LinearReach(e.dqR, dq, o, small); }
    if 2.0 * e.dqL == 2.0 * e.dqR == dq {
      CarriedAround(e.tmdot, e.pecfac, o.alpha, o.alphaUpw, Middle(e.qL, e.qR), Miss(dq, o, small));
    }
  }

  lemma CarriedAround(m: real, p: real, a: real, u: real, q: real, x: real)
    ensures Carried(m, p, a, u, q - x, q + x, q) == q - Times(if m > 0.0 then 1.0 else -1.0, p * u * x)
  {
    assert Middle(Mix(a, q - x, q), Mix(a, q + x, q)) == q;
  }

  // ----- a cubic profile

  /** The values and half-gradients an edge of length 2 r would gather from a cubic around its midpoint. */
  predicate Cubic(e: Edge, c0: real, c1: real, c2: real, c3: real, r: real) {
    && e.qL == c0 - c1 * r + c2 * (r * r) - c3 * (r * r * r)
    && e.qR == c0 + c1 * r + c2 * (r * r) + c3 * (r * r * r)
    && e.dqL == c1 * r - 2.0 * (c2 * (r * r)) + 3.0 * (c3 * (r * r * r))
    && e.dqR == c1 * r + 2.0 * (c2 * (r * r)) + 3.0 * (c3 * (r * r * r))
  }

  /** The second difference of the cubic, and what the central value misses of it. */
  function Curvature(c2: real, r: real): real { c2 * (r * r) }
  function Missed(second: real, alpha: real): real { second * (1.0 - 2.0 * alpha) }

  /** What the generalised central value, with full extrapolation and no limiter, is on a cubic. */
  lemma CentralOnCubic(e: Edge, o: Options, c0: real, c1: real, c2: real, c3: real, r: real)
    requires Cubic(e, c0, c1, c2, c3, r) && !o.useLimiter && o.hoUpwind == 1.0 && e.pecfac == 0.0
    ensures FaceValue(e, o) == c0 + Missed(Curvature(c2, r), o.alpha)
  {
    CubicSides(e, o, c0, c1, c2, c3, r);
    CentralValue(e.tmdot, e.pecfac, o.alpha, o.alphaUpw, ExtrapolatedLeft(e, o), ExtrapolatedRight(e, o),
      Middle(e.qL, e.qR), c0, Curvature(c2, r));
  }

  /** So on a cubic that is not flat it is the exact midpoint value if and only if alpha is a half. */
  lemma CentralExactIff(e: Edge, o: Options, c0: real, c1: real, c2: real, c3: real, r: real)
    requires Cubic(e, c0, c1, c2, c3, r) && !o.useLimiter && o.hoUpwind == 1.0 && e.pecfac == 0.0
    requires c2 != 0.0 && r != 0.0
    ensures FaceValue(e, o) == c0 <==> o.alpha == 0.5
  {
    CentralOnCubic(e, o, c0, c1, c2, c3, r);
    ExactAtHalf(c2, r, Curvature(c2, r), o.alpha);
  }

  lemma ExactAtHalf(c2: real, r: real, second: real, alpha: real)
    requires c2 != 0.0 && r != 0.0 && second == Curvature(c2, r)
    ensures Missed(second, alpha) == 0.0 <==> alpha == 0.5
  {
    SquarePositive(r, r * r);
    NonzeroFactor(c2, r * r);
    NonzeroFactor(second, 1.0 - 2.0 * alpha);
  }

  lemma CubicSides(e: Edge, o: Options, c0: real, c1: real, c2: real, c3: real, r: real)
    requires Cubic(e, c0, c1, c2, c3, r) && !o.useLimiter && o.hoUpwind == 1.0
    ensures ExtrapolatedLeft(e, o) + ExtrapolatedRight(e, o) == 2.0 * (c0 - Curvature(c2, r))
    ensures Middle(e.qL, e.qR) == c0 + Curvature(c2, r)
  {
    FullReach(e.dqL, o.hoUpwind, Limit(e.dqL, e.qR - e.qL, o));
    FullReach(e.dqR, o.hoUpwind, Limit(e.dqR, e.qR - e.qL, o));
  }

  lemma FullReach(step: real, ho: real, limit: real)
    requires ho == 1.0 && limit == 1.0
    ensures Reach(step, ho, limit) == step
  {}

  lemma CentralValue(m: real, p: real, a: real, u: real, l: real, r: real, q: real, c0: real, second: real)
    requires p == 0.0 && l + r == 2.0 * (c0 - second) && q == c0 + second
    ensures Carried(m, p, a, u, l, r, q) == c0 + Missed(second, a)
  {
    assert Middle(Mix(a, l, q), Mix(a, r, q)) == a * ((l + r) / 2.0) + (1.0 - a) * q;
  }

  // ----- the edge from its other end

  /** The left value reads the left half-gradient only, the right value the right one only. */
  lemma SidesApart(e: Edge, e': Edge, o: Options)
    requires e.qL == e'.qL && e.qR == e'.qR
    ensures e.dqL == e'.dqL ==> ExtrapolatedLeft(e, o) == ExtrapolatedLeft(e', o)
    ensures e.dqR == e'.dqR ==> ExtrapolatedRight(e, o) == ExtrapolatedRight(e', o)
  {}

  /** Nodes exchanged; the edge vector, and with it the half-gradients, the mass flow and the diffusive flux, change
      sign. */
  function Reverse(e: Edge): Edge {
    Edge(e.right, e.left, e.qR, e.qL, -e.dqR, -e.dqL, -e.tmdot, e.pecfac, -e.diffFlux, e.lhsfac)
  }

  lemma OppositeLimit(step: real, dq: real, o: Options)
    ensures Limit(-step, -dq, o) == Limit(step, dq, o)
  {
    OppositeVanLeer(2.0 * 2.0 * step - dq, dq);
    assert 2.0 * 2.0 * -step - -dq == -(2.0 * 2.0 * step - dq);
  }

  lemma OppositeVanLeer(a: real, b: real)
    ensures VanLeer(-a, -b) == VanLeer(a, b)
  {
    assert (-a) * (-b) == a * b;
    assert (-a + -b) * (-a + -b) == (a + b) * (a + b);
  }

  lemma ReversedSides(e: Edge, o: Options)
    ensures ExtrapolatedLeft(Reverse(e), o) == ExtrapolatedRight(e, o)
    ensures ExtrapolatedRight(Reverse(e), o) == ExtrapolatedLeft(e, o)
  {
    var dq := e.qR - e.qL;
    OppositeLimit(e.dqL, dq, o);
    OppositeLimit(e.dqR, dq, o);
    OppositeReach(e.dqL, o.hoUpwind, Limit(e.dqL, dq, o));
    OppositeReach(e.dqR, o.hoUpwind, Limit(e.dqR, dq, o));
    assert Reverse(e).qR - Reverse(e).qL == -dq;
  }

  lemma OppositeReach(step: real, ho: real, limit: real)
    ensures Reach(-step, ho, limit) == -Reach(step, ho, limit)
  {}

  lemma ReversedAdvection(e: Edge, o: Options)
    ensures AdvectiveFlux(Reverse(e), o) == -AdvectiveFlux(e, o)
  {
    ReversedSides(e, o);
    assert Middle(e.qR, e.qL) == Middle(e.qL, e.qR);
    ReversedFlux(e.tmdot, e.pecfac, o.alpha, o.alphaUpw, ExtrapolatedLeft(e, o), ExtrapolatedRight(e, o),
      Middle(e.qL, e.qR));
  }

  /** Assembling the reversed edge gives the same block with the roles of the nodes exchanged. */
  lemma ReversedBlock(e: Edge, o: Options)
    ensures var b := BlockOf(e, o); BlockOf(Reverse(e), o) == Block(b.rr, b.rl, b.lr, b.ll, b.rhsR, b.rhsL)
  {
    ReversedAdvection(e, o);
    ReversedFactors(e.tmdot, Abs(e.tmdot), e.pecfac, o.alpha, o.alphaUpw);
    assert Abs(-e.tmdot) == Abs(e.tmdot);
  }

  lemma ReversedFlux(m: real, p: real, a: real, u: real, l: real, r: real, q: real)
    ensures (-m) * Carried(-m, p, a, u, r, l, q) == -(m * Carried(m, p, a, u, l, r, q))
  {
    assert m != 0.0 ==> Carried(-m, p, a, u, r, l, q) == Carried(m, p, a, u, l, r, q);
  }

  lemma ReversedFactors(m: real, am: real, p: real, a: real, u: real)
    ensures UpwindFactor(-m, am, p, a, u) == -UpwindFactor(m, -am, p, a, u)
    ensures UpwindFactor(-m, -am, p, a, u) == -UpwindFactor(m, am, p, a, u)
    ensures CentralFactor(-m, p, a, u) == -CentralFactor(m, p, a, u)
  {}
}
