/** The scalar edge algorithm: limited extrapolation, advective flux, and the two-by-two block it adds per edge. */
module EdgeFlux {
  import opened Reals
  import opened Matrix3
  import opened StressPerturbation

  const SMALL := 0.0000000000000001

  // ----- the limiter

  function VanLeer(dqm: real, dqp: real): real {
    LimiterDenominator(dqm, dqp);
    (2.0 * (dqm * dqp + Abs(dqm * dqp))) / ((dqm + dqp) * (dqm + dqp) + SMALL)
  }

  lemma LimiterDenominator(a: real, b: real)
    ensures (a + b) * (a + b) + SMALL > 0.0
  {
    SqNonnegative(a + b);
  }

  /** The limiter switches off at an extremum and otherwise lies strictly between 0 and 1. */
  lemma VanLeerRange(dqm: real, dqp: real)
    ensures 0.0 <= VanLeer(dqm, dqp) < 1.0
    ensures dqm * dqp <= 0.0 ==> VanLeer(dqm, dqp) == 0.0
  {
    LimiterDenominator(dqm, dqp);
    LimiterQuotient(dqm, dqp, dqm * dqp, (dqm + dqp) * (dqm + dqp) + SMALL);
  }

  lemma LimiterQuotient(a: real, b: real, p: real, den: real)
    requires p == a * b && den == (a + b) * (a + b) + SMALL && den > 0.0
    ensures 0.0 <= (2.0 * (p + Abs(p))) / den < 1.0
    ensures p <= 0.0 ==> (2.0 * (p + Abs(p))) / den == 0.0
  {
    SqNonnegative(a - b);
    assert den == Sq(a - b) + 4.0 * p + SMALL;
    QuotientRange(2.0 * (p + Abs(p)), den);
  }

  lemma QuotientRange(x: real, den: real)
    requires 0.0 <= x < den
    ensures 0.0 <= x / den < 1.0 && (x == 0.0 ==> x / den == 0.0)
  {
    var y := x / den;
    assert y * den == x;
    if y < 0.0 { MulPositive(-y, den); }
    if y >= 1.0 { MulOrder(den, 1.0, y); }
  }

  /** x lies between 0 and y. */
  predicate Towards(x: real, y: real) { 0.0 <= x <= y || y <= x <= 0.0 }

  predicate Between(x: real, a: real, b: real) { a <= x <= b || b <= x <= a }

  /** A half step limited against the full difference never passes the other node. */
  lemma LimitedStep(step: real, dq: real)
    ensures Towards(Times(step, VanLeer(4.0 * step - dq, dq)), dq)
  {
    var a := 4.0 * step - dq;
    var p, den := a * dq, (a + dq) * (a + dq) + SMALL;
    VanLeerRange(a, dq);
    LimiterDenominator(a, dq);
    if p > 0.0 {
      var lim := VanLeer(a, dq);
      assert lim * den == 4.0 * p;
      LimitedProduct(a, dq, p, den, step * lim);
    } else {
      assert VanLeer(a, dq) == 0.0;
    }
  }

  lemma LimitedProduct(a: real, b: real, p: real, den: real, y: real)
    requires p == a * b && p > 0.0 && den == (a + b) * (a + b) + SMALL && den > 0.0 && y * den == p * (a + b)
    ensures Towards(y, b)
  {
    SameSign(a, b, p);
    if b > 0.0 {
      LimitedBelow(a, b, a + b, p, den, y);
    } else {
      NegatedLimit(a, b, a + b, p, den, y);
      LimitedBelow(-a, -b, -(a + b), p, den, -y);
    }
  }

  lemma LimitedBelow(a: real, b: real, s: real, p: real, den: real, y: real)
    requires a > 0.0 && b > 0.0 && s == a + b && p == a * b && den == s * s + SMALL && den > 0.0 && y * den == p * s
    ensures 0.0 <= y <= b
  {
    MulPositive(a, b);
    MulPositive(p, s);
    PositiveQuotient(y, den);
    LimitedRoom(a, b, s, p, den);
    CancelOrder(den, y, b);
  }

  lemma LimitedRoom(a: real, b: real, s: real, p: real, den: real)
    requires a > 0.0 && b > 0.0 && s == a + b && p == a * b && den == s * s + SMALL
    ensures p * s <= den * b
  {
    MulPositive(b, s);
    MulPositive(b * s, b);
    LimitedGap(a, b, s, den);
  }

  lemma LimitedGap(a: real, b: real, s: real, den: real)
    requires s == a + b && den == s * s + SMALL
    ensures den * b == (a * b) * s + Times(b * s, b) + b * SMALL
  {}

  lemma NegatedLimit(a: real, b: real, s: real, p: real, den: real, y: real)
    requires p == a * b && den == s * s + SMALL && y * den == p * s
    ensures p == (-a) * (-b) && den == (-s) * (-s) + SMALL && (-y) * den == p * (-s)
  {}

  lemma SameSign(a: real, b: real, p: real)
    requires p == a * b && p > 0.0
    ensures (a > 0.0 && b > 0.0) || (a < 0.0 && b < 0.0)
  {
    if a >= 0.0 && b <= 0.0 { MulOrder(a, b, 0.0); }
    if a <= 0.0 && b >= 0.0 { MulOrder(b, a, 0.0); }
  }

  lemma PositiveQuotient(y: real, den: real)
    requires den > 0.0 && y * den > 0.0
    ensures y > 0.0
  {
    if y <= 0.0 { MulOrder(den, y, 0.0); }
  }

  // ----- advective flux

  /** The user's advection options. */
  datatype Options = Options(alpha: real, alphaUpw: real, hoUpwind: real, useLimiter: bool)

  predicate InUnitRange(x: real) { 0.0 <= x <= 1.0 }

  predicate OptionsInRange(o: Options) {
    InUnitRange(o.alpha) && InUnitRange(o.alphaUpw) && InUnitRange(o.hoUpwind)
  }

  /** What one edge gathers: its nodes, the two nodal values, the projected half-gradients towards the midpoint, the
      mass flow, the Peclet factor, and the diffusive flux with its sensitivity. */
  datatype Edge = Edge(left: nat, right: nat, qL: real, qR: real, dqL: real, dqR: real, tmdot: real, pecfac: real,
                       diffFlux: real, lhsfac: real)

  function Limit(step: real, dq: real, o: Options): real {
    if o.useLimiter then VanLeer(2.0 * 2.0 * step - dq, dq) else 1.0
  }

  function Reach(step: real, ho: real, limit: real): real { step * ho * limit }

  function ExtrapolatedLeft(e: Edge, o: Options): real {
    e.qL + Reach(e.dqL, o.hoUpwind, Limit(e.dqL, e.qR - e.qL, o))
  }

  function ExtrapolatedRight(e: Edge, o: Options): real {
    e.qR - Reach(e.dqR, o.hoUpwind, Limit(e.dqR, e.qR - e.qL, o))
  }

  function Mix(w: real, x: real, y: real): real { w * x + (1.0 - w) * y }

  /** The value the mass flow carries across the edge, from the extrapolated and the nodal values: an upwind and a
      generalised central value blended by the Peclet factor. */
  function Carried(m: real, p: real, a: real, u: real, l: real, r: real, q: real): real {
    Mix(p, Upwind(m, u, l, r, q), Middle(Mix(a, l, q), Mix(a, r, q)))
  }

  function Upwind(m: real, u: real, l: real, r: real, q: real): real {
    if m > 0.0 then Mix(u, l, q) else Mix(u, r, q)
  }

  function Middle(x: real, y: real): real { 0.5 * (x + y) }

  function FaceValue(e: Edge, o: Options): real {
    Carried(e.tmdot, e.pecfac, o.alpha, o.alphaUpw, ExtrapolatedLeft(e, o), ExtrapolatedRight(e, o), Middle(e.qL, e.qR))
  }

  function AdvectiveFlux(e: Edge, o: Options): real { e.tmdot * FaceValue(e, o) }

  /** With the limiter on and all factors between 0 and 1, both extrapolated values and the value carried across stay
      between the two nodal values. */
  lemma LimitedFluxBounded(e: Edge, o: Options)
    requires OptionsInRange(o) && InUnitRange(e.pecfac) && o.useLimiter
    ensures Between(ExtrapolatedLeft(e, o), e.qL, e.qR) && Between(ExtrapolatedRight(e, o), e.qL, e.qR)
    ensures Between(FaceValue(e, o), e.qL, e.qR)
  {
    ExtrapolatedBetween(e, o);
    MiddleBetween(e.qL, e.qR, e.qL, e.qR);
    CarriedBetween(e.tmdot, e.pecfac, o.alpha, o.alphaUpw, ExtrapolatedLeft(e, o), ExtrapolatedRight(e, o),
      Middle(e.qL, e.qR), e.qL, e.qR);
  }

  lemma ExtrapolatedBetween(e: Edge, o: Options)
    requires OptionsInRange(o) && o.useLimiter
    ensures Between(ExtrapolatedLeft(e, o), e.qL, e.qR) && Between(ExtrapolatedRight(e, o), e.qL, e.qR)
  {
    var dq := e.qR - e.qL;
    ExtrapolationTowards(e.dqL, o.hoUpwind, Limit(e.dqL, dq, o), dq);
    ExtrapolationTowards(e.dqR, o.hoUpwind, Limit(e.dqR, dq, o), dq);
  }

  lemma CarriedBetween(m: real, p: real, a: real, u: real, l: real, r: real, q: real, x: real, y: real)
    requires InUnitRange(p) && InUnitRange(a) && InUnitRange(u) && Between(l, x, y) && Between(r, x, y)
    requires Between(q, x, y)
    ensures Between(Carried(m, p, a, u, l, r, q), x, y)
  {
    MixBetween(u, l, q, x, y);
    MixBetween(u, r, q, x, y);
    MixBetween(a, l, q, x, y);
    MixBetween(a, r, q, x, y);
    MiddleBetween(Mix(a, l, q), Mix(a, r, q), x, y);
    MixBetween(p, Upwind(m, u, l, r, q), Middle(Mix(a, l, q), Mix(a, r, q)), x, y);
  }

  lemma MiddleBetween(l: real, r: real, x: real, y: real)
    requires Between(l, x, y) && Between(r, x, y)
    ensures Between(Middle(l, r), x, y)
  {}

  lemma ExtrapolationTowards(step: real, ho: real, limit: real, dq: real)
    requires InUnitRange(ho) && limit == VanLeer(2.0 * 2.0 * step - dq, dq)
    ensures Towards(Reach(step, ho, limit), dq)
  {
    LimitedStep(step, dq);
    ReachIsShortened(step, ho, limit);
    ShortenedTowards(ho, Times(step, limit), dq);
  }

  lemma ReachIsShortened(step: real, ho: real, limit: real)
    ensures Reach(step, ho, limit) == Times(ho, Times(step, limit))
  {}

  lemma ShortenedTowards(ho: real, x: real, dq: real)
    requires InUnitRange(ho) && Towards(x, dq)
    ensures Towards(Times(ho, x), dq)
  {
    var y := Abs(x);
    MulNonnegative(ho, y);
    MulNonnegative(1.0 - ho, y);
    assert (1.0 - ho) * y == y - ho * y;
    if x < 0.0 { assert ho * x == -(ho * y); }
  }

  lemma MixBetween(w: real, x: real, y: real, a: real, b: real)
    requires InUnitRange(w) && Between(x, a, b) && Between(y, a, b)
    ensures Between(Mix(w, x, y), a, b)
  {
    var lo, hi := if a <= b then a else b, if a <= b then b else a;
    MixAbove(w, x, y, lo);
    MixAbove(w, -x, -y, -hi);
    assert Mix(w, -x, -y) == -Mix(w, x, y);
  }

  lemma MixAbove(w: real, x: real, y: real, lo: real)
    requires InUnitRange(w) && lo <= x && lo <= y
    ensures lo <= Mix(w, x, y)
  {
    WeightedAbove(w, 1.0 - w, x, y, lo);
  }

  lemma WeightedAbove(w: real, v: real, x: real, y: real, lo: real)
    requires w >= 0.0 && v >= 0.0 && w + v == 1.0 && lo <= x && lo <= y
    ensures lo <= w * x + v * y
  {
    MulNonnegative(w, x - lo);
    MulNonnegative(v, y - lo);
    assert w * x + v * y - (w + v) * lo == w * (x - lo) + v * (y - lo);
  }

  // ----- the block

  // The advective factors of the left-hand side: upwind from the left, from the right, and central.
  function UpwindFactor(m: real, am: real, p: real, a: real, u: real): real {
    0.5 * (m + am) * p * u + 0.5 * a * (1.0 - p) * m
  }
  function CentralFactor(m: real, p: real, a: real, u: real): real { 0.5 * m * (p * (1.0 - u) + (1.0 - p) * (1.0 - a)) }

  function FromLeft(e: Edge, o: Options): real { UpwindFactor(e.tmdot, Abs(e.tmdot), e.pecfac, o.alpha, o.alphaUpw) }
  function FromRight(e: Edge, o: Options): real { UpwindFactor(e.tmdot, -Abs(e.tmdot), e.pecfac, o.alpha, o.alphaUpw) }
  function Central(e: Edge, o: Options): real { CentralFactor(e.tmdot, e.pecfac, o.alpha, o.alphaUpw) }

  /** The local matrix, row by row, and right-hand side of an edge. */
  datatype Block = Block(ll: real, lr: real, rl: real, rr: real, rhsL: real, rhsR: real)

  function BlockOf(e: Edge, o: Options): Block {
    var f, g, c := FromLeft(e, o), FromRight(e, o), Central(e, o);
    Block(-e.lhsfac + f + c, e.lhsfac + g + c, e.lhsfac - f - c, -e.lhsfac - g - c,
      -e.diffFlux - AdvectiveFlux(e, o), e.diffFlux + AdvectiveFlux(e, o))
  }

  /** The block as the source accumulates it: diffusion first, advection on top. */
  method EdgeBlock(e: Edge, o: Options) returns (lhs: array<real>, rhs: array<real>)
    ensures fresh(lhs) && fresh(rhs) && lhs.Length == 4 && rhs.Length == 2
    ensures var b := BlockOf(e, o); lhs[..] == [b.ll, b.lr, b.rl, b.rr] && rhs[..] == [b.rhsL, b.rhsR]
  {
    lhs, rhs := new real[4], new real[2];
    StoreDiffusion(lhs, rhs, e.lhsfac, e.diffFlux);
    AddAdvection(lhs, rhs, FromLeft(e, o), FromRight(e, o), Central(e, o), AdvectiveFlux(e, o));
  }

  method StoreDiffusion(lhs: array<real>, rhs: array<real>, lhsfac: real, diffFlux: real)
    requires lhs.Length == 4 && rhs.Length == 2
    modifies lhs, rhs
    ensures lhs[0] == -lhsfac && lhs[1] == lhsfac && lhs[2] == lhsfac && lhs[3] == -lhsfac
    ensures rhs[0] == -diffFlux && rhs[1] == diffFlux
  {
    lhs[0] := -lhsfac;
    lhs[1] := lhsfac;
    rhs[0] := -diffFlux;
    lhs[2] := lhsfac;
    lhs[3] := -lhsfac;
    rhs[1] := diffFlux;
  }

  method AddAdvection(lhs: array<real>, rhs: array<real>, fromLeft: real, fromRight: real, central: real, aflux: real)
    requires lhs.Length == 4 && rhs.Length == 2 && lhs != rhs
    modifies lhs, rhs
    ensures lhs[0] == old(lhs[0]) + fromLeft + central && lhs[1] == old(lhs[1]) + fromRight + central
    ensures lhs[2] == old(lhs[2]) - fromLeft - central && lhs[3] == old(lhs[3]) - fromRight - central
    ensures rhs[0] == old(rhs[0]) - aflux && rhs[1] == old(rhs[1]) + aflux
  {
    lhs[0] := lhs[0] + fromLeft;
    lhs[2] := lhs[2] - fromLeft;
    lhs[3] := lhs[3] - fromRight;
    lhs[1] := lhs[1] + fromRight;
    lhs[0] := lhs[0] + central;
    lhs[1] := lhs[1] + central;
    lhs[2] := lhs[2] - central;
    lhs[3] := lhs[3] - central;
    rhs[0] := rhs[0] - aflux;
    rhs[1] := rhs[1] + aflux;
  }

  /** Columns and right-hand side cancel; each row adds up to the mass flow out of its node. */
  lemma BlockSums(e: Edge, o: Options)
    ensures var b := BlockOf(e, o);
      && b.ll + b.rl == 0.0 && b.lr + b.rr == 0.0 && b.rhsL + b.rhsR == 0.0
      && b.ll + b.lr == e.tmdot && b.rl + b.rr == -e.tmdot
  {
    AdvectiveRow(e.tmdot, Abs(e.tmdot), e.pecfac, o.alpha, o.alphaUpw);
  }

  lemma AdvectiveRow(m: real, am: real, p: real, a: real, u: real)
    ensures UpwindFactor(m, am, p, a, u) + UpwindFactor(m, -am, p, a, u) + 2.0 * CentralFactor(m, p, a, u) == m
  {}

  /** Without extrapolation the advective part of the block is the exact sensitivity of the advective flux. */
  lemma BlockIsFluxSensitivity(e: Edge, o: Options)
    requires o.hoUpwind == 0.0
    ensures (FromLeft(e, o) + Central(e, o)) * e.qL + (FromRight(e, o) + Central(e, o)) * e.qR == AdvectiveFlux(e, o)
  {
    NoExtrapolation(e.dqL, Limit(e.dqL, e.qR - e.qL, o), o.hoUpwind);
    NoExtrapolation(e.dqR, Limit(e.dqR, e.qR - e.qL, o), o.hoUpwind);
    FluxLinear(e.tmdot, Abs(e.tmdot), e.pecfac, o.alpha, o.alphaUpw, e.qL, e.qR, Middle(e.qL, e.qR));
  }

  lemma NoExtrapolation(step: real, limit: real, ho: real)
    requires ho == 0.0
    ensures Reach(step, ho, limit) == 0.0
  {}

  lemma FluxLinear(m: real, am: real, p: real, a: real, u: real, x: real, y: real, q: real)
    requires am == Abs(m) && q == Middle(x, y)
    ensures (UpwindFactor(m, am, p, a, u) + CentralFactor(m, p, a, u)) * x
              + (UpwindFactor(m, -am, p, a, u) + CentralFactor(m, p, a, u)) * y
         == m * Carried(m, p, a, u, x, y, q)
  {
    if m > 0.0 {
      FluxFromLeft(m, p, a, u, x, y);
    } else {
      FluxFromRight(m, p, a, u, x, y);
    }
  }

  lemma FluxFromLeft(m: real, p: real, a: real, u: real, x: real, y: real)
    ensures (UpwindFactor(m, m, p, a, u) + CentralFactor(m, p, a, u)) * x
              + (UpwindFactor(m, -m, p, a, u) + CentralFactor(m, p, a, u)) * y
         == m * Mix(p, Mix(u, x, Middle(x, y)), Middle(Mix(a, x, Middle(x, y)), Mix(a, y, Middle(x, y))))
  {}

  lemma FluxFromRight(m: real, p: real, a: real, u: real, x: real, y: real)
    ensures (UpwindFactor(m, -m, p, a, u) + CentralFactor(m, p, a, u)) * x
              + (UpwindFactor(m, m, p, a, u) + CentralFactor(m, p, a, u)) * y
         == m * Mix(p, Mix(u, y, Middle(x, y)), Middle(Mix(a, x, Middle(x, y)), Mix(a, y, Middle(x, y))))
  {}

  // ----- the diffusive sensitivity

  /** The sensitivity of the diffusive flux, laminar and turbulent: area is the edge's area vector, R the stress. */
  function DiffusiveFactor(lam: real, gg: real, R: Mat3, area: Vec3, invAxdx: real): real {
    Factor(lam, Dot(area, area), gg, Quad(R, area), invAxdx)
  }

  function Factor(lam: real, asq: real, gg: real, quad: real, inv: real): real { -lam * asq * inv - gg * quad * inv }

  /** Row i of the double loop that adds the stress terms. */
  function StressRow(R: Mat3, i: nat): Vec3
    requires i < 3
  {
    if i == 0 then R.r0 else if i == 1 then R.r1 else R.r2
  }

  function At(v: Vec3, i: nat): real
    requires i < 3
  {
    if i == 0 then v.x else if i == 1 then v.y else v.z
  }

  /** The double loop over components: it adds -gg R_ij a_j g_i to the flux and -gg R_ij a_j a_i / axdx to the
      factor. */
  method AddStressTerms(R: Mat3, area: Vec3, grad: Vec3, gg: real, invAxdx: real, diffFlux0: real, lhsfac0: real)
    returns (diffFlux: real, lhsfac: real)
    ensures diffFlux == diffFlux0 - gg * Dot(grad, ColMul(R, area))
    ensures lhsfac == lhsfac0 - gg * Quad(R, area) * invAxdx
  {
    ghost var scaled := ScaleRow(invAxdx, area);
    diffFlux, lhsfac := StressLoops(R, area, grad, gg, invAxdx, diffFlux0, lhsfac0);
    AllRows(R, area, grad, gg);
    AllRows(R, area, scaled, gg);
    ScaledForm(R, area, gg, invAxdx);
  }

  /** The outer loop, over i. */
  method StressLoops(R: Mat3, area: Vec3, grad: Vec3, gg: real, invAxdx: real, diffFlux0: real, lhsfac0: real)
    returns (diffFlux: real, lhsfac: real)
    ensures diffFlux == diffFlux0 - Rows(R, area, grad, gg, 3)
    ensures lhsfac == lhsfac0 - Rows(R, area, ScaleRow(invAxdx, area), gg, 3)
  {
    diffFlux, lhsfac := diffFlux0, lhsfac0;
    ghost var scaled := ScaleRow(invAxdx, area);
    for i := 0 to 3
      invariant diffFlux == diffFlux0 - Rows(R, area, grad, gg, i)
      invariant lhsfac == lhsfac0 - Rows(R, area, scaled, gg, i)
    {
      assert At(scaled, i) == Times(invAxdx, At(area, i));
      diffFlux, lhsfac := AddStressRow(StressRow(R, i), area, At(grad, i), At(area, i), gg, invAxdx, diffFlux, lhsfac);
    }
  }

  /** The inner loop, over j. */
  method AddStressRow(row: Vec3, area: Vec3, g: real, a: real, gg: real, invAxdx: real, d: real, l: real)
    returns (diffFlux: real, lhsfac: real)
    ensures diffFlux == d - Columns(row, area, g, gg, 3) && lhsfac == l - Columns(row, area, Times(invAxdx, a), gg, 3)
  {
    diffFlux, lhsfac := d, l;
    for j := 0 to 3
      invariant diffFlux == d - Columns(row, area, g, gg, j)
      invariant lhsfac == l - Columns(row, area, Times(invAxdx, a), gg, j)
    {
      var ggFac := -gg * At(row, j) * At(area, j);
      FactorTerm(gg, At(row, j), At(area, j), g, a, invAxdx);
      diffFlux := diffFlux + ggFac * g;
      lhsfac := lhsfac + ggFac * a * invAxdx;
    }
  }

  function Term(gg: real, r: real, a: real, g: real): real { gg * r * a * g }

  lemma FactorTerm(gg: real, r: real, a: real, g: real, ai: real, inv: real)
    ensures (-gg * r * a) * g == -Term(gg, r, a, g) && (-gg * r * a) * ai * inv == -Term(gg, r, a, Times(inv, ai))
  {}

  /** The first j terms of a row, and the first i rows. */
  function Columns(u: Vec3, v: Vec3, g: real, gg: real, j: nat): real
    requires j <= 3
  {
    if j == 0 then 0.0 else Columns(u, v, g, gg, j - 1) + Term(gg, At(u, j - 1), At(v, j - 1), g)
  }

  function Rows(R: Mat3, area: Vec3, g: Vec3, gg: real, i: nat): real
    requires i <= 3
  {
    if i == 0 then 0.0 else Rows(R, area, g, gg, i - 1) + Columns(StressRow(R, i - 1), area, At(g, i - 1), gg, 3)
  }

  lemma FullRow(u: Vec3, v: Vec3, g: real, gg: real)
    ensures Columns(u, v, g, gg, 3) == gg * (g * Dot(u, v))
  {
    assert Columns(u, v, g, gg, 1) == Term(gg, u.x, v.x, g);
    assert Columns(u, v, g, gg, 2) == Columns(u, v, g, gg, 1) + Term(gg, u.y, v.y, g);
    assert Columns(u, v, g, gg, 3) == Columns(u, v, g, gg, 2) + Term(gg, u.z, v.z, g);
    TermSum(gg, u.x, u.y, u.z, v.x, v.y, v.z, g);
  }

  lemma TermSum(gg: real, a: real, b: real, c: real, x: real, y: real, z: real, g: real)
    ensures Term(gg, a, x, g) + Term(gg, b, y, g) + Term(gg, c, z, g) == gg * (g * (a * x + b * y + c * z))
  {}

  lemma AllRows(R: Mat3, area: Vec3, g: Vec3, gg: real)
    ensures Rows(R, area, g, gg, 3) == gg * Dot(g, ColMul(R, area))
  {
    FullRow(R.r0, area, g.x, gg);
    FullRow(R.r1, area, g.y, gg);
    FullRow(R.r2, area, g.z, gg);
    assert Rows(R, area, g, gg, 1) == Columns(R.r0, area, g.x, gg, 3);
    assert Rows(R, area, g, gg, 2) == Rows(R, area, g, gg, 1) + Columns(R.r1, area, g.y, gg, 3);
    assert Rows(R, area, g, gg, 3) == Rows(R, area, g, gg, 2) + Columns(R.r2, area, g.z, gg, 3);
    Distribute(gg, g.x * Dot(R.r0, area), g.y * Dot(R.r1, area), g.z * Dot(R.r2, area));
  }

  lemma Distribute(k: real, x: real, y: real, z: real)
    ensures k * x + k * y + k * z == k * (x + y + z)
  {}

  lemma ScaledForm(R: Mat3, area: Vec3, gg: real, inv: real)
    ensures gg * Dot(ScaleRow(inv, area), ColMul(R, area)) == gg * Quad(R, area) * inv
  {
    DotScale(inv, area, ColMul(R, area));
    assert gg * (inv * Quad(R, area)) == gg * Quad(R, area) * inv;
  }

  /** With a positive semidefinite stress the turbulent flux never undoes diffusion: the factor is not positive. */
  lemma DiffusionDissipates(lam: real, gg: real, R: Mat3, area: Vec3, invAxdx: real)
    requires lam >= 0.0 && gg >= 0.0 && invAxdx >= 0.0 && PositiveSemidefinite(R)
    ensures DiffusiveFactor(lam, gg, R, area, invAxdx) <= 0.0
  {
    assert Quad(R, area) >= 0.0;
    DotNonnegative(area);
    MulNonnegative(lam, Dot(area, area));
    MulNonnegative(lam * Dot(area, area), invAxdx);
    MulNonnegative(gg, Quad(R, area));
    MulNonnegative(gg * Quad(R, area), invAxdx);
  }

  /** Fully upwinded with dissipative diffusion the block has no positive off-diagonal entry and no negative
      diagonal. */
  lemma UpwindBlockSigns(e: Edge, o: Options)
    requires e.pecfac == 1.0 && o.alphaUpw == 1.0 && e.lhsfac <= 0.0
    ensures var b := BlockOf(e, o); b.ll >= 0.0 && b.rr >= 0.0 && b.lr <= 0.0 && b.rl <= 0.0
  {
    UpwindFactors(e.tmdot, Abs(e.tmdot), e.pecfac, o.alpha, o.alphaUpw);
  }

  lemma UpwindFactors(m: real, am: real, p: real, a: real, u: real)
    requires p == 1.0 && u == 1.0 && am == Abs(m)
    ensures UpwindFactor(m, am, p, a, u) >= 0.0 >= UpwindFactor(m, -am, p, a, u) && CentralFactor(m, p, a, u) == 0.0
  {
    assert 1.0 - p == 0.0;
    UpwindAtOne(m, am, a);
  }

  lemma UpwindAtOne(m: real, am: real, a: real)
    ensures UpwindFactor(m, am, 1.0, a, 1.0) == 0.5 * (m + am) && CentralFactor(m, 1.0, a, 1.0) == 0.0
    ensures UpwindFactor(m, -am, 1.0, a, 1.0) == 0.5 * (m - am)
  {}
}
