/** The diffusive part of an edge: the corrected gradient at the face, the flux of the laminar and the turbulent part
    through it, its sensitivity, and the edge the two make with the advective part. */
module EdgeDiffusion {
  import opened Reals
  import opened Matrix3
  import opened JacobiStep
  import opened SymDiagonalize3
  import opened DiagonaliseResults
  import opened CoupledRate
  import opened StressPerturbation
  import opened Realisability
  import opened EdgeFlux

  /** What an edge gathers for diffusion: area vector, vector from the left node to the right, the gradients there, and
      the two nodal values. */
  datatype Gather = Gather(area: Vec3, dx: Vec3, gradL: Vec3, gradR: Vec3, qL: real, qR: real)

  /** inv is one over the area vector times the edge vector. */
  predicate InverseOf(e: Gather, inv: real) { inv * Dot(e.area, e.dx) == 1.0 }

  /** The mean of the two nodal gradients. */
  function MeanGradient(e: Gather): Vec3 {
    Vec3(0.5 * (e.gradL.x + e.gradR.x), 0.5 * (e.gradL.y + e.gradR.y), 0.5 * (e.gradL.z + e.gradR.z))
  }

  function PlusMultiple(u: Vec3, k: real, v: Vec3): Vec3 {
    Vec3(u.x + Times(k, v.x), u.y + Times(k, v.y), u.z + Times(k, v.z))
  }

  function Excess(q: real, along: real, inv: real): real { (q - along) * inv }

  /** The mean gradient, corrected along the area vector. */
  function FaceGradient(e: Gather, inv: real): Vec3 {
    PlusMultiple(MeanGradient(e), Excess(e.qR - e.qL, Dot(MeanGradient(e), e.dx), inv), e.area)
  }

  lemma DotPlus(u: Vec3, k: real, v: Vec3, w: Vec3)
    ensures Dot(PlusMultiple(u, k, v), w) == Dot(u, w) + Times(k, Dot(v, w))
  {}

  /** The corrected gradient reproduces the difference of the nodal values along the edge. */
  lemma FaceGradientExact(e: Gather, inv: real)
    requires InverseOf(e, inv)
    ensures Dot(FaceGradient(e, inv), e.dx) == e.qR - e.qL
  {
    var G := MeanGradient(e);
    DotPlus(G, Excess(e.qR - e.qL, Dot(G, e.dx), inv), e.area, e.dx);
    Undone(e.qR - e.qL, Dot(G, e.dx), inv, Dot(e.area, e.dx));
  }

  lemma Undone(q: real, along: real, inv: real, axdx: real)
    requires inv * axdx == 1.0
    ensures along + Times(Excess(q, along, inv), axdx) == q
  {
    assert (q - along) * inv * axdx == (q - along) * (inv * axdx);
  }

  // ----- the loops

  /** The first n products of u and v. */
  function Products(u: Vec3, v: Vec3, n: nat): real
    requires n <= 3
  {
    if n == 0 then 0.0 else Products(u, v, n - 1) + Times(At(u, n - 1), At(v, n - 1))
  }

  lemma AllProducts(u: Vec3, v: Vec3)
    ensures Products(u, v, 3) == Dot(u, v)
  {
    assert Products(u, v, 1) == u.x * v.x;
    assert Products(u, v, 2) == Products(u, v, 1) + u.y * v.y;
    assert Products(u, v, 3) == Products(u, v, 2) + u.z * v.z;
  }

  lemma MeanAt(e: Gather, j: nat)
    requires j < 3
    ensures At(MeanGradient(e), j) == 0.5 * (At(e.gradL, j) + At(e.gradR, j))
  {}

  /** The mean gradient along the edge. */
  method MeanAlong(e: Gather) returns (along: real)
    ensures along == Dot(MeanGradient(e), e.dx)
  {
    along := 0.0;
    for l := 0 to 3
      invariant along == Products(MeanGradient(e), e.dx, l)
    {
      MeanAt(e, l);
      var mean := 0.5 * (At(e.gradL, l) + At(e.gradR, l));
      along := along + Times(mean, At(e.dx, l));
    }
    AllProducts(MeanGradient(e), e.dx);
  }

  /** The corrected gradient at the face. */
  method FormGradient(e: Gather, invAxdx: real) returns (g: Vec3)
    ensures g == FaceGradient(e, invAxdx)
  {
    var along := MeanAlong(e);
    var qDiff := e.qR - e.qL;
    var components := new real[3](_ => 0.0);
    for j := 0 to 3
      invariant forall i :: 0 <= i < j ==> components[i] == At(FaceGradient(e, invAxdx), i)
    {
      FaceAt(e, invAxdx, j);
      Reassociate(qDiff, along, At(e.area, j), invAxdx);
      components[j] := 0.5 * (At(e.gradL, j) + At(e.gradR, j)) + (qDiff - along) * At(e.area, j) * invAxdx;
    }
    g := Vec3(components[0], components[1], components[2]);
  }

  lemma FaceAt(e: Gather, inv: real, j: nat)
    requires j < 3
    ensures At(FaceGradient(e, inv), j)
         == 0.5 * (At(e.gradL, j) + At(e.gradR, j)) + Times(Excess(e.qR - e.qL, Dot(MeanGradient(e), e.dx), inv),
             At(e.area, j))
  {}

  lemma Reassociate(q: real, along: real, a: real, inv: real)
    ensures (q - along) * a * inv == Times(Excess(q, along, inv), a)
  {}

  /** The part of the area vector that is not along the edge, over-relaxed. */
  function Skew(e: Gather, inv: real): Vec3 { PlusMultiple(e.area, -Times(Dot(e.area, e.area), inv), e.dx) }

  /** The loop that extrapolates to the middle of the edge and gathers the correction for non-orthogonality. */
  method Extrapolate(e: Gather, lam: real, asq: real, invAxdx: real) returns (dqL: real, dqR: real, nonOrth: real)
    requires asq == Dot(e.area, e.area)
    ensures dqL == Times(0.5, Dot(e.gradL, e.dx)) && dqR == Times(0.5, Dot(e.gradR, e.dx))
    ensures nonOrth == -Times(lam, Dot(Skew(e, invAxdx), MeanGradient(e)))
  {
    ghost var G, K := MeanGradient(e), Skew(e, invAxdx);
    forall j: nat | j < 3
      ensures At(G, j) == 0.5 * (At(e.gradL, j) + At(e.gradR, j))
      ensures At(K, j) == At(e.area, j) - asq * invAxdx * At(e.dx, j)
    {
      SkewAt(e, invAxdx, j);
      MeanAt(e, j);
    }
    dqL, dqR, nonOrth := ExtrapolateLoop(e.gradL, e.gradR, e.area, e.dx, lam, asq, invAxdx, G, K);
    AllProducts(e.gradL, e.dx);
    AllProducts(e.gradR, e.dx);
    AllProducts(K, G);
  }

  method ExtrapolateLoop(gradL: Vec3, gradR: Vec3, area: Vec3, dx: Vec3, lam: real, asq: real, invAxdx: real,
      ghost G: Vec3, ghost K: Vec3) returns (dqL: real, dqR: real, nonOrth: real)
    requires forall j: nat :: j < 3 ==>
      At(G, j) == 0.5 * (At(gradL, j) + At(gradR, j)) && At(K, j) == At(area, j) - asq * invAxdx * At(dx, j)
    ensures dqL == Times(0.5, Products(gradL, dx, 3)) && dqR == Times(0.5, Products(gradR, dx, 3))
    ensures nonOrth == -Times(lam, Products(K, G, 3))
  {
    dqL, dqR, nonOrth := 0.0, 0.0, 0.0;
    for j := 0 to 3
      invariant dqL == Times(0.5, Products(gradL, dx, j)) && dqR == Times(0.5, Products(gradR, dx, j))
      invariant nonOrth == -Times(lam, Products(K, G, j))
    {
      dqL, dqR, nonOrth := AddComponent(At(gradL, j), At(gradR, j), At(area, j), At(dx, j), lam, asq, invAxdx,
        dqL, dqR, nonOrth, Products(gradL, dx, j), Products(gradR, dx, j), Products(K, G, j), At(K, j), At(G, j));
    }
  }

  method AddComponent(gl: real, gr: real, axj: real, dxj: real, lam: real, asq: real, invAxdx: real,
      dqL: real, dqR: real, nonOrth: real, ghost l: real, ghost r: real, ghost n: real, ghost k: real, ghost g: real)
      returns (dqL': real, dqR': real, nonOrth': real)
    requires dqL == Times(0.5, l) && dqR == Times(0.5, r) && nonOrth == -Times(lam, n)
    requires g == 0.5 * (gl + gr) && k == axj - asq * invAxdx * dxj
    ensures dqL' == Times(0.5, l + Times(gl, dxj)) && dqR' == Times(0.5, r + Times(gr, dxj))
    ensures nonOrth' == -Times(lam, n + Times(k, g))
  {
    HalfStep(l, gl, dxj);
    HalfStep(r, gr, dxj);
    dqL' := dqL + 0.5 * dxj * gl;
    dqR' := dqR + 0.5 * dxj * gr;
    var kxj := axj - asq * invAxdx * dxj;
    var mean := 0.5 * (gl + gr);
    NextProduct(lam, n, k, g);
    nonOrth' := nonOrth + -lam * kxj * mean;
  }

  lemma HalfStep(sum: real, g: real, d: real)
    ensures Times(0.5, sum) + 0.5 * d * g == Times(0.5, sum + Times(g, d))
  {}

  lemma SkewAt(e: Gather, inv: real, j: nat)
    requires j < 3
    ensures At(Skew(e, inv), j) == At(e.area, j) - Dot(e.area, e.area) * inv * At(e.dx, j)
  {
    SkewTerm(Dot(e.area, e.area), inv, At(e.dx, j));
  }

  lemma SkewTerm(asq: real, inv: real, d: real)
    ensures Times(-Times(asq, inv), d) == -(asq * inv * d)
  {}

  lemma NextProduct(lam: real, sum: real, k: real, g: real)
    ensures -Times(lam, sum) + -lam * k * g == -Times(lam, sum + Times(k, g))
  {}

  // ----- the flux

  function LaminarTerm(lam: real, asq: real, inv: real, q: real): real { -lam * asq * inv * q }

  /** The laminar flux with its correction is the corrected gradient's flux through the area. */
  lemma LaminarFlux(e: Gather, lam: real, inv: real, nonOrth: real)
    requires nonOrth == -Times(lam, Dot(Skew(e, inv), MeanGradient(e)))
    ensures LaminarTerm(lam, Dot(e.area, e.area), inv, e.qR - e.qL) + nonOrth ==
      -Times(lam, Dot(FaceGradient(e, inv), e.area))
  {
    var G := MeanGradient(e);
    DotPlus(e.area, -Times(Dot(e.area, e.area), inv), e.dx, G);
    DotPlus(G, Excess(e.qR - e.qL, Dot(G, e.dx), inv), e.area, e.area);
    DotComm(e.area, G);
    DotComm(e.dx, G);
    LaminarScalars(lam, Dot(e.area, e.area), inv, e.qR - e.qL, Dot(G, e.dx), Dot(G, e.area),
      Dot(Skew(e, inv), G), Dot(FaceGradient(e, inv), e.area));
  }

  lemma LaminarScalars(lam: real, asq: real, inv: real, q: real, gd: real, ga: real, kg: real, fa: real)
    requires kg == ga + Times(-Times(asq, inv), gd) && fa == ga + Times(Excess(q, gd, inv), asq)
    ensures LaminarTerm(lam, asq, inv, q) - Times(lam, kg) == -Times(lam, fa)
  {
    assert kg + asq * inv * q == fa;
    assert lam * (kg + asq * inv * q) == lam * kg + lam * asq * inv * q;
  }

  /** The diffusive flux of the corrected gradient g: laminar through the area, turbulent through the stress. */
  function DiffusiveFlux(lam: real, gg: real, R: Mat3, area: Vec3, g: Vec3): real {
    Flux(lam, Dot(g, area), gg, Dot(g, ColMul(R, area)))
  }

  function Flux(lam: real, ga: real, gg: real, gra: real): real { -Times(lam, ga) - gg * gra }

  /** All of the diffusive part: the flux is that of the corrected gradient, and the factor its sensitivity. */
  method FormEdge(e: Gather, left: nat, right: nat, lam: real, gg: real, R: Mat3, tmdot: real, pecfac: real)
    returns (edge: Edge, invAxdx: real)
    requires Dot(e.area, e.dx) != 0.0
    ensures InverseOf(e, invAxdx)
    ensures edge.left == left && edge.right == right && edge.qL == e.qL && edge.qR == e.qR
    ensures edge.tmdot == tmdot && edge.pecfac == pecfac
    ensures edge.dqL == Times(0.5, Dot(e.gradL, e.dx)) && edge.dqR == Times(0.5, Dot(e.gradR, e.dx))
    ensures edge.diffFlux == DiffusiveFlux(lam, gg, R, e.area, FaceGradient(e, invAxdx))
    ensures edge.lhsfac == DiffusiveFactor(lam, gg, R, e.area, invAxdx)
  {
    var asq := Dot(e.area, e.area);
    invAxdx := OneOver(Dot(e.area, e.dx));
    var g := FormGradient(e, invAxdx);
    var dqL, dqR, nonOrth := Extrapolate(e, lam, asq, invAxdx);
    var lhsfac := -lam * asq * invAxdx;
    var diffFlux := lhsfac * (e.qR - e.qL) + nonOrth;
    LaminarFlux(e, lam, invAxdx, nonOrth);
    diffFlux, lhsfac := AddStressTerms(R, e.area, g, gg, invAxdx, diffFlux, lhsfac);
    edge := Edge(left, right, e.qL, e.qR, dqL, dqR, tmdot, pecfac, diffFlux, lhsfac);
  }

  /** The block of an edge from what it gathers: FormEdge, then the block of the edge it gives. */
  method FormBlock(e: Gather, left: nat, right: nat, lam: real, gg: real, R: Mat3, tmdot: real, pecfac: real,
      o: Options)
    returns (lhs: array<real>, rhs: array<real>, edge: Edge, invAxdx: real)
    requires Dot(e.area, e.dx) != 0.0
    ensures InverseOf(e, invAxdx) && fresh(lhs) && fresh(rhs)
    ensures edge.qL == e.qL && edge.qR == e.qR && edge.tmdot == tmdot && edge.pecfac == pecfac
    ensures edge.dqL == Times(0.5, Dot(e.gradL, e.dx)) && edge.dqR == Times(0.5, Dot(e.gradR, e.dx))
    ensures edge.diffFlux == DiffusiveFlux(lam, gg, R, e.area, FaceGradient(e, invAxdx))
    ensures edge.lhsfac == DiffusiveFactor(lam, gg, R, e.area, invAxdx)
    ensures var b := BlockOf(edge, o); lhs[..] == [b.ll, b.lr, b.rl, b.rr] && rhs[..] == [b.rhsL, b.rhsR]
  {
    edge, invAxdx := FormEdge(e, left, right, lam, gg, R, tmdot, pecfac);
    lhs, rhs := EdgeBlock(edge, o);
  }

  method OneOver(x: real) returns (inv: real)
    requires x != 0.0
    ensures inv * x == 1.0
  {
    inv := 1.0 / x;
  }

  /** The factor is the exact sensitivity: changing the difference of the nodal values by s changes the flux by s times
      the factor. */
  lemma FactorIsSensitivity(e: Gather, e': Gather, lam: real, gg: real, R: Mat3, inv: real, s: real)
    requires e' == e.(qL := e'.qL, qR := e'.qR) && e'.qR - e'.qL == e.qR - e.qL + s
    ensures DiffusiveFlux(lam, gg, R, e.area, FaceGradient(e', inv))
      - DiffusiveFlux(lam, gg, R, e.area, FaceGradient(e, inv))
         == Times(s, DiffusiveFactor(lam, gg, R, e.area, inv))
  {
    var a, G := e.area, MeanGradient(e);
    var k := Excess(e.qR - e.qL, Dot(G, e.dx), inv);
    var k' := Excess(e'.qR - e'.qL, Dot(G, e.dx), inv);
    DotPlus(G, k, a, a);
    DotPlus(G, k', a, a);
    DotPlus(G, k, a, ColMul(R, a));
    DotPlus(G, k', a, ColMul(R, a));
    StepOf(e.qR - e.qL, Dot(G, e.dx), s, inv);
    SensitivityScalars(lam, gg, inv, s, k, k', Dot(a, a), Quad(R, a), Dot(G, a), Dot(G, ColMul(R, a)),
      Dot(FaceGradient(e, inv), a), Dot(FaceGradient(e', inv), a),
      Dot(FaceGradient(e, inv), ColMul(R, a)), Dot(FaceGradient(e', inv), ColMul(R, a)));
  }

  lemma StepOf(q: real, along: real, s: real, inv: real)
    ensures Excess(q + s, along, inv) == Excess(q, along, inv) + Times(s, inv)
  {}

  lemma SensitivityScalars(lam: real, gg: real, inv: real, s: real, k: real, k': real,
      asq: real, quad: real, x: real, y: real, f: real, f': real, r: real, r': real)
    requires k' == k + Times(s, inv) && f == x + Times(k, asq) && f' == x + Times(k', asq)
    requires r == y + Times(k, quad) && r' == y + Times(k', quad)
    ensures Flux(lam, f', gg, r') - Flux(lam, f, gg, r) == Times(s, Factor(lam, asq, gg, quad, inv))
  {
    assert f' - f == s * inv * asq && r' - r == s * inv * quad;
    assert Flux(lam, f', gg, r') - Flux(lam, f, gg, r) == -(lam * (f' - f)) - gg * (r' - r);
  }

  /** A linear field with gradient c, from the gathered values to the edge FormEdge makes of them: the corrected
      gradient is c, the half-gradients are half the nodal difference, and the diffusive flux is that of c. */
  lemma LinearFieldExact(e: Gather, c: Vec3, edge: Edge, lam: real, gg: real, R: Mat3, inv: real)
    requires InverseOf(e, inv) && e.gradL == c == e.gradR && e.qR - e.qL == Dot(c, e.dx)
    requires edge.dqL == Times(0.5, Dot(e.gradL, e.dx)) && edge.dqR == Times(0.5, Dot(e.gradR, e.dx))
    requires edge.diffFlux == DiffusiveFlux(lam, gg, R, e.area, FaceGradient(e, inv))
    ensures FaceGradient(e, inv) == c && 2.0 * edge.dqL == 2.0 * edge.dqR == e.qR - e.qL
    ensures edge.diffFlux == -Times(lam, Dot(c, e.area)) - gg * Dot(c, ColMul(R, e.area))
  {
    assert MeanGradient(e) == c;
    NoExcess(e.qR - e.qL, Dot(c, e.dx), inv, c, e.area);
  }

  lemma NoExcess(q: real, along: real, inv: real, c: Vec3, area: Vec3)
    requires q == along
    ensures PlusMultiple(c, Excess(q, along, inv), area) == c
  {}

  function Opposite(u: Vec3): Vec3 { Vec3(-u.x, -u.y, -u.z) }

  /** The edge gathered from its other end. */
  function ReverseGather(e: Gather): Gather {
    Gather(Opposite(e.area), Opposite(e.dx), e.gradR, e.gradL, e.qR, e.qL)
  }

  lemma OppositeDot(u: Vec3, v: Vec3)
    ensures Dot(Opposite(u), v) == -Dot(u, v) == Dot(u, Opposite(v)) && Dot(Opposite(u), Opposite(v)) == Dot(u, v)
  {}

  /** Both ends see one corrected gradient, one factor, and opposite fluxes. */
  lemma ReversedDiffusion(e: Gather, lam: real, gg: real, R: Mat3, inv: real)
    ensures FaceGradient(ReverseGather(e), inv) == FaceGradient(e, inv)
    ensures DiffusiveFlux(lam, gg, R, Opposite(e.area), FaceGradient(e, inv))
         == -DiffusiveFlux(lam, gg, R, e.area, FaceGradient(e, inv))
    ensures DiffusiveFactor(lam, gg, R, Opposite(e.area), inv) == DiffusiveFactor(lam, gg, R, e.area, inv)
  {
    var G, g := MeanGradient(e), FaceGradient(e, inv);
    assert MeanGradient(ReverseGather(e)) == G;
    OppositeDot(G, e.dx);
    OppositeExcess(e.qR - e.qL, Dot(G, e.dx), inv, G, e.area);
    OppositeDot(g, e.area);
    OppositeDot(e.area, e.area);
    OppositeStress(R, e.area, g);
    OppositeStress(R, e.area, e.area);
    OppositeDot(e.area, ColMul(R, e.area));
    OppositeFlux(lam, Dot(g, e.area), gg, Dot(g, ColMul(R, e.area)));
    assert ColMul(R, Opposite(e.area)) == Opposite(ColMul(R, e.area));
  }

  lemma OppositeExcess(q: real, along: real, inv: real, u: Vec3, area: Vec3)
    ensures PlusMultiple(u, Excess(-q, -along, inv), Opposite(area)) == PlusMultiple(u, Excess(q, along, inv), area)
  {
    assert Excess(-q, -along, inv) == -Excess(q, along, inv);
    OppositeTimes(Excess(q, along, inv), area.x);
    OppositeTimes(Excess(q, along, inv), area.y);
    OppositeTimes(Excess(q, along, inv), area.z);
  }

  lemma OppositeTimes(k: real, x: real)
    ensures Times(-k, -x) == Times(k, x)
  {}

  lemma OppositeStress(R: Mat3, area: Vec3, g: Vec3)
    ensures ColMul(R, Opposite(area)) == Opposite(ColMul(R, area))
    ensures Dot(g, ColMul(R, Opposite(area))) == -Dot(g, ColMul(R, area))
  {
    OppositeDot(R.r0, area);
    OppositeDot(R.r1, area);
    OppositeDot(R.r2, area);
    OppositeDot(g, ColMul(R, area));
  }

  lemma OppositeFlux(lam: real, ga: real, gg: real, gra: real)
    ensures Flux(lam, -ga, gg, -gra) == -Flux(lam, ga, gg, gra)
  {}

  // ----- from the stress to the signs of the block

  /** The factor of a perturbed stress is not positive once the laminar viscosity covers what the perturbation may have
      lost; for a decomposition that came out diagonal any laminar viscosity does. */
  lemma PerturbedEdgeDissipates(b: Mat3, m: seq<nat>, bias: int, delta: real, ke: real, lam: real, gg: real,
      area: Vec3, invAxdx: real, sqrt: real -> real)
    requires IsSqrt(sqrt) && Symmetric(b) && IsPermutation(m) && ke > 0.0 && 0.0 <= delta <= 1.0
    requires PositiveSemidefinite(AddDiagonal(b, 1.0 / 3.0)) && gg >= 0.0 && invAxdx >= 0.0
    requires lam >= Times(gg, Times(2.0 * ke, Times(delta, Remainder(Rotated(b, Final(b, sqrt))))))
    ensures DiffusiveFactor(lam, gg, Stress(b, m, Corner(bias), delta, ke, sqrt), area, invAxdx) <= 0.0
  {
    var rem := Remainder(Rotated(b, Final(b, sqrt)));
    StressRealisable(b, m, bias, delta, ke, area, sqrt);
    DotNonnegative(area);
    DissipationScalars(lam, gg, ke, delta, rem, Dot(area, area),
        Quad(Stress(b, m, Corner(bias), delta, ke, sqrt), area), invAxdx);
  }

  lemma DissipationScalars(lam: real, gg: real, ke: real, delta: real, rem: real, asq: real, quad: real, inv: real)
    requires gg >= 0.0 && inv >= 0.0 && asq >= 0.0 && lam >= Times(gg, Times(2.0 * ke, Times(delta, rem)))
    requires quad >= -Times(2.0 * ke, Times(delta, Times(rem, asq)))
    ensures Factor(lam, asq, gg, quad, inv) <= 0.0
  {
    var loss := Times(2.0 * ke, Times(delta, rem));
    assert Times(2.0 * ke, Times(delta, Times(rem, asq))) == Times(loss, asq);
    MulNonnegative(gg, quad + Times(loss, asq));
    MulNonnegative(lam - Times(gg, loss), asq);
    assert (lam - Times(gg, loss)) * asq == lam * asq - gg * Times(loss, asq);
    MulNonnegative(lam * asq + gg * quad, inv);
  }

  /** From the stress to the block: a realisable stress, perturbed by a weight between 0 and 1, gives a fully upwinded
      edge the signs of a monotone scheme. */
  lemma PerturbedEdgeMonotone(e: Edge, o: Options, b: Mat3, m: seq<nat>, bias: int, delta: real, ke: real,
      lam: real, gg: real, area: Vec3, invAxdx: real, sqrt: real -> real)
    requires IsSqrt(sqrt) && Symmetric(b) && IsPermutation(m) && ke > 0.0 && 0.0 <= delta <= 1.0
    requires PositiveSemidefinite(AddDiagonal(b, 1.0 / 3.0)) && gg >= 0.0 && invAxdx >= 0.0
    requires lam >= Times(gg, Times(2.0 * ke, Times(delta, Remainder(Rotated(b, Final(b, sqrt))))))
    requires e.lhsfac == DiffusiveFactor(lam, gg, Stress(b, m, Corner(bias), delta, ke, sqrt), area, invAxdx)
    requires e.pecfac == 1.0 && o.alphaUpw == 1.0
    ensures var k := BlockOf(e, o); k.ll >= 0.0 && k.rr >= 0.0 && k.lr <= 0.0 && k.rl <= 0.0
  {
    PerturbedEdgeDissipates(b, m, bias, delta, ke, lam, gg, area, invAxdx, sqrt);
    UpwindBlockSigns(e, o);
  }

  /** For a stress that couples two directions only the condition is on b: the square of the laminar viscosity covers
      what is off the diagonal of b, reduced by (24/1000)^(2^22 - 1); n stands for 22. */
  lemma CoupledEdgeDissipates(b: Mat3, axis: Axis, m: seq<nat>, bias: int, delta: real, ke: real, lam: real, gg: real,
      area: Vec3, invAxdx: real, n: nat, rho: real, sqrt: real -> real)
    requires IsSqrt(sqrt) && Symmetric(b) && CoupledOnlyIn(b, axis) && IsPermutation(m) && ke > 0.0
    requires 0.0 <= delta <= 1.0 && PositiveSemidefinite(AddDiagonal(b, 1.0 / 3.0)) && gg >= 0.0 && invAxdx >= 0.0
    requires rho == 0.024 && n + 2 == 24 && lam >= 0.0
    requires 20.0 * Sq(lam)
          >= Times(Sq(Times(gg, Times(2.0 * ke, delta))), 3.0 * Times(Power(rho, Exponent(n)), Off(b)))
    ensures DiffusiveFactor(lam, gg, Stress(b, m, Corner(bias), delta, ke, sqrt), area, invAxdx) <= 0.0
  {
    var rem := CoupledStress(b, axis, m, bias, delta, ke, area, n, rho, sqrt);
    CoveredDissipates(lam, gg, ke, delta, rem, 3.0 * Times(Power(rho, Exponent(n)), Off(b)), area, invAxdx,
      Stress(b, m, Corner(bias), delta, ke, sqrt));
  }

  lemma CoveredDissipates(lam: real, gg: real, ke: real, delta: real, rem: real, bound: real, area: Vec3, invAxdx: real,
      R: Mat3)
    requires lam >= 0.0 && gg >= 0.0 && ke > 0.0 && delta >= 0.0 && rem >= 0.0 && invAxdx >= 0.0
    requires 20.0 * Sq(rem) <= bound && 20.0 * Sq(lam) >= Times(Sq(Times(gg, Times(2.0 * ke, delta))), bound)
    requires Quad(R, area) >= -Times(2.0 * ke, Times(delta, Times(rem, Dot(area, area))))
    ensures DiffusiveFactor(lam, gg, R, area, invAxdx) <= 0.0
  {
    DotNonnegative(area);
    RootCovers(lam, gg, ke, delta, rem, bound);
    DissipationScalars(lam, gg, ke, delta, rem, Dot(area, area), Quad(R, area), invAxdx);
  }

  lemma RootCovers(lam: real, gg: real, ke: real, delta: real, rem: real, bound: real)
    requires lam >= 0.0 && gg >= 0.0 && ke > 0.0 && delta >= 0.0 && rem >= 0.0 && 20.0 * Sq(rem) <= bound
    requires 20.0 * Sq(lam) >= Times(Sq(Times(gg, Times(2.0 * ke, delta))), bound)
    ensures lam >= Times(gg, Times(2.0 * ke, Times(delta, rem)))
  {
    var k := Times(gg, Times(2.0 * ke, delta));
    MulNonnegative(2.0 * ke, delta);
    MulNonnegative(gg, Times(2.0 * ke, delta));
    MulNonnegative(k, rem);
    SqNonnegative(k);
    MulOrder(Sq(k), 20.0 * Sq(rem), bound);
    assert Sq(Times(k, rem)) == Sq(k) * Sq(rem);
    SquareOrder(Times(k, rem), lam);
    assert Times(gg, Times(2.0 * ke, Times(delta, rem))) == Times(k, rem);
  }

  /** Exactly which viscosities and stresses never undo diffusion, whatever the edge. */
  lemma AllEdgesDissipateIff(lam: real, gg: real, R: Mat3)
    ensures (forall area: Vec3, invAxdx: real :: invAxdx >= 0.0 ==> DiffusiveFactor(lam, gg, R, area, invAxdx) <= 0.0)
       <==> PositiveSemidefinite(AddDiagonal(Scale(gg, R), lam))
  {
    var M := AddDiagonal(Scale(gg, R), lam);
    forall area: Vec3, inv: real ensures DiffusiveFactor(lam, gg, R, area, inv) == -Times(Quad(M, area), inv) {
      QuadAddDiagonal(Scale(gg, R), lam, area);
      QuadScale(R, gg, area);
      FactorIsForm(lam, Dot(area, area), gg, Quad(R, area), inv, Quad(M, area));
    }
    if PositiveSemidefinite(M) {
      forall area: Vec3, inv: real | inv >= 0.0 ensures DiffusiveFactor(lam, gg, R, area, inv) <= 0.0 {
        assert Quad(M, area) >= 0.0;
        MulNonnegative(Quad(M, area), inv);
      }
    } else {
      var v: Vec3 :| Quad(M, v) < 0.0;
      assert DiffusiveFactor(lam, gg, R, v, 1.0) == -Times(Quad(M, v), 1.0);
    }
  }

  lemma FactorIsForm(lam: real, asq: real, gg: real, quad: real, inv: real, form: real)
    requires form == Times(gg, quad) + lam * asq
    ensures Factor(lam, asq, gg, quad, inv) == -Times(form, inv)
  {}

  /** A realisable, trace-free stress and an edge that, perturbed with full weight towards the first corner, gains from
      diffusion exactly when the laminar viscosity is below two thirds of gg times the kinetic energy. */
  lemma LostEdgeGrowsIff(ke: real, lam: real, gg: real, invAxdx: real, sqrt: real -> real)
    returns (b: Mat3, m: seq<nat>, area: Vec3)
    requires IsSqrt(sqrt) && ke > 0.0 && invAxdx > 0.0
    ensures Symmetric(b) && Trace(b) == 0.0 && PositiveSemidefinite(AddDiagonal(b, 1.0 / 3.0))
    ensures IsPermutation(m) && Descending(Rotated(b, Final(b, sqrt)), m)
    ensures DiffusiveFactor(lam, gg, Stress(b, m, Corner(1), 1.0, ke, sqrt), area, invAxdx) > 0.0
       <==> lam < 2.0 / 3.0 * (gg * ke)
  {
    b, m, area := LostStress(1.0 / 3.0, Corner(1), 1.0);
    TieReturnsInput(b, sqrt);
    TieEdgeGrowsIff(b, m, Corner(1), 1.0, ke, lam, gg, area, invAxdx, sqrt);
  }

  lemma LostStress(k: real, c: seq<real>, delta: real) returns (b: Mat3, m: seq<nat>, area: Vec3)
    requires k == 1.0 / 3.0 && c == Corner(1) && delta == 1.0
    ensures Symmetric(b) && Trace(b) == 0.0 && PositiveSemidefinite(AddDiagonal(b, 1.0 / 3.0))
    ensures IsPermutation(m) && Descending(b, m) && forall axis: Axis :: !StrictlyLargest(b, axis)
    ensures Dot(area, area) == 2.0 && Quad(AddDiagonal(Perturbed(b, m, c, delta), 1.0 / 3.0), area) == -2.0 / 3.0
  {
    b := ThirdsStress(k);
    m := InOrder(b, k);
    area := LostArea(b, k, m, c, delta);
  }

  lemma ThirdsStress(k: real) returns (b: Mat3)
    requires k == 1.0 / 3.0
    ensures Thirds(b, k) && Symmetric(b) && Trace(b) == 0.0 && PositiveSemidefinite(AddDiagonal(b, 1.0 / 3.0))
    ensures forall axis: Axis :: !StrictlyLargest(b, axis)
  {
    b := Mat3(Vec3(0.0, k, k), Vec3(k, 0.0, k), Vec3(k, k, 0.0));
    ThirdsRealisable(b, k);
    ThirdsTie(b, k);
  }

  lemma InOrder(b: Mat3, k: real) returns (m: seq<nat>)
    requires Thirds(b, k)
    ensures m == [0, 1, 2] && IsPermutation(m) && Descending(b, m)
  {
    m := [0, 1, 2];
  }

  lemma LostArea(b: Mat3, k: real, m: seq<nat>, c: seq<real>, delta: real) returns (area: Vec3)
    requires k == 1.0 / 3.0 && m == [0, 1, 2] && Thirds(b, k) && IsPermutation(m) && c == Corner(1) && delta == 1.0
    ensures Dot(area, area) == 2.0 && Quad(AddDiagonal(Perturbed(b, m, c, delta), 1.0 / 3.0), area) == -2.0 / 3.0
  {
    area := Vec3(0.0, 1.0, -1.0);
    LostForm(b, k, m, c, delta, area);
    LostLength(area);
  }

  lemma LostLength(v: Vec3)
    requires v == Vec3(0.0, 1.0, -1.0)
    ensures Dot(v, v) == 2.0
  {}

  lemma LostForm(b: Mat3, k: real, m: seq<nat>, c: seq<real>, delta: real, v: Vec3)
    requires k == 1.0 / 3.0 && m == [0, 1, 2] && Thirds(b, k) && IsPermutation(m) && c == Corner(1) && delta == 1.0
    requires v == Vec3(0.0, 1.0, -1.0)
    ensures Quad(AddDiagonal(Perturbed(b, m, c, delta), 1.0 / 3.0), v) == -2.0 / 3.0
  {
    ThirdsFull(b, k, m, c, delta);
    FullForm(AddDiagonal(Perturbed(b, m, c, delta), 1.0 / 3.0), k, v);
  }

  lemma TieEdgeGrowsIff(b: Mat3, m: seq<nat>, c: seq<real>, delta: real, ke: real, lam: real, gg: real, area: Vec3,
      invAxdx: real, sqrt: real -> real)
    requires IsSqrt(sqrt) && IsPermutation(m) && |c| == 3 && forall axis: Axis :: !StrictlyLargest(b, axis)
    requires Quad(AddDiagonal(Perturbed(b, m, c, delta), 1.0 / 3.0), area) == -2.0 / 3.0
    requires Dot(area, area) == 2.0 && invAxdx > 0.0
    ensures DiffusiveFactor(lam, gg, Stress(b, m, c, delta, ke, sqrt), area, invAxdx) > 0.0
       <==> lam < 2.0 / 3.0 * (gg * ke)
  {
    TieStress(b, m, c, delta, ke, sqrt);
    QuadScale(AddDiagonal(Perturbed(b, m, c, delta), 1.0 / 3.0), 2.0 * ke, area);
    GrowsScalars(lam, gg, ke, Dot(area, area), Quad(Stress(b, m, c, delta, ke, sqrt), area), invAxdx);
  }

  /** What the perturbation makes of a tie. */
  lemma TieStress(b: Mat3, m: seq<nat>, c: seq<real>, delta: real, ke: real, sqrt: real -> real)
    requires IsSqrt(sqrt) && IsPermutation(m) && |c| == 3 && forall axis: Axis :: !StrictlyLargest(b, axis)
    ensures Stress(b, m, c, delta, ke, sqrt) == Scale(2.0 * ke, AddDiagonal(Perturbed(b, m, c, delta), 1.0 / 3.0))
  {
    TieReturnsInput(b, sqrt);
    IdentityTurns(Perturbed(b, m, c, delta));
  }

  lemma IdentityTurns(P: Mat3)
    ensures Mul(Mul(IDENTITY, P), Transpose(IDENTITY)) == P
  {
    assert Transpose(IDENTITY) == IDENTITY;
    MulIdentity(P);
  }

  lemma ThirdsFull(b: Mat3, k: real, m: seq<nat>, c: seq<real>, delta: real)
    requires k == 1.0 / 3.0 && m == [0, 1, 2] && Thirds(b, k) && IsPermutation(m) && c == Corner(1) && delta == 1.0
    ensures AddDiagonal(Perturbed(b, m, c, delta), 1.0 / 3.0)
         == Mat3(Vec3(1.0, k, k), Vec3(k, 0.0, k), Vec3(k, k, 0.0))
  {}

  lemma FullForm(M: Mat3, k: real, v: Vec3)
    requires k == 1.0 / 3.0 && M == Mat3(Vec3(1.0, k, k), Vec3(k, 0.0, k), Vec3(k, k, 0.0)) && v == Vec3(0.0, 1.0, -1.0)
    ensures Quad(M, v) == -2.0 / 3.0
  {}

  lemma GrowsScalars(lam: real, gg: real, ke: real, asq: real, quad: real, inv: real)
    requires inv > 0.0 && asq == 2.0 && quad == -(4.0 / 3.0 * ke)
    ensures Factor(lam, asq, gg, quad, inv) > 0.0 <==> lam < 2.0 / 3.0 * (gg * ke)
  {
    var gap := 2.0 / 3.0 * (gg * ke) - lam;
    assert Factor(lam, asq, gg, quad, inv) == 2.0 * Times(inv, gap);
    if gap > 0.0 { MulPositive(inv, gap); } else { MulNonnegative(inv, -gap); }
  }
}
