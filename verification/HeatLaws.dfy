/** What the wall heat transfer terms are: the conductance of a slab, the flux of a linear temperature, and the coupling
    parameter in terms of the Fourier number. */
module HeatLaws {
  import opened Reals
  import opened Sums
  import opened WallHeatTransfer

  // ----- the conductance

  /** Conductance times edge length is conductivity times area. */
  lemma SlabConductance(p: Point, sqrt: real -> real)
    requires IsSqrt(sqrt) && Usable(p) && Asq(p) > 0.0
    ensures sqrt(Asq(p)) > 0.0 && Conductance(p) * EdgeLength(p, sqrt) == p.k * sqrt(Asq(p))
  {
    assert Root(sqrt(Asq(p)), Asq(p));
    SlabScalars(p.k, Asq(p), Axdx(p), sqrt(Asq(p)));
  }

  lemma SlabScalars(k: real, asq: real, x: real, m: real)
    requires x != 0.0 && m > 0.0 && m * m == asq
    ensures k * (asq * (1.0 / x)) * (x / m) == k * m
  {
    var inv, len := 1.0 / x, x / m;
    assert inv * x == 1.0 && len * m == x;
    assert k * (asq * inv) * len == k * m * (inv * (len * m));
  }

  /** A point of a slab of conductivity k and thickness len. */
  predicate SlabPoint(p: Point, k: real, len: real, sqrt: real -> real) {
    Usable(p) && Asq(p) > 0.0 && sqrt(Asq(p)) != 0.0 && p.k == k && EdgeLength(p, sqrt) == len
  }

  lemma {:induction false} NodeSlab(points: seq<Point>, node: nat, k: real, len: real, sqrt: real -> real)
    requires IsSqrt(sqrt)
    requires forall i :: 0 <= i < |points| && points[i].node == node ==> SlabPoint(points[i], k, len, sqrt)
    ensures Times(SumOver(points, node, ConductanceTerm()), len) == Times(SumOver(points, node, AreaTerm(sqrt)), k)
  {
    if points != [] {
      var rest, last := points[..|points| - 1], points[|points| - 1];
      NodeSlab(rest, node, k, len, sqrt);
      if last.node == node {
        SlabConductance(last, sqrt);
        TimesOver(SumOver(rest, node, ConductanceTerm()), Conductance(last), len);
        TimesOver(SumOver(rest, node, AreaTerm(sqrt)), sqrt(Asq(last)), k);
      }
    }
  }

  lemma {:induction false} GroupSlab(points: seq<Point>, group: seq<nat>, k: real, len: real, sqrt: real -> real)
    requires IsSqrt(sqrt)
    requires forall i :: 0 <= i < |points| && points[i].node in group ==> SlabPoint(points[i], k, len, sqrt)
    ensures Times(Assembled(points, group, ConductanceTerm()), len)
         == Times(Assembled(points, group, AreaTerm(sqrt)), k)
  {
    if group != [] {
      var rest, last := group[..|group| - 1], group[|group| - 1];
      GroupSlab(points, rest, k, len, sqrt);
      NodeSlab(points, last, k, len, sqrt);
      TimesOver(Assembled(points, rest, ConductanceTerm()), SumOver(points, last, ConductanceTerm()), len);
      TimesOver(Assembled(points, rest, AreaTerm(sqrt)), SumOver(points, last, AreaTerm(sqrt)), k);
    }
  }

  /** On a slab, however its areas are spread over points and images, the coefficient is conductivity over
      thickness. */
  lemma SlabCoefficient(points: seq<Point>, temp: seq<real>, group: seq<nat>, t: real, sqrt: real -> real,
      htc: real, reference: real, flux: real, k: real, len: real)
    requires IsSqrt(sqrt) && CanCool(points, temp, group, t, sqrt)
    requires Cooled(points, temp, group, t, sqrt, htc, reference, flux)
    requires forall i :: 0 <= i < |points| && points[i].node in group ==> SlabPoint(points[i], k, len, sqrt)
    ensures htc * len == k
  {
    GroupSlab(points, group, k, len, sqrt);
    RatioIs(Assembled(points, group, ConductanceTerm()), Assembled(points, group, AreaTerm(sqrt)), len, k, htc);
  }

  lemma RatioIs(c: real, a: real, len: real, k: real, htc: real)
    requires a != 0.0 && htc == c / a && Times(c, len) == Times(a, k)
    ensures htc * len == k
  {
    assert htc * a == c;
    assert a * (htc * len - k) == 0.0;
    NonzeroFactor(a, htc * len - k);
  }

  // ----- a linear temperature

  /** Around the point the temperature is linear with gradient c: between the opposing node and the wall node, at
      temperature t, and in the enthalpy gradient. */
  predicate LinearAt(p: Point, c: seq<real>, t: real) {
    && Usable(p) && |c| == |p.a| && t - p.tempL == DotUpTo(c, p.dx, |c|)
    && forall j :: 0 <= j < |c| ==> p.g[j] == p.cp * c[j]
  }

  lemma {:induction false} LinearCorrection(p: Point, c: seq<real>, t: real, n: nat)
    requires LinearAt(p, c, t) && n <= |c|
    ensures NonOrthUpTo(p, n) == -p.k * (DotUpTo(c, p.a, n) - Asq(p) * (1.0 / Axdx(p)) * DotUpTo(c, p.dx, n))
  {
    if n > 0 {
      LinearCorrection(p, c, t, n - 1);
      assert p.g[n - 1] / p.cp == c[n - 1];
      CorrectionStep(p.k, Asq(p) * (1.0 / Axdx(p)), p.a[n - 1], p.dx[n - 1], c[n - 1], DotUpTo(c, p.a, n - 1),
        DotUpTo(c, p.dx, n - 1));
    }
  }

  lemma CorrectionStep(k: real, s: real, a: real, d: real, c: real, ca: real, cd: real)
    ensures -k * (ca - s * cd) + -k * (a - s * d) * c == -k * (ca + Times(c, a) - s * (cd + Times(c, d)))
  {}

  /** The flux term of a linear temperature: the correction counts the skew part with the sign of the gradient, so the
      part along the edge is taken twice. */
  lemma LinearFlux(p: Point, c: seq<real>, temp: seq<real>)
    requires p.node < |temp| && LinearAt(p, c, temp[p.node])
    ensures FluxTerm(temp)(p)
         == p.k * DotUpTo(c, p.a, |c|) - 2.0 * (p.k * (Asq(p) / Axdx(p)) * DotUpTo(c, p.dx, |c|))
  {
    LinearCorrection(p, c, temp[p.node], |c|);
    FluxScalars(p.k, Asq(p), Axdx(p), DotUpTo(c, p.a, |c|), DotUpTo(c, p.dx, |c|), p.tempL - temp[p.node], NonOrth(p));
  }

  lemma FluxScalars(k: real, asq: real, x: real, ca: real, cd: real, drop: real, nonOrth: real)
    requires x != 0.0 && drop == -cd && nonOrth == -k * (ca - asq * (1.0 / x) * cd)
    ensures Times(k * (asq * (1.0 / x)), drop) - nonOrth == k * ca - 2.0 * (k * (asq / x) * cd)
  {
    assert asq * (1.0 / x) == asq / x;
  }

  /** The heat that conduction carries through the area of the point. */
  function Conducted(p: Point, c: seq<real>): real
    requires |c| == |p.a|
  {
    -p.k * DotUpTo(c, p.a, |c|)
  }

  /** The gradient sees area and edge vector alike, as it does when the two are parallel. */
  predicate SeenAlike(p: Point, c: seq<real>)
    requires Usable(p) && |c| == |p.a|
  {
    DotUpTo(c, p.a, |c|) * Axdx(p) == Asq(p) * DotUpTo(c, p.dx, |c|)
  }

  /** So the flux of a linear temperature is the conducted heat exactly when the gradient sees area and edge alike. */
  lemma LinearFluxExactIff(p: Point, c: seq<real>, temp: seq<real>)
    requires p.node < |temp| && LinearAt(p, c, temp[p.node]) && p.k != 0.0
    ensures FluxTerm(temp)(p) == Conducted(p, c) <==> SeenAlike(p, c)
  {
    LinearFlux(p, c, temp);
    ExactScalars(p.k, Asq(p), Axdx(p), DotUpTo(c, p.a, |c|), DotUpTo(c, p.dx, |c|), FluxTerm(temp)(p));
  }

  lemma ExactScalars(k: real, asq: real, x: real, ca: real, cd: real, flux: real)
    requires x != 0.0 && k != 0.0 && flux == k * ca - 2.0 * (k * (asq / x) * cd)
    ensures flux == -k * ca <==> ca * x == asq * cd
  {
    var s := asq / x;
    assert s * x == asq;
    NonzeroFactor(k, ca - s * cd);
    NonzeroFactor(x, ca - s * cd);
    assert k * ca - 2.0 * (k * s * cd) + k * ca == 2.0 * (k * (ca - s * cd));
    assert x * (ca - s * cd) == ca * x - asq * cd;
  }

  /** Every gradient is seen alike where the area vector points along the edge. */
  lemma {:induction false} OrthogonalSeenAlike(p: Point, c: seq<real>, n: nat)
    requires Orthogonal(p) && |c| == |p.a| && n <= |c|
    ensures DotUpTo(c, p.a, n) * Axdx(p) == Asq(p) * DotUpTo(c, p.dx, n)
  {
    if n > 0 {
      OrthogonalSeenAlike(p, c, n - 1);
      assert p.a[n - 1] * Axdx(p) == Asq(p) * p.dx[n - 1];
      AlikeStep(Axdx(p), Asq(p), DotUpTo(c, p.a, n - 1), DotUpTo(c, p.dx, n - 1), c[n - 1], p.a[n - 1], p.dx[n - 1]);
    }
  }

  lemma AlikeStep(x: real, s: real, ca: real, cd: real, c: real, a: real, d: real)
    requires ca * x == s * cd && a * x == s * d
    ensures (ca + Times(c, a)) * x == s * (cd + Times(c, d))
  {
    assert Times(c, a) * x == c * (a * x) && s * Times(c, d) == c * (s * d);
  }

  /** A skew edge on which no heat is conducted through the wall and the flux term is not zero. */
  lemma SkewFluxWrong(k: real) returns (p: Point, c: seq<real>, temp: seq<real>)
    requires k != 0.0
    ensures p.k == k && p.node < |temp| && LinearAt(p, c, temp[p.node])
    ensures Conducted(p, c) == 0.0 && FluxTerm(temp)(p) != 0.0
  {
    p := Point(0, [1.0, 0.0], [1.0, 1.0], [0.0, 1.0], k, 1.0, 1.0, 0.0);
    c, temp := [0.0, 1.0], [1.0];
    PlaneDot(p.a, p.dx);
    PlaneDot(p.a, p.a);
    PlaneDot(c, p.a);
    PlaneDot(c, p.dx);
    LinearFluxExactIff(p, c, temp);
  }

  lemma PlaneDot(a: seq<real>, b: seq<real>)
    requires |a| == |b| == 2
    ensures DotUpTo(a, b, 2) == a[0] * b[0] + a[1] * b[1]
  {
    assert DotUpTo(a, b, 0) == 0.0;
    assert DotUpTo(a, b, 1) == Times(a[0], b[0]);
  }

  ghost function ConductedTerm(c: seq<real>): Point -> real {
    (p: Point) => if |c| == |p.a| then Conducted(p, c) else 0.0
  }

  /** Every point of the nodes sees the linear temperature with gradient c exactly. */
  ghost predicate ExactAt(points: seq<Point>, temp: seq<real>, c: seq<real>) {
    forall i :: 0 <= i < |points| ==>
      points[i].node < |temp| && LinearAt(points[i], c, temp[points[i].node]) && SeenAlike(points[i], c)
  }

  lemma {:induction false} NodeConducts(points: seq<Point>, temp: seq<real>, c: seq<real>, node: nat)
    requires ExactAt(points, temp, c)
    ensures SumOver(points, node, FluxTerm(temp)) == SumOver(points, node, ConductedTerm(c))
  {
    if points != [] {
      var rest, last := points[..|points| - 1], points[|points| - 1];
      NodeConducts(rest, temp, c, node);
      if last.k != 0.0 {
        LinearFluxExactIff(last, c, temp);
      } else {
        LinearFlux(last, c, temp);
        NoConduction(last.k, Asq(last) / Axdx(last), DotUpTo(c, last.a, |c|), DotUpTo(c, last.dx, |c|));
      }
    }
  }

  lemma NoConduction(k: real, s: real, ca: real, cd: real)
    requires k == 0.0
    ensures k * ca - 2.0 * (k * s * cd) == -k * ca
  {}

  /** Then the flux assembled at a node is the heat conducted through its areas. */
  lemma {:induction false} GroupConducts(points: seq<Point>, temp: seq<real>, c: seq<real>, group: seq<nat>)
    requires ExactAt(points, temp, c)
    ensures Assembled(points, group, FluxTerm(temp)) == Assembled(points, group, ConductedTerm(c))
  {
    if group != [] {
      GroupConducts(points, temp, c, group[..|group| - 1]);
      NodeConducts(points, temp, c, group[|group| - 1]);
    }
  }

  // ----- the coupling parameter

  /** The Fourier number of the edge: diffusivity times time step over length squared. */
  function Fourier(rho: real, cp: real, len: real, k: real, dt: real): real
    requires rho * cp * (len * len) != 0.0
  {
    k * dt / (rho * cp * (len * len))
  }

  /** chi is the inverse of twice the Fourier number. */
  lemma ChiIsFourier(rho: real, cp: real, len: real, k: real, dt: real)
    requires rho * cp * (len * len) != 0.0 && 2.0 * k * dt != 0.0
    ensures ChiOf(rho, cp, len, k, dt) * (2.0 * Fourier(rho, cp, len, k, dt)) == 1.0
  {
    var x, y := rho * cp * (len * len), k * dt;
    assert rho * cp * len * len == x && 2.0 * k * dt == 2.0 * y;
    InverseQuotients(x, y);
  }

  lemma InverseQuotients(x: real, y: real)
    requires x != 0.0 && y != 0.0
    ensures x / (2.0 * y) * (2.0 * (y / x)) == 1.0
  {
    var a, b := x / (2.0 * y), y / x;
    assert a * (2.0 * y) == x && b * x == y;
    assert a * (2.0 * b) * x == a * (2.0 * y);
    NonzeroFactor(x, a * (2.0 * b) - 1.0);
  }

  /** alpha L 2 Fo = k sqrt(1 + 4 Fo). */
  predicate FourierLaw(alpha: real, len: real, fo: real, k: real) {
    Sq(alpha * len * (2.0 * fo)) == Sq(k) * (1.0 + 4.0 * fo)
  }

  /** The coupling parameter from the Fourier number. */
  lemma AlphaFromFourier(p: Point, dt: real, sqrt: real -> real)
    requires IsSqrt(sqrt) && Usable(p) && Axdx(p) > 0.0 && Asq(p) > 0.0 && p.k > 0.0 && dt > 0.0 && p.rho * p.cp > 0.0
    ensures CanCouple(p, dt, sqrt) && Alpha(p, dt, sqrt) >= 0.0
    ensures var len := EdgeLength(p, sqrt);
      len > 0.0 && p.rho * p.cp * (len * len) > 0.0
      && FourierLaw(Alpha(p, dt, sqrt), len, Fourier(p.rho, p.cp, len, p.k, dt), p.k)
  {
    PhysicalCouples(p, dt, sqrt);
    assert Root(sqrt(Asq(p)), Asq(p));
    PositiveQuotientOf(Axdx(p), sqrt(Asq(p)));
    CouplingSquare(p.rho, p.cp, EdgeLength(p, sqrt), p.k, dt, sqrt);
  }

  lemma CouplingSquare(rho: real, cp: real, len: real, k: real, dt: real, sqrt: real -> real)
    requires IsSqrt(sqrt) && rho * cp > 0.0 && len > 0.0 && k > 0.0 && dt > 0.0
    ensures 2.0 * k * dt > 0.0 && rho * cp * (len * len) > 0.0
    ensures var chi, fo := ChiOf(rho, cp, len, k, dt), Fourier(rho, cp, len, k, dt);
      Divisor(chi, sqrt) > 0.0 && FourierLaw(CouplingParameter(k, len, chi, sqrt), len, fo, k)
  {
    MulPositive(len, len);
    MulPositive(rho * cp, len * len);
    MulPositive(k, dt);
    assert 2.0 * k * dt == 2.0 * (k * dt);
    ChiIsFourier(rho, cp, len, k, dt);
    ChiNonnegative(rho, cp, len, k, dt);
    CouplingOfChi(k, len, ChiOf(rho, cp, len, k, dt), Fourier(rho, cp, len, k, dt), sqrt);
  }

  lemma CouplingOfChi(k: real, len: real, chi: real, fo: real, sqrt: real -> real)
    requires IsSqrt(sqrt) && len > 0.0 && chi >= 0.0 && chi * (2.0 * fo) == 1.0
    ensures Divisor(chi, sqrt) > 0.0 && FourierLaw(CouplingParameter(k, len, chi, sqrt), len, fo, k)
  {
    CouplingIsRoot(k, len, chi, sqrt);
    MulNonnegative(chi, chi + 2.0);
    assert Root(sqrt(chi * (chi + 2.0)), chi * (chi + 2.0));
    RootTimes(sqrt(chi * (chi + 2.0)), chi, k, len, CouplingParameter(k, len, chi, sqrt), fo);
  }

  lemma RootTimes(s: real, chi: real, k: real, len: real, alpha: real, fo: real)
    requires len > 0.0 && s * s == chi * (chi + 2.0) && alpha == s * k / len && chi * (2.0 * fo) == 1.0
    ensures FourierLaw(alpha, len, fo, k)
  {
    assert alpha * len == s * k;
    SquareOfRoot(s, chi, k, fo, alpha * len);
  }

  lemma SquareOfRoot(s: real, chi: real, k: real, fo: real, sk: real)
    requires s * s == chi * (chi + 2.0) && sk == s * k && chi * (2.0 * fo) == 1.0
    ensures Sq(sk * (2.0 * fo)) == Sq(k) * (1.0 + 4.0 * fo)
  {
    var x := chi * (2.0 * fo);
    assert s * s * (2.0 * fo) * (2.0 * fo) == x * (x + 4.0 * fo);
    assert Sq(sk * (2.0 * fo)) == Sq(k) * (s * s * (2.0 * fo) * (2.0 * fo));
  }
}
