/** Wall heat transfer: zero, accumulate over the wall's face points, sum over ranks and periodic images, normalise. */
module WallHeatTransfer {
  import opened Reals
  import opened Sums

  /** One integration point of a wall face: the node it belongs to, the area vector, the vector from the opposing node
      to that node, the enthalpy gradient there, conductivity, specific heat and density, and the opposing node's
      temperature. */
  datatype Point = Point(node: nat, a: seq<real>, dx: seq<real>, g: seq<real>, k: real, cp: real, rho: real,
      tempL: real)

  predicate Usable(p: Point) {
    |p.a| == |p.dx| == |p.g| && DotUpTo(p.a, p.dx, |p.a|) != 0.0 && p.cp != 0.0
  }

  function Asq(p: Point): real { DotUpTo(p.a, p.a, |p.a|) }

  function Axdx(p: Point): real
    requires Usable(p)
  {
    DotUpTo(p.a, p.dx, |p.a|)
  }

  /** Conductance of the edge towards the opposing node. */
  function Conductance(p: Point): real
    requires Usable(p)
  {
    p.k * (Asq(p) * (1.0 / Axdx(p)))
  }

  /** The non-orthogonal correction over the first n components. */
  function NonOrthUpTo(p: Point, n: nat): real
    requires Usable(p) && n <= |p.a|
  {
    if n == 0 then 0.0
    else NonOrthUpTo(p, n - 1) + -p.k * (p.a[n - 1] - Asq(p) * (1.0 / Axdx(p)) * p.dx[n - 1]) * (p.g[n - 1] / p.cp)
  }

  function NonOrth(p: Point): real
    requires Usable(p)
  {
    NonOrthUpTo(p, |p.a|)
  }

  /** The area vector points along the edge. */
  predicate Orthogonal(p: Point) {
    Usable(p) && forall j :: 0 <= j < |p.a| ==> p.a[j] * Axdx(p) == Asq(p) * p.dx[j]
  }

  lemma {:induction false} NoCorrection(p: Point, n: nat)
    requires Orthogonal(p) && n <= |p.a|
    ensures NonOrthUpTo(p, n) == 0.0
  {
    if n > 0 {
      NoCorrection(p, n - 1);
      assert p.a[n - 1] * Axdx(p) == Asq(p) * p.dx[n - 1];
      Aligned(p.a[n - 1], Axdx(p), Asq(p), p.dx[n - 1], 1.0 / Axdx(p));
      ZeroFactor(-p.k, p.a[n - 1] - Asq(p) * (1.0 / Axdx(p)) * p.dx[n - 1], p.g[n - 1] / p.cp);
    }
  }

  lemma Aligned(a: real, x: real, s: real, d: real, inv: real)
    requires x != 0.0 && inv == 1.0 / x && a * x == s * d
    ensures a - s * inv * d == 0.0
  {
    assert inv * x == 1.0;
    assert a == a * (inv * x) == a * x * inv == s * d * inv;
  }

  lemma ZeroFactor(a: real, z: real, b: real)
    requires z == 0.0
    ensures a * z * b == 0.0
  {}

  /** The geometry loop: |A|^2 and A.dx. */
  method Geometry(p: Point) returns (axdx: real, asq: real)
    requires |p.a| == |p.dx|
    ensures axdx == DotUpTo(p.a, p.dx, |p.a|) && asq == Asq(p)
  {
    axdx, asq := 0.0, 0.0;
    for j := 0 to |p.a|
      invariant axdx == DotUpTo(p.a, p.dx, j) && asq == DotUpTo(p.a, p.a, j)
    {
      asq := asq + p.a[j] * p.a[j];
      axdx := axdx + p.a[j] * p.dx[j];
    }
  }

  method Correction(p: Point, asq: real, invAxdx: real) returns (nonOrth: real)
    requires Usable(p) && asq == Asq(p) && invAxdx == 1.0 / Axdx(p)
    ensures nonOrth == NonOrth(p)
  {
    nonOrth := 0.0;
    for j := 0 to |p.a|
      invariant nonOrth == NonOrthUpTo(p, j)
    {
      var kxj := p.a[j] - asq * invAxdx * p.dx[j];
      var gjT := p.g[j] / p.cp;
      nonOrth := nonOrth + -p.k * kxj * gjT;
    }
  }

  /** f summed over the points of a node. */
  ghost function SumOver(points: seq<Point>, node: nat, f: Point -> real): real {
    if points == [] then 0.0
    else
      var last := points[|points| - 1];
      SumOver(points[..|points| - 1], node, f) + if last.node == node then f(last) else 0.0
  }

  ghost predicate IsSums(field: seq<real>, points: seq<Point>, f: Point -> real) {
    forall i :: 0 <= i < |field| ==> field[i] == SumOver(points, i, f)
  }

  lemma AddPoint(field: seq<real>, points: seq<Point>, i: nat, f: Point -> real, v: real)
    requires i < |points| && points[i].node < |field| && IsSums(field, points[..i], f) && v == f(points[i])
    ensures IsSums(field[points[i].node := field[points[i].node] + v], points[..i + 1], f)
  {
    assert points[..i + 1][..i] == points[..i] && points[..i + 1][i] == points[i];
  }

  /** compute_coupling_parameter. */
  function CouplingParameter(kappa: real, h: real, chi: real, sqrt: real -> real): real
    requires h != 0.0 && Divisor(chi, sqrt) != 0.0
  {
    var a := 1.0 + chi - 1.0 / Divisor(chi, sqrt);
    a * kappa / h
  }

  /** For a non-negative chi the formula can be evaluated, and its factor is just the root it contains. */
  lemma CouplingIsRoot(kappa: real, h: real, chi: real, sqrt: real -> real)
    requires IsSqrt(sqrt) && h != 0.0 && chi >= 0.0
    ensures Divisor(chi, sqrt) > 0.0
    ensures CouplingParameter(kappa, h, chi, sqrt) == sqrt(chi * (chi + 2.0)) * kappa / h
  {
    var x := chi * (chi + 2.0);
    MulNonnegative(chi, chi + 2.0);
    var s := sqrt(x);
    assert Root(s, x);
    RootOfCoupling(chi, s);
  }

  lemma RootOfCoupling(chi: real, s: real)
    requires chi >= 0.0 && s >= 0.0 && s * s == chi * (chi + 2.0)
    ensures 1.0 + chi - 1.0 / (1.0 + chi + s) == s
  {
    var d := 1.0 + chi + s;
    assert (1.0 + chi - s) * d == 1.0;
    assert 1.0 / d == 1.0 + chi - s;
  }

  /** The length of the edge along its area vector. */
  function EdgeLength(p: Point, sqrt: real -> real): real
    requires Usable(p) && sqrt(Asq(p)) != 0.0
  {
    Axdx(p) / sqrt(Asq(p))
  }

  /** The inverse of twice the Fourier number of the edge for the time step. */
  function Chi(p: Point, dt: real, sqrt: real -> real): real
    requires Usable(p) && sqrt(Asq(p)) != 0.0 && 2.0 * p.k * dt != 0.0
  {
    ChiOf(p.rho, p.cp, EdgeLength(p, sqrt), p.k, dt)
  }

  function ChiOf(rho: real, cp: real, len: real, k: real, dt: real): real
    requires 2.0 * k * dt != 0.0
  {
    rho * cp * len * len / (2.0 * k * dt)
  }

  /** What the coupling parameter takes a root of and divides by. */
  function Divisor(chi: real, sqrt: real -> real): real { 1.0 + chi + sqrt(chi * (chi + 2.0)) }

  /** The divisions of the coupling parameter are by no zero. */
  predicate CanCouple(p: Point, dt: real, sqrt: real -> real) {
    && Usable(p) && sqrt(Asq(p)) != 0.0 && 2.0 * p.k * dt != 0.0 && EdgeLength(p, sqrt) != 0.0
    && Divisor(Chi(p, dt, sqrt), sqrt) != 0.0
  }

  /** The Robin coupling parameter of a point. */
  function Alpha(p: Point, dt: real, sqrt: real -> real): real
    requires CanCouple(p, dt, sqrt)
  {
    CouplingParameter(p.k, EdgeLength(p, sqrt), Chi(p, dt, sqrt), sqrt)
  }

  /** Physical data can always be coupled, and by a parameter that is not negative. */
  lemma PhysicalCouples(p: Point, dt: real, sqrt: real -> real)
    requires IsSqrt(sqrt) && Usable(p) && Axdx(p) > 0.0 && Asq(p) > 0.0 && p.k > 0.0 && dt > 0.0 && p.rho * p.cp >= 0.0
    ensures CanCouple(p, dt, sqrt) && Alpha(p, dt, sqrt) >= 0.0
  {
    assert Root(sqrt(Asq(p)), Asq(p));
    assert sqrt(Asq(p)) > 0.0;
    MulPositive(p.k, dt);
    assert 2.0 * p.k * dt == 2.0 * (p.k * dt);
    PositiveQuotientOf(Axdx(p), sqrt(Asq(p)));
    ChiNonnegative(p.rho, p.cp, EdgeLength(p, sqrt), p.k, dt);
    CouplingNonnegative(p.k, EdgeLength(p, sqrt), Chi(p, dt, sqrt), sqrt);
  }

  lemma CouplingNonnegative(kappa: real, h: real, chi: real, sqrt: real -> real)
    requires IsSqrt(sqrt) && h > 0.0 && chi >= 0.0 && kappa > 0.0
    ensures Divisor(chi, sqrt) > 0.0 && CouplingParameter(kappa, h, chi, sqrt) >= 0.0
  {
    CouplingIsRoot(kappa, h, chi, sqrt);
    MulNonnegative(chi, chi + 2.0);
    var s := sqrt(chi * (chi + 2.0));
    assert Root(s, chi * (chi + 2.0));
    MulNonnegative(s, kappa);
    NonnegativeQuotient(s * kappa, h);
  }

  lemma PositiveQuotientOf(x: real, m: real)
    requires x > 0.0 && m > 0.0
    ensures x / m > 0.0
  {}

  lemma NonnegativeQuotient(x: real, m: real)
    requires x >= 0.0 && m > 0.0
    ensures x / m >= 0.0
  {}

  lemma ChiNonnegative(rho: real, cp: real, len: real, k: real, dt: real)
    requires rho * cp >= 0.0 && 2.0 * k * dt > 0.0
    ensures ChiOf(rho, cp, len, k, dt) >= 0.0
  {
    SqNonnegative(len);
    MulNonnegative(rho * cp, Sq(len));
    assert rho * cp * len * len == rho * cp * Sq(len);
    NonnegativeQuotient(rho * cp * len * len, 2.0 * k * dt);
  }

  /** What each point adds to the five fields. */
  ghost function AreaTerm(sqrt: real -> real): Point -> real { p => sqrt(Asq(p)) }
  ghost function ReferenceTerm(): Point -> real { p => if Usable(p) then Times(Conductance(p), p.tempL)
      - NonOrth(p) else 0.0 }
  ghost function ConductanceTerm(): Point -> real { p => if Usable(p) then Conductance(p) else 0.0 }
  ghost function CoefficientTerm(temp: seq<real>): Point -> real {
    p => if Usable(p) && p.node < |temp| then -Times(Conductance(p), temp[p.node]) else 0.0
  }
  ghost function FluxTerm(temp: seq<real>): Point -> real {
    p => if Usable(p) && p.node < |temp| then Times(Conductance(p), p.tempL - temp[p.node]) - NonOrth(p) else 0.0
  }

  ghost function RobinTerm(dt: real, sqrt: real -> real): Point -> real {
    p => if CanCouple(p, dt, sqrt) then Times(Alpha(p, dt, sqrt), sqrt(Asq(p))) else 0.0
  }

  lemma PointValues(k: real, tempL: real, tempR: real, asq: real, inv: real, nonOrth: real)
    ensures k * tempL * asq * inv - nonOrth == Times(k * (asq * inv), tempL) - nonOrth
    ensures -k * tempR * asq * inv == -Times(k * (asq * inv), tempR)
    ensures k * (tempL - tempR) * asq * inv - nonOrth == Times(k * (asq * inv), tempL - tempR) - nonOrth
  {}

  /** Adding values from other ranks or periodic images of a node: every member of the node's group counts. */
  function GroupSum(field: seq<real>, group: seq<nat>): real
    requires forall m :: 0 <= m < |group| ==> group[m] < |field|
  {
    if group == [] then 0.0 else GroupSum(field, group[..|group| - 1]) + field[group[|group| - 1]]
  }

  ghost predicate GoodGroups(groups: seq<seq<nat>>, n: nat) {
    |groups| == n && forall i :: 0 <= i < n ==> forall m :: 0 <= m < |groups[i]| ==> groups[i][m] < n
  }

  /** f summed over all points of all nodes of a group. */
  ghost function Assembled(points: seq<Point>, group: seq<nat>, f: Point -> real): real {
    if group == [] then 0.0
    else Assembled(points, group[..|group| - 1], f) + SumOver(points, group[|group| - 1], f)
  }

  lemma {:induction false} GroupOfSums(field: seq<real>, points: seq<Point>, group: seq<nat>, f: Point -> real)
    requires IsSums(field, points, f) && forall m :: 0 <= m < |group| ==> group[m] < |field|
    ensures GroupSum(field, group) == Assembled(points, group, f)
  {
    if group != [] { GroupOfSums(field, points, group[..|group| - 1], f); }
  }

  function Reduced(field: seq<real>, groups: seq<seq<nat>>): (r: seq<real>)
    requires GoodGroups(groups, |field|)
    ensures |r| == |field|
  {
    seq(|field|, i requires 0 <= i < |field| && GoodGroups(groups, |field|) => GroupSum(field, groups[i]))
  }

  /** The points are on the wall and can be used. */
  ghost predicate GoodPoints(points: seq<Point>, n: nat) {
    forall i :: 0 <= i < |points| ==> Usable(points[i]) && points[i].node < n
  }

  ghost predicate Coupling(points: seq<Point>, dt: real, sqrt: real -> real) {
    forall i :: 0 <= i < |points| ==> CanCouple(points[i], dt, sqrt)
  }

  /** At one node, the flux is the reference part plus the coefficient part. */
  lemma {:induction false} FluxSplits(points: seq<Point>, temp: seq<real>, node: nat)
    requires GoodPoints(points, |temp|)
    ensures SumOver(points, node, FluxTerm(temp))
            == SumOver(points, node, ReferenceTerm()) + SumOver(points, node, CoefficientTerm(temp))
  {
    if points != [] {
      var last := points[|points| - 1];
      FluxSplits(points[..|points| - 1], temp, node);
      Split(Conductance(last), last.tempL, temp[last.node]);
    }
  }

  lemma Split(c: real, tL: real, tR: real)
    ensures Times(c, tL - tR) == Times(c, tL) - Times(c, tR)
  {}

  /** At one node, the coefficient part is the conductance times the node's temperature. */
  lemma {:induction false} CoefficientIs(points: seq<Point>, temp: seq<real>, node: nat)
    requires GoodPoints(points, |temp|) && node < |temp|
    ensures SumOver(points, node, CoefficientTerm(temp)) == -Times(SumOver(points, node, ConductanceTerm()), temp[node])
  {
    if points != [] {
      var rest, last := points[..|points| - 1], points[|points| - 1];
      CoefficientIs(rest, temp, node);
      TimesOver(SumOver(rest, node, ConductanceTerm()), if last.node == node then Conductance(last) else 0.0,
          temp[node]);
    }
  }

  /** The same over a group whose members share the temperature. */
  lemma {:induction false} GroupBalance(points: seq<Point>, temp: seq<real>, group: seq<nat>, t: real)
    requires GoodPoints(points, |temp|) && forall m :: 0 <= m < |group| ==> group[m] < |temp| && temp[group[m]] == t
    ensures Assembled(points, group, FluxTerm(temp))
            == Assembled(points, group, ReferenceTerm()) + Assembled(points, group, CoefficientTerm(temp))
    ensures Assembled(points, group, CoefficientTerm(temp)) == -Times(Assembled(points, group, ConductanceTerm()), t)
  {
    if group != [] {
      var rest, last := group[..|group| - 1], group[|group| - 1];
      GroupBalance(points, temp, rest, t);
      FluxSplits(points, temp, last);
      CoefficientIs(points, temp, last);
      TimesOver(Assembled(points, rest, ConductanceTerm()), SumOver(points, last, ConductanceTerm()), t);
    }
  }

  /** What post_work makes of a node's sums. */
  ghost predicate Normalised(a: real, r: real, h: real, n: real, t: real, htc: real, reference: real, flux: real) {
    && a != 0.0 && t != 0.0 && htc == -h / a / t
    && a * htc != 0.0 && reference == r / (a * htc) && flux == n / a
  }

  method NormaliseNode(a: real, r: real, h: real, n: real, t: real) returns (htc: real, reference: real, flux: real)
    requires a != 0.0 && t != 0.0 && h != 0.0
    ensures Normalised(a, r, h, n, t, htc, reference, flux)
  {
    htc := -h / a / t;
    NonzeroCoefficient(h, a, t);
    reference := r / (a * htc);
    flux := n / a;
  }

  lemma NonzeroCoefficient(h: real, a: real, t: real)
    requires h != 0.0 && a != 0.0 && t != 0.0
    ensures a * (-h / a / t) != 0.0
  {
    assert a * (-h / a / t) == -h / t;
  }

  /** With K the summed conductance and H = -K t: the coefficient is K / A, the reference R / K, and the law holds. */
  lemma NewtonsLaw(a: real, r: real, h: real, n: real, t: real, k: real, htc: real, reference: real, flux: real)
    requires Normalised(a, r, h, n, t, htc, reference, flux) && k != 0.0 && h == -Times(k, t) && n == r + h
    ensures htc == k / a && reference == r / k && htc * (reference - t) == flux
  {
    assert -h == k * t;
    assert htc == k / a;
    assert a * (k / a) == k;
    assert (k / a) * (r / k) == r / a;
    assert (k / a) * t == -h / a;
  }

  /** What a point adds to the Robin coupling parameter, as written. */
  method RobinOf(p: Point, dt: real, axdx: real, aMag: real, sqrt: real -> real) returns (v: real)
    requires CanCouple(p, dt, sqrt) && axdx == Axdx(p) && aMag == sqrt(Asq(p))
    ensures v == RobinTerm(dt, sqrt)(p)
  {
    var edgeLen := axdx / aMag;
    var chi := ChiOf(p.rho, p.cp, edgeLen, p.k, dt);
    var alpha := CouplingParameter(p.k, edgeLen, chi, sqrt);
    v := alpha * aMag;
  }

  class WallFields {
    var area: seq<real>
    var referenceTemperature: seq<real>
    var heatTransferCoefficient: seq<real>
    var normalHeatFlux: seq<real>
    var robinCouplingParameter: seq<real>

    /** All fields have one value per node. */
    predicate Sized(n: nat)
      reads this
    {
      |area| == |referenceTemperature| == |heatTransferCoefficient| == |normalHeatFlux| == |robinCouplingParameter| == n
    }

    ghost predicate Sums(points: seq<Point>, temp: seq<real>, dt: real, sqrt: real -> real)
      reads this
    {
      HeatSums(points, temp, sqrt) && IsSums(robinCouplingParameter, points, RobinTerm(dt, sqrt))
    }

    ghost predicate HeatSums(points: seq<Point>, temp: seq<real>, sqrt: real -> real)
      reads this
    {
      && Sized(|temp|)
      && IsSums(area, points, AreaTerm(sqrt)) && IsSums(referenceTemperature, points, ReferenceTerm())
      && IsSums(heatTransferCoefficient, points, CoefficientTerm(temp))
          && IsSums(normalHeatFlux, points, FluxTerm(temp))
    }

    /** pre_work: zero the fields. */
    method PreWork(n: nat)
      requires Sized(n)
      modifies this
      ensures area == referenceTemperature == heatTransferCoefficient == normalHeatFlux == seq(n, _ => 0.0)
      ensures robinCouplingParameter == seq(n, _ => 0.0)
    {
      for k := 0 to n
        invariant Sized(n)
        invariant forall i :: 0 <= i < k ==>
          area[i] == referenceTemperature[i] == heatTransferCoefficient[i] == normalHeatFlux[i] ==
              robinCouplingParameter[i] == 0.0
      {
        area := area[k := 0.0];
        referenceTemperature := referenceTemperature[k := 0.0];
        heatTransferCoefficient := heatTransferCoefficient[k := 0.0];
        normalHeatFlux := normalHeatFlux[k := 0.0];
        robinCouplingParameter := robinCouplingParameter[k := 0.0];
      }
    }

    /** One face point. */
    method AddContribution(points: seq<Point>, i: nat, temp: seq<real>, dt: real, sqrt: real -> real)
      requires GoodPoints(points, |temp|) && Coupling(points, dt, sqrt) && i < |points|
      requires Sums(points[..i], temp, dt, sqrt)
      modifies this
      ensures Sums(points[..i + 1], temp, dt, sqrt)
    {
      var p := points[i];
      var axdx, asq := Geometry(p);
      var aMag := sqrt(asq);
      var robinV := RobinOf(p, dt, axdx, aMag, sqrt);
      AddPoint(robinCouplingParameter, points, i, RobinTerm(dt, sqrt), robinV);
      AddHeat(points, i, temp, axdx, asq, aMag, sqrt);
      robinCouplingParameter := robinCouplingParameter[p.node := robinCouplingParameter[p.node] + robinV];
    }

    /** What a face point adds to the area and to the heat balance of its node. */
    method AddHeat(points: seq<Point>, i: nat, temp: seq<real>, axdx: real, asq: real, aMag: real, sqrt: real -> real)
      requires GoodPoints(points, |temp|) && i < |points| && HeatSums(points[..i], temp, sqrt)
      requires axdx == Axdx(points[i]) && asq == Asq(points[i]) && aMag == sqrt(asq)
      modifies this`area, this`referenceTemperature, this`heatTransferCoefficient, this`normalHeatFlux
      ensures HeatSums(points[..i + 1], temp, sqrt)
    {
      var p := points[i];
      var invAxdx := 1.0 / axdx;
      var nonOrth := Correction(p, asq, invAxdx);
      var r, tempL, tempR := p.node, p.tempL, temp[p.node];
      PointValues(p.k, tempL, tempR, asq, invAxdx, nonOrth);
      var areaV, refV := aMag, p.k * tempL * asq * invAxdx - nonOrth;
      var htcV, fluxV := -p.k * tempR * asq * invAxdx, p.k * (tempL - tempR) * asq * invAxdx - nonOrth;
      AddPoint(area, points, i, AreaTerm(sqrt), areaV);
      AddPoint(referenceTemperature, points, i, ReferenceTerm(), refV);
      AddPoint(heatTransferCoefficient, points, i, CoefficientTerm(temp), htcV);
      AddPoint(normalHeatFlux, points, i, FluxTerm(temp), fluxV);
      area := area[r := area[r] + areaV];
      referenceTemperature := referenceTemperature[r := referenceTemperature[r] + refV];
      heatTransferCoefficient := heatTransferCoefficient[r := heatTransferCoefficient[r] + htcV];
      normalHeatFlux := normalHeatFlux[r := normalHeatFlux[r] + fluxV];
    }

    /** execute: all face points. */
    method Execute(points: seq<Point>, temp: seq<real>, dt: real, sqrt: real -> real)
      requires GoodPoints(points, |temp|) && Coupling(points, dt, sqrt) && Sums([], temp, dt, sqrt)
      modifies this
      ensures Sums(points, temp, dt, sqrt)
    {
      for i := 0 to |points|
        invariant Sums(points[..i], temp, dt, sqrt)
      {
        AddContribution(points, i, temp, dt, sqrt);
      }
      assert points[..|points|] == points;
    }

    /** parallel_sum and periodic_field_update: each field summed over the node's copies and images. */
    method Reduce(groups: seq<seq<nat>>)
      requires Sized(|area|) && GoodGroups(groups, |area|)
      modifies this
      ensures area == Reduced(old(area), groups) && referenceTemperature == Reduced(old(referenceTemperature), groups)
      ensures heatTransferCoefficient == Reduced(old(heatTransferCoefficient), groups)
      ensures normalHeatFlux == Reduced(old(normalHeatFlux), groups)
      ensures robinCouplingParameter == Reduced(old(robinCouplingParameter), groups)
    {
      area, referenceTemperature := Reduced(area, groups), Reduced(referenceTemperature, groups);
      heatTransferCoefficient, normalHeatFlux := Reduced(heatTransferCoefficient, groups),
          Reduced(normalHeatFlux, groups);
      robinCouplingParameter := Reduced(robinCouplingParameter, groups);
    }

    /** The normalisation loop of post_work. */
    method Normalise(temp: seq<real>)
      requires Sized(|temp|)
      requires forall k :: 0 <= k < |temp| ==> area[k] != 0.0 && temp[k] != 0.0 && heatTransferCoefficient[k] != 0.0
      modifies this
      ensures area == old(area) && Sized(|temp|)
      ensures forall k :: 0 <= k < |temp| ==> robinCouplingParameter[k] == old(robinCouplingParameter[k]) / area[k]
      ensures forall k :: 0 <= k < |temp| ==>
                Normalised(area[k], old(referenceTemperature[k]), old(heatTransferCoefficient[k]),
                    old(normalHeatFlux[k]),
                           temp[k], heatTransferCoefficient[k], referenceTemperature[k], normalHeatFlux[k])
    {
      ghost var r0, h0, n0, c0 := referenceTemperature, heatTransferCoefficient, normalHeatFlux, robinCouplingParameter;
      for k := 0 to |temp|
        invariant area == old(area) && Sized(|temp|)
        invariant forall i :: k <= i < |temp| ==> robinCouplingParameter[i] == c0[i]
        invariant forall i :: 0 <= i < k ==> robinCouplingParameter[i] == c0[i] / area[i]
        invariant forall i :: k <= i < |temp| ==>
                    heatTransferCoefficient[i] == h0[i] && referenceTemperature[i] == r0[i]
                        && normalHeatFlux[i] == n0[i]
        invariant forall i :: 0 <= i < k ==>
                    Normalised(area[i], r0[i], h0[i], n0[i], temp[i],
                               heatTransferCoefficient[i], referenceTemperature[i], normalHeatFlux[i])
      {
        var htc, reference, flux := NormaliseNode(area[k], referenceTemperature[k], heatTransferCoefficient[k],
                                                  normalHeatFlux[k], temp[k]);
        heatTransferCoefficient := heatTransferCoefficient[k := htc];
        referenceTemperature := referenceTemperature[k := reference];
        normalHeatFlux := normalHeatFlux[k := flux];
        robinCouplingParameter := robinCouplingParameter[k := robinCouplingParameter[k] / area[k]];
      }
    }
  }

  /** The node's copies and images share its temperature, and area, temperature and conductance are not zero. */
  ghost predicate CanCool(points: seq<Point>, temp: seq<real>, group: seq<nat>, t: real, sqrt: real -> real) {
    && (forall m :: 0 <= m < |group| ==> group[m] < |temp| && temp[group[m]] == t) && t != 0.0
    && Assembled(points, group, AreaTerm(sqrt)) != 0.0 && Assembled(points, group, ConductanceTerm()) != 0.0
  }

  /** The result at a node: conductance over area, the conductance-weighted reference, and Newton's law of cooling. */
  ghost predicate Cooled(points: seq<Point>, temp: seq<real>, group: seq<nat>, t: real, sqrt: real -> real,
                         htc: real, reference: real, flux: real)
    requires CanCool(points, temp, group, t, sqrt)
  {
    var area, k := Assembled(points, group, AreaTerm(sqrt)), Assembled(points, group, ConductanceTerm());
    && htc == k / area && reference == Assembled(points, group, ReferenceTerm()) / k
    && flux == Assembled(points, group, FluxTerm(temp)) / area && htc * (reference - t) == flux
  }

  /** The coupling parameter of a node is the mean over its points, weighted by area. */
  ghost predicate RobinMean(points: seq<Point>, group: seq<nat>, dt: real, sqrt: real -> real, robin: real) {
    var area := Assembled(points, group, AreaTerm(sqrt));
    area != 0.0 && robin == Assembled(points, group, RobinTerm(dt, sqrt)) / area
  }

  /** The four assembled sums of a node that Newton's law is about. */
  ghost predicate NodeSums(points: seq<Point>, temp: seq<real>, group: seq<nat>, sqrt: real -> real,
                           a: real, r: real, h: real, n: real) {
    && a == Assembled(points, group, AreaTerm(sqrt)) && r == Assembled(points, group, ReferenceTerm())
    && h == Assembled(points, group, CoefficientTerm(temp)) && n == Assembled(points, group, FluxTerm(temp))
  }

  /** They can be normalised, and normalised they are the node's result. */
  lemma NodeReady(points: seq<Point>, temp: seq<real>, group: seq<nat>, t: real, sqrt: real -> real,
                  a: real, r: real, h: real, n: real)
    requires GoodPoints(points, |temp|) && CanCool(points, temp, group, t, sqrt)
    requires NodeSums(points, temp, group, sqrt, a, r, h, n)
    ensures a != 0.0 && h != 0.0
  {
    GroupBalance(points, temp, group, t);
    NonzeroProduct(Assembled(points, group, ConductanceTerm()), t);
  }

  lemma NodeCooled(points: seq<Point>, temp: seq<real>, group: seq<nat>, t: real, sqrt: real -> real,
                   a: real, r: real, h: real, n: real, htc: real, reference: real, flux: real)
    requires GoodPoints(points, |temp|) && CanCool(points, temp, group, t, sqrt)
    requires NodeSums(points, temp, group, sqrt, a, r, h, n) && Normalised(a, r, h, n, t, htc, reference, flux)
    ensures Cooled(points, temp, group, t, sqrt, htc, reference, flux)
  {
    GroupBalance(points, temp, group, t);
    NewtonsLaw(a, r, h, n, t, Assembled(points, group, ConductanceTerm()), htc, reference, flux);
  }

  lemma NonzeroProduct(k: real, t: real)
    requires k != 0.0 && t != 0.0
    ensures Times(k, t) != 0.0
  {}

  /** Zero, accumulate, reduce: the fields hold every node's assembled sums. */
  method Assemble(w: WallFields, points: seq<Point>, temp: seq<real>, groups: seq<seq<nat>>, dt: real,
      sqrt: real -> real)
    requires w.Sized(|temp|) && GoodPoints(points, |temp|) && Coupling(points, dt, sqrt) && GoodGroups(groups, |temp|)
    modifies w
    ensures w.Sized(|temp|)
    ensures forall i :: 0 <= i < |temp| ==>
              w.robinCouplingParameter[i] == Assembled(points, groups[i], RobinTerm(dt, sqrt))
    ensures forall i :: 0 <= i < |temp| ==>
              NodeSums(points, temp, groups[i], sqrt, w.area[i], w.referenceTemperature[i],
                       w.heatTransferCoefficient[i], w.normalHeatFlux[i])
  {
    w.PreWork(|temp|);
    w.Execute(points, temp, dt, sqrt);
    ghost var a, r, h, n := w.area, w.referenceTemperature, w.heatTransferCoefficient, w.normalHeatFlux;
    ghost var c := w.robinCouplingParameter;
    w.Reduce(groups);
    forall i | 0 <= i < |temp|
      ensures w.robinCouplingParameter[i] == Assembled(points, groups[i], RobinTerm(dt, sqrt))
    {
      GroupOfSums(c, points, groups[i], RobinTerm(dt, sqrt));
    }
    forall i | 0 <= i < |temp|
      ensures NodeSums(points, temp, groups[i], sqrt, w.area[i], w.referenceTemperature[i],
                       w.heatTransferCoefficient[i], w.normalHeatFlux[i])
    {
      GroupOfSums(a, points, groups[i], AreaTerm(sqrt));
      GroupOfSums(r, points, groups[i], ReferenceTerm());
      GroupOfSums(h, points, groups[i], CoefficientTerm(temp));
      GroupOfSums(n, points, groups[i], FluxTerm(temp));
    }
  }

  /** The whole driver: at every node the coefficient is conductance over area, Newton's law of cooling holds between
      it, the reference temperature and the normal heat flux, and the coupling parameter is the area-weighted mean. */
  method Run(w: WallFields, points: seq<Point>, temp: seq<real>, groups: seq<seq<nat>>, dt: real, sqrt: real -> real)
    requires w.Sized(|temp|) && GoodPoints(points, |temp|) && Coupling(points, dt, sqrt) && GoodGroups(groups, |temp|)
    requires forall i :: 0 <= i < |temp| ==> CanCool(points, temp, groups[i], temp[i], sqrt)
    modifies w
    ensures w.Sized(|temp|)
    ensures forall i :: 0 <= i < |temp| ==> RobinMean(points, groups[i], dt, sqrt, w.robinCouplingParameter[i])
    ensures forall i :: 0 <= i < |temp| ==>
              Cooled(points, temp, groups[i], temp[i], sqrt,
                     w.heatTransferCoefficient[i], w.referenceTemperature[i], w.normalHeatFlux[i])
  {
    Assemble(w, points, temp, groups, dt, sqrt);
    ghost var a, r, h, n := w.area, w.referenceTemperature, w.heatTransferCoefficient, w.normalHeatFlux;
    forall i | 0 <= i < |temp| ensures w.area[i] != 0.0 && w.heatTransferCoefficient[i] != 0.0 {
      NodeReady(points, temp, groups[i], temp[i], sqrt, a[i], r[i], h[i], n[i]);
    }
    w.Normalise(temp);
    forall i | 0 <= i < |temp|
      ensures Cooled(points, temp, groups[i], temp[i], sqrt,
                     w.heatTransferCoefficient[i], w.referenceTemperature[i], w.normalHeatFlux[i])
    {
      NodeCooled(points, temp, groups[i], temp[i], sqrt, a[i], r[i], h[i], n[i],
                 w.heatTransferCoefficient[i], w.referenceTemperature[i], w.normalHeatFlux[i]);
    }
  }

  /** An orthogonal point with positive conductivity, outward area and an opposing temperature between lo and hi. */
  ghost predicate Plain(p: Point, lo: real, hi: real) {
    Orthogonal(p) && p.k > 0.0 && Axdx(p) > 0.0 && lo <= p.tempL <= hi
  }

  lemma {:induction false} DotSquare(a: seq<real>, n: nat)
    requires n <= |a|
    ensures DotUpTo(a, a, n) >= 0.0
  {
    if n > 0 {
      DotSquare(a, n - 1);
      SqNonnegative(a[n - 1]);
      assert Sq(a[n - 1]) == a[n - 1] * a[n - 1];
    }
  }

  lemma PointBounds(p: Point, lo: real, hi: real)
    requires Plain(p, lo, hi)
    ensures Conductance(p) >= 0.0
    ensures Times(Conductance(p), lo) <= ReferenceTerm()(p) <= Times(Conductance(p), hi)
  {
    NoCorrection(p, |p.a|);
    DotSquare(p.a, |p.a|);
    NonnegativeConductance(p.k, Asq(p), Axdx(p));
    ProductBounds(Conductance(p), lo, p.tempL, hi);
  }

  lemma NonnegativeConductance(k: real, s: real, x: real)
    requires k > 0.0 && s >= 0.0 && x > 0.0
    ensures k * (s * (1.0 / x)) >= 0.0
  {
    var inv := 1.0 / x;
    assert inv > 0.0;
    MulNonnegative(s, inv);
    MulNonnegative(k, s * inv);
  }

  lemma ProductBounds(c: real, lo: real, t: real, hi: real)
    requires c >= 0.0 && lo <= t <= hi
    ensures Times(c, lo) <= Times(c, t) <= Times(c, hi)
  {
    MulNonnegative(c, t - lo);
    MulNonnegative(c, hi - t);
    assert c * (t - lo) == c * t - Times(c, lo) && c * (hi - t) == Times(c, hi) - c * t;
  }

  lemma {:induction false} NodeBounds(points: seq<Point>, node: nat, lo: real, hi: real)
    requires forall i :: 0 <= i < |points| && points[i].node == node ==> Plain(points[i], lo, hi)
    ensures var k, r := SumOver(points, node, ConductanceTerm()), SumOver(points, node, ReferenceTerm());
      k >= 0.0 && Times(k, lo) <= r <= Times(k, hi)
  {
    if points != [] {
      var rest, last := points[..|points| - 1], points[|points| - 1];
      NodeBounds(rest, node, lo, hi);
      if last.node == node {
        PointBounds(last, lo, hi);
        var k := SumOver(rest, node, ConductanceTerm());
        TimesOver(k, Conductance(last), lo);
        TimesOver(k, Conductance(last), hi);
      }
    }
  }

  lemma {:induction false} GroupBounds(points: seq<Point>, group: seq<nat>, lo: real, hi: real)
    requires forall i :: 0 <= i < |points| && points[i].node in group ==> Plain(points[i], lo, hi)
    ensures var k, r := Assembled(points, group, ConductanceTerm()), Assembled(points, group, ReferenceTerm());
      k >= 0.0 && Times(k, lo) <= r <= Times(k, hi)
  {
    if group != [] {
      var rest, last := group[..|group| - 1], group[|group| - 1];
      GroupBounds(points, rest, lo, hi);
      NodeBounds(points, last, lo, hi);
      var k, c := Assembled(points, rest, ConductanceTerm()), SumOver(points, last, ConductanceTerm());
      TimesOver(k, c, lo);
      TimesOver(k, c, hi);
    }
  }

  /** On an orthogonal mesh the reference temperature lies between the least and the greatest temperature opposite the
      node's points. */
  lemma ReferenceBetween(points: seq<Point>, temp: seq<real>, group: seq<nat>, t: real, sqrt: real -> real,
                         htc: real, reference: real, flux: real, lo: real, hi: real)
    requires CanCool(points, temp, group, t, sqrt) && Cooled(points, temp, group, t, sqrt, htc, reference, flux)
    requires forall i :: 0 <= i < |points| && points[i].node in group ==> Plain(points[i], lo, hi)
    ensures lo <= reference <= hi
  {
    GroupBounds(points, group, lo, hi);
    QuotientBounds(Assembled(points, group, ConductanceTerm()), Assembled(points, group, ReferenceTerm()), lo, hi);
  }

  lemma QuotientBounds(k: real, r: real, lo: real, hi: real)
    requires k > 0.0 && Times(k, lo) <= r <= Times(k, hi)
    ensures lo <= r / k <= hi
  {
    var x := r / k;
    assert k * x == r;
    if x < lo { MulPositive(k, lo - x); }
    if x > hi { MulPositive(k, x - hi); }
  }

  // ----- the coupling parameter lies between the parameters of its points

  /** A point that can be coupled, by a parameter between lo and hi. */
  predicate CoupledBetween(p: Point, dt: real, sqrt: real -> real, lo: real, hi: real) {
    CanCouple(p, dt, sqrt) && sqrt(Asq(p)) >= 0.0 && lo <= Alpha(p, dt, sqrt) <= hi
  }

  lemma {:induction false} NodeRobinBounds(points: seq<Point>, node: nat, dt: real, sqrt: real -> real, lo: real,
      hi: real)
    requires forall i :: 0 <= i < |points| && points[i].node == node ==> CoupledBetween(points[i], dt, sqrt, lo, hi)
    ensures var a, r := SumOver(points, node, AreaTerm(sqrt)), SumOver(points, node, RobinTerm(dt, sqrt));
      a >= 0.0 && Times(a, lo) <= r <= Times(a, hi)
  {
    if points != [] {
      var rest, last := points[..|points| - 1], points[|points| - 1];
      NodeRobinBounds(rest, node, dt, sqrt, lo, hi);
      if last.node == node {
        var m := sqrt(Asq(last));
        ProductBounds(m, lo, Alpha(last, dt, sqrt), hi);
        TimesComm(m, Alpha(last, dt, sqrt));
        var a := SumOver(rest, node, AreaTerm(sqrt));
        TimesOver(a, m, lo);
        TimesOver(a, m, hi);
      }
    }
  }

  lemma TimesComm(a: real, b: real)
    ensures Times(a, b) == Times(b, a)
  {}

  lemma {:induction false} GroupRobinBounds(points: seq<Point>, group: seq<nat>, dt: real, sqrt: real -> real, lo: real,
      hi: real)
    requires forall i :: 0 <= i < |points| && points[i].node in group ==> CoupledBetween(points[i], dt, sqrt, lo, hi)
    ensures var a, r := Assembled(points, group, AreaTerm(sqrt)), Assembled(points, group, RobinTerm(dt, sqrt));
      a >= 0.0 && Times(a, lo) <= r <= Times(a, hi)
  {
    if group != [] {
      var rest, last := group[..|group| - 1], group[|group| - 1];
      GroupRobinBounds(points, rest, dt, sqrt, lo, hi);
      NodeRobinBounds(points, last, dt, sqrt, lo, hi);
      var a, c := Assembled(points, rest, AreaTerm(sqrt)), SumOver(points, last, AreaTerm(sqrt));
      TimesOver(a, c, lo);
      TimesOver(a, c, hi);
    }
  }

  lemma RobinBetween(points: seq<Point>, group: seq<nat>, dt: real, sqrt: real -> real, robin: real, lo: real, hi: real)
    requires RobinMean(points, group, dt, sqrt, robin)
    requires forall i :: 0 <= i < |points| && points[i].node in group ==> CoupledBetween(points[i], dt, sqrt, lo, hi)
    ensures lo <= robin <= hi
  {
    GroupRobinBounds(points, group, dt, sqrt, lo, hi);
    QuotientBounds(Assembled(points, group, AreaTerm(sqrt)), Assembled(points, group, RobinTerm(dt, sqrt)), lo, hi);
  }
}
