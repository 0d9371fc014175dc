/** The loops of the scalar non-conformal assembly, into the flat left- and right-hand side arrays. */
module NonConformalAssembly {
  import opened Arithmetic
  import opened Reals
  import opened FlatIndex
  import opened Sums
  import opened SimdLanes
  import opened SimdPipeline
  import opened ScalarNonConformal

  /** The diffusive flux loops of one side, before the coefficient. */
  method DiffusiveFlux(s: Side, q: seq<real>, off: nat) returns (flux: real)
    requires GoodSide(s) && off + s.nodes <= |q|
    ensures flux == -GradientUpTo(s, q, off, s.nodes)
  {
    flux := 0.0;
    for ic := 0 to s.nodes
      invariant flux == -GradientUpTo(s, q, off, ic)
    {
      ghost var before := flux;
      var scalarQ := q[off + ic];
      for j := 0 to |s.normal|
        invariant flux == before - Times(DotUpTo(s.dndx[ic], s.normal, j), scalarQ)
      {
        flux := flux - s.dndx[ic][j] * s.normal[j] * scalarQ;
        FluxTerm(DotUpTo(s.dndx[ic], s.normal, j), s.dndx[ic][j], s.normal[j], scalarQ);
      }
    }
  }

  lemma FluxTerm(d: real, g: real, n: real, q: real)
    ensures Times(d + Times(g, n), q) == Times(d, q) + g * n * q
  {}

  /** The normal gradient of one node: the inner loop of the sensitivities, which counts it negative. */
  method NormalGradient(s: Side, ic: nat) returns (lhscd: real)
    requires GoodSide(s) && ic < s.nodes
    ensures lhscd == -Along(s, ic)
  {
    lhscd := 0.0;
    for j := 0 to |s.normal|
      invariant lhscd == -DotUpTo(s.dndx[ic], s.normal, j)
    {
      lhscd := lhscd - s.dndx[ic][j] * s.normal[j];
    }
  }

  /** The inverse length loops over the face nodes. */
  method InverseLength(s: Side) returns (inverse: real)
    requires GoodSide(s)
    ensures inverse == InverseLengthUpTo(s, |s.ords|)
  {
    inverse := 0.0;
    for ic := 0 to |s.ords|
      invariant inverse == InverseLengthUpTo(s, ic)
    {
      ghost var before := inverse;
      var node := s.ords[ic];
      for j := 0 to |s.normal|
        invariant inverse == before + DotUpTo(s.dndx[node], s.normal, j)
      {
        inverse := inverse + s.dndx[node][j] * s.normal[j];
      }
    }
  }

  /** Only the row from rowR on is not zero, and it holds `row`. */
  ghost predicate RowIs(lhs: seq<real>, rowR: nat, row: seq<real>) {
    && rowR + |row| <= |lhs| && (forall k :: rowR <= k < rowR + |row| ==> lhs[k] == row[k - rowR])
    && forall k :: 0 <= k < |lhs| && !(rowR <= k < rowR + |row|) ==> lhs[k] == 0.0
  }

  method AddTo(lhs: array<real>, rowR: nat, col: nat, v: real, ghost row: seq<real>)
    requires RowIs(lhs[..], rowR, row) && col < |row|
    modifies lhs
    ensures RowIs(lhs[..], rowR, row[col := row[col] + v])
  {
    lhs[rowR + col] := lhs[rowR + col] + v;
  }

  /** Sensitivities of one face: penalty and advection. */
  method FaceSensitivities(lhs: array<real>, rowR: nat, s: Side, off: nat, factor: real, ghost row: seq<real>)
    requires GoodSide(s) && off + s.nodes <= |row| && RowIs(lhs[..], rowR, row)
    modifies lhs
    ensures RowIs(lhs[..], rowR, AddFace(row, s, off, factor, |s.ords|))
  {
    for ic := 0 to |s.ords|
      invariant RowIs(lhs[..], rowR, AddFace(row, s, off, factor, ic))
    {
      AddTo(lhs, rowR, off + s.ords[ic], Times(s.shape[ic], factor), AddFace(row, s, off, factor, ic));
    }
  }

  /** Sensitivities of one element: diffusion. */
  method ElementSensitivities(lhs: array<real>, rowR: nat, s: Side, off: nat, factor: real, ghost row: seq<real>)
    requires GoodSide(s) && off + s.nodes <= |row| && RowIs(lhs[..], rowR, row)
    modifies lhs
    ensures RowIs(lhs[..], rowR, AddElement(row, s, off, factor, s.nodes))
  {
    for ic := 0 to s.nodes
      invariant RowIs(lhs[..], rowR, AddElement(row, s, off, factor, ic))
    {
      var lhscd := NormalGradient(s, ic);
      var v := Times(lhscd, factor);
      assert v == -Times(Along(s, ic), factor);
      ghost var now := AddElement(row, s, off, factor, ic);
      AddTo(lhs, rowR, off + ic, v, now);
      assert now[off + ic] + v == now[off + ic] - Times(Along(s, ic), factor);
    }
  }

  /** Zero, residual and sensitivities: the whole row and the residual of the nearest node, nothing else. */
  method AssemblePoint(p: IntegrationPoint, q: seq<real>, lhs: array<real>, rhs: array<real>, rowR: nat)
    requires GoodPoint(p) && |q| == TotalNodes(p) == rhs.Length && lhs != rhs && rowR + TotalNodes(p) <= lhs.Length
    modifies lhs, rhs
    ensures RowIs(lhs[..], rowR, FullRow(p))
    ensures rhs[..] == Zeros(TotalNodes(p))[p.nn := Residual(p, q)]
  {
    var residual, penalty := FormResidual(p, q);
    ZeroOut(lhs);
    assert lhs[..] == Zeros(lhs.Length);
    ZeroOut(rhs);
    assert rhs[..] == Zeros(rhs.Length);
    rhs[p.nn] := rhs[p.nn] + residual;
    Sensitivities(p, lhs, rowR, penalty);
  }

  /** Fluxes, inverse lengths, interpolated values, penalty, and the residual they form. */
  method FormResidual(p: IntegrationPoint, q: seq<real>) returns (residual: real, penalty: real)
    requires GoodPoint(p) && |q| == TotalNodes(p)
    ensures residual == Residual(p, q) && penalty == Penalty(p)
  {
    var nc := p.c.nodes;
    var currentDiffFlux := DiffusiveFlux(p.c, q, 0);
    var opposingDiffFlux := DiffusiveFlux(p.o, q, nc);
    var qC, qO := InterpUpTo(p.c, q, 0, |p.c.ords|), InterpUpTo(p.o, q, nc, |p.o.ords|);
    penalty := ComputePenalty(p);
    var gC, gO := -currentDiffFlux, -opposingDiffFlux;
    residual := Combine(p, qC, qO, gC, gO, penalty);
  }

  method ComputePenalty(p: IntegrationPoint) returns (penalty: real)
    requires GoodPoint(p)
    ensures penalty == Penalty(p)
  {
    var currentInverseLength := InverseLength(p.c);
    var opposingInverseLength := InverseLength(p.o);
    penalty := (p.c.coeff * currentInverseLength + p.o.coeff * opposingInverseLength) / 2.0;
  }

  method Combine(p: IntegrationPoint, qC: real, qO: real, gC: real, gO: real, penalty: real) returns (residual: real)
    ensures residual == ResidualOf(p, qC, qO, gC, gO, penalty)
  {
    var currentDiffFlux, opposingDiffFlux := -gC * p.c.coeff, -gO * p.o.coeff;
    var ncDiffFlux := (currentDiffFlux - opposingDiffFlux) / 2.0;
    var ncAdv := p.tmdot * (qC + qO) / 2.0 + p.eta * Abs(p.tmdot) * (qC - qO) / 2.0;
    residual := -((ncDiffFlux + penalty * (qC - qO)) * p.amag + ncAdv);
  }

  method Sensitivities(p: IntegrationPoint, lhs: array<real>, rowR: nat, penalty: real)
    requires GoodPoint(p) && penalty == Penalty(p) && lhs[..] == Zeros(lhs.Length) && rowR + TotalNodes(p) <= lhs.Length
    modifies lhs
    ensures RowIs(lhs[..], rowR, FullRow(p))
  {
    var nc := p.c.nodes;
    var lhsFacC, lhsFacO := FaceFactorC(p, penalty), FaceFactorO(p, penalty);
    var diffC, diffO := DiffusionFactor(p, p.c), DiffusionFactor(p, p.o);
    ghost var r := Zeros(TotalNodes(p));
    FaceSensitivities(lhs, rowR, p.c, 0, lhsFacC, r);
    r := AddFace(r, p.c, 0, lhsFacC, |p.c.ords|);
    ElementSensitivities(lhs, rowR, p.c, 0, diffC, r);
    r := AddElement(r, p.c, 0, diffC, nc);
    FaceSensitivities(lhs, rowR, p.o, nc, -lhsFacO, r);
    r := AddFace(r, p.o, nc, -lhsFacO, |p.o.ords|);
    ElementSensitivities(lhs, rowR, p.o, nc, -diffO, r);
  }

  /** The point as it is applied: assembled, then the diagonal relaxed. */
  method ExecutePoint(p: IntegrationPoint, q: seq<real>, relaxFac: real, lhs: array<real>, rhs: array<real>)
    returns (ghost unrelaxed: seq<real>)
    requires GoodPoint(p) && |q| == TotalNodes(p) == rhs.Length && lhs != rhs && relaxFac != 0.0
    requires lhs.Length == TotalNodes(p) * TotalNodes(p)
    modifies lhs, rhs
    ensures RowIs(unrelaxed, p.nn * TotalNodes(p), FullRow(p)) && lhs[..] == Relaxed(unrelaxed, TotalNodes(p), relaxFac)
    ensures rhs[..] == Zeros(TotalNodes(p))[p.nn := -DotUpTo(FullRow(p), q, |q|)]
  {
    var totalNodes := TotalNodes(p);
    RowFits(totalNodes, p.nn);
    AssemblePoint(p, q, lhs, rhs, p.nn * totalNodes);
    ResidualIsRow(p, q);
    unrelaxed := lhs[..];
    RelaxDiagonal(lhs, totalNodes, relaxFac);
  }

  lemma RowFits(n: nat, r: nat)
    requires r < n
    ensures r * n + n <= n * n
  {
    TimesOrder(n, r + 1, n);
    assert n * (r + 1) == r * n + n;
  }
}
