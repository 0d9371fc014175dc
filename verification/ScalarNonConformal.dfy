/** The scalar non-conformal (mesh-to-mesh) assembly at one integration point: residual, sensitivities, relaxation. */
module ScalarNonConformal {
  import opened Reals
  import opened Sums
  import opened SimdLanes

  /** One side of the interface: nodes of the element, the element nodes on the face with their shape functions, shape
      function gradients (node by node), unit normal, and the interpolated diffusive flux coefficient. */
  datatype Side = Side(nodes: nat, ords: seq<nat>, shape: seq<real>, dndx: seq<seq<real>>, normal: seq<real>,
      coeff: real)

  predicate GoodSide(s: Side) {
    && |s.ords| == |s.shape| && (forall i :: 0 <= i < |s.ords| ==> s.ords[i] < s.nodes)
    && |s.dndx| == s.nodes && forall ic :: 0 <= ic < s.nodes ==> |s.dndx[ic]| == |s.normal|
  }

  /** The gradient of one node's shape function along the normal. */
  function Along(s: Side, ic: nat): real
    requires GoodSide(s) && ic < s.nodes
  {
    DotUpTo(s.dndx[ic], s.normal, |s.normal|)
  }

  /** Sum over the first n nodes of the normal gradient times the nodal value. */
  function GradientUpTo(s: Side, q: seq<real>, off: nat, n: nat): real
    requires GoodSide(s) && n <= s.nodes && off + s.nodes <= |q|
  {
    if n == 0 then 0.0 else GradientUpTo(s, q, off, n - 1) + Times(Along(s, n - 1), q[off + (n - 1)])
  }

  /** Interpolation to the integration point over the first n face nodes. */
  function InterpUpTo(s: Side, q: seq<real>, off: nat, n: nat): real
    requires GoodSide(s) && n <= |s.ords| && off + s.nodes <= |q|
  {
    if n == 0 then 0.0 else InterpUpTo(s, q, off, n - 1) + Times(s.shape[n - 1], q[off + s.ords[n - 1]])
  }

  function InverseLengthUpTo(s: Side, n: nat): real
    requires GoodSide(s) && n <= |s.ords|
  {
    if n == 0 then 0.0 else InverseLengthUpTo(s, n - 1) + Along(s, s.ords[n - 1])
  }

  /** The point: both sides, face area, mass flow, upwinding factor, and the row (nearest node) it assembles to. */
  datatype IntegrationPoint = IntegrationPoint(c: Side, o: Side, amag: real, tmdot: real, eta: real, nn: nat)

  ghost predicate GoodPoint(p: IntegrationPoint) {
    GoodSide(p.c) && GoodSide(p.o) && p.nn < p.c.nodes + p.o.nodes
  }

  function Penalty(p: IntegrationPoint): real
    requires GoodSide(p.c) && GoodSide(p.o)
  {
    PenaltyOf(p.c.coeff, InverseLengthUpTo(p.c, |p.c.ords|), p.o.coeff, InverseLengthUpTo(p.o, |p.o.ords|))
  }

  function PenaltyOf(coeffC: real, inverseC: real, coeffO: real, inverseO: real): real {
    (coeffC * inverseC + coeffO * inverseO) / 2.0
  }

  /** What multiplies the interpolated value of the current and of the opposing side in the residual. */
  function FaceFactorC(p: IntegrationPoint, penalty: real): real {
    penalty * p.amag + (p.eta * Abs(p.tmdot) + p.tmdot) / 2.0
  }

  function FaceFactorO(p: IntegrationPoint, penalty: real): real {
    penalty * p.amag + (p.eta * Abs(p.tmdot) - p.tmdot) / 2.0
  }

  function DiffusionFactor(p: IntegrationPoint, s: Side): real { s.coeff * p.amag / 2.0 }

  /** The sensitivity row after the first n face nodes: scatter of factor times shape function. */
  ghost function AddFace(row: seq<real>, s: Side, off: nat, factor: real, n: nat): (r: seq<real>)
    requires GoodSide(s) && n <= |s.ords| && off + s.nodes <= |row|
    ensures |r| == |row|
  {
    if n == 0 then row
    else
      var r := AddFace(row, s, off, factor, n - 1);
      r[off + s.ords[n - 1] := r[off + s.ords[n - 1]] + Times(s.shape[n - 1], factor)]
  }

  /** The sensitivity row after the first n element nodes of the diffusion term. */
  ghost function AddElement(row: seq<real>, s: Side, off: nat, factor: real, n: nat): (r: seq<real>)
    requires GoodSide(s) && n <= s.nodes && off + s.nodes <= |row|
    ensures |r| == |row|
  {
    if n == 0 then row
    else
      var r := AddElement(row, s, off, factor, n - 1);
      r[off + (n - 1) := r[off + (n - 1)] - Times(Along(s, n - 1), factor)]
  }

  lemma {:induction false} FaceDot(row: seq<real>, s: Side, off: nat, factor: real, n: nat, q: seq<real>)
    requires GoodSide(s) && n <= |s.ords| && off + s.nodes <= |row| == |q|
    ensures DotUpTo(AddFace(row, s, off, factor, n), q, |q|) ==
      DotUpTo(row, q, |q|) + Times(InterpUpTo(s, q, off, n), factor)
  {
    if n > 0 {
      FaceDot(row, s, off, factor, n - 1, q);
      var i, v := off + s.ords[n - 1], Times(s.shape[n - 1], factor);
      DotUpdate(AddFace(row, s, off, factor, n - 1), q, |q|, i, v);
      TimesStep(InterpUpTo(s, q, off, n - 1), s.shape[n - 1], q[i], factor);
    }
  }

  lemma TimesStep(a: real, b: real, x: real, f: real)
    ensures Times(a + Times(b, x), f) == Times(a, f) + Times(Times(b, f), x)
  {}

  lemma ElementTerm(a: real, b: real, x: real, f: real, r: real, v: real)
    requires v == -Times(b, f)
    ensures r + v == r - Times(b, f) && Times(a + Times(b, x), f) == Times(a, f) - Times(v, x)
  {
    TimesStep(a, b, x, f);
    assert v * x == -(Times(b, f) * x);
  }

  lemma {:induction false} ElementDot(row: seq<real>, s: Side, off: nat, factor: real, n: nat, q: seq<real>)
    requires GoodSide(s) && n <= s.nodes && off + s.nodes <= |row| == |q|
    ensures DotUpTo(AddElement(row, s, off, factor, n), q, |q|)
            == DotUpTo(row, q, |q|) - Times(GradientUpTo(s, q, off, n), factor)
  {
    if n > 0 {
      ElementDot(row, s, off, factor, n - 1, q);
      var r, i, v := AddElement(row, s, off, factor, n - 1), off + (n - 1), -Times(Along(s, n - 1), factor);
      DotUpdate(r, q, |q|, i, v);
      ElementTerm(GradientUpTo(s, q, off, n - 1), Along(s, n - 1), q[i], factor, r[i], v);
    }
  }

  function TotalNodes(p: IntegrationPoint): nat { p.c.nodes + p.o.nodes }

  /** The row that the four sensitivity loops build from their factors. */
  ghost function BuildRow(p: IntegrationPoint, faceC: real, diffC: real, faceO: real, diffO: real): (r: seq<real>)
    requires GoodPoint(p)
    ensures |r| == TotalNodes(p)
  {
    var r0 := AddFace(Zeros(TotalNodes(p)), p.c, 0, faceC, |p.c.ords|);
    var r1 := AddElement(r0, p.c, 0, diffC, p.c.nodes);
    var r2 := AddFace(r1, p.o, p.c.nodes, -faceO, |p.o.ords|);
    AddElement(r2, p.o, p.c.nodes, -diffO, p.o.nodes)
  }

  /** The row of sensitivities: it does not depend on the field. */
  ghost function FullRow(p: IntegrationPoint): (r: seq<real>)
    requires GoodPoint(p)
    ensures |r| == TotalNodes(p)
  {
    BuildRow(p, FaceFactorC(p, Penalty(p)), DiffusionFactor(p, p.c), FaceFactorO(p, Penalty(p)),
        DiffusionFactor(p, p.o))
  }

  /** The residual from the interpolated values, the gradients, and the penalty. */
  function ResidualOf(p: IntegrationPoint, qC: real, qO: real, gC: real, gO: real, penalty: real): real {
    var ncDiffFlux := (-gC * p.c.coeff - -gO * p.o.coeff) / 2.0;
    var ncAdv := p.tmdot * (qC + qO) / 2.0 + p.eta * Abs(p.tmdot) * (qC - qO) / 2.0;
    -((ncDiffFlux + penalty * (qC - qO)) * p.amag + ncAdv)
  }

  function Residual(p: IntegrationPoint, q: seq<real>): real
    requires GoodSide(p.c) && GoodSide(p.o) && |q| == TotalNodes(p)
  {
    ResidualOf(p, InterpUpTo(p.c, q, 0, |p.c.ords|), InterpUpTo(p.o, q, p.c.nodes, |p.o.ords|),
               GradientUpTo(p.c, q, 0, p.c.nodes), GradientUpTo(p.o, q, p.c.nodes, p.o.nodes), Penalty(p))
  }

  lemma ResidualAlgebra(p: IntegrationPoint, qC: real, qO: real, gC: real, gO: real, penalty: real)
    ensures ResidualOf(p, qC, qO, gC, gO, penalty)
            == -(Times(qC, FaceFactorC(p, penalty)) - Times(gC, DiffusionFactor(p, p.c))
                 + Times(qO, -FaceFactorO(p, penalty)) - Times(gO, -DiffusionFactor(p, p.o)))
  {}

  lemma {:induction false} DotZeros(n: nat, m: nat, q: seq<real>)
    requires m <= n && m <= |q|
    ensures DotUpTo(Zeros(n), q, m) == 0.0
  {
    if m > 0 { DotZeros(n, m - 1, q); }
  }

  lemma RowDot(p: IntegrationPoint, q: seq<real>, faceC: real, diffC: real, faceO: real, diffO: real)
    requires GoodPoint(p) && |q| == TotalNodes(p)
    ensures DotUpTo(BuildRow(p, faceC, diffC, faceO, diffO), q, |q|)
            == Times(InterpUpTo(p.c, q, 0, |p.c.ords|), faceC) - Times(GradientUpTo(p.c, q, 0, p.c.nodes), diffC)
               + Times(InterpUpTo(p.o, q, p.c.nodes, |p.o.ords|), -faceO)
               - Times(GradientUpTo(p.o, q, p.c.nodes, p.o.nodes), -diffO)
  {
    var n := TotalNodes(p);
    var r0 := AddFace(Zeros(n), p.c, 0, faceC, |p.c.ords|);
    var r1 := AddElement(r0, p.c, 0, diffC, p.c.nodes);
    var r2 := AddFace(r1, p.o, p.c.nodes, -faceO, |p.o.ords|);
    DotZeros(n, n, q);
    FaceDot(Zeros(n), p.c, 0, faceC, |p.c.ords|, q);
    ElementDot(r0, p.c, 0, diffC, p.c.nodes, q);
    FaceDot(r1, p.o, p.c.nodes, -faceO, |p.o.ords|, q);
    ElementDot(r2, p.o, p.c.nodes, -diffO, p.o.nodes, q);
  }

  /** The residual is exactly minus the assembled row applied to the field. */
  lemma ResidualIsRow(p: IntegrationPoint, q: seq<real>)
    requires GoodPoint(p) && |q| == TotalNodes(p)
    ensures Residual(p, q) == -DotUpTo(FullRow(p), q, |q|)
  {
    RowDot(p, q, FaceFactorC(p, Penalty(p)), DiffusionFactor(p, p.c), FaceFactorO(p, Penalty(p)),
        DiffusionFactor(p, p.o));
    ResidualAlgebra(p, InterpUpTo(p.c, q, 0, |p.c.ords|), InterpUpTo(p.o, q, p.c.nodes, |p.o.ords|),
                    GradientUpTo(p.c, q, 0, p.c.nodes), GradientUpTo(p.o, q, p.c.nodes, p.o.nodes), Penalty(p));
  }

  function Plus(q: seq<real>, d: seq<real>): seq<real>
    requires |q| == |d|
  {
    seq(|q|, i requires 0 <= i < |q| => q[i] + d[i])
  }

  lemma {:induction false} DotPlus(a: seq<real>, q: seq<real>, d: seq<real>, n: nat)
    requires |q| == |d| && n <= |a| && n <= |q|
    ensures DotUpTo(a, Plus(q, d), n) == DotUpTo(a, q, n) + DotUpTo(a, d, n)
  {
    if n > 0 {
      DotPlus(a, q, d, n - 1);
      assert Times(a[n - 1], q[n - 1] + d[n - 1]) == Times(a[n - 1], q[n - 1]) + Times(a[n - 1], d[n - 1]);
    }
  }

  /** The row is the exact Jacobian: any change d of the field changes the residual by minus the row applied to d. */
  lemma Jacobian(p: IntegrationPoint, q: seq<real>, d: seq<real>)
    requires GoodPoint(p) && |q| == |d| == TotalNodes(p)
    ensures Residual(p, Plus(q, d)) == Residual(p, q) - DotUpTo(FullRow(p), d, |d|)
  {
    ResidualIsRow(p, q);
    ResidualIsRow(p, Plus(q, d));
    DotPlus(FullRow(p), q, d, |q|);
  }

  /** Shape functions sum to one, gradients along the normal to zero. */
  ghost predicate Consistent(s: Side)
    requires GoodSide(s)
  {
    Sum(s.shape) == 1.0 && AlongSum(s, s.nodes) == 0.0
  }

  function AlongSum(s: Side, n: nat): real
    requires GoodSide(s) && n <= s.nodes
  {
    if n == 0 then 0.0 else AlongSum(s, n - 1) + Along(s, n - 1)
  }

  lemma {:induction false} ConstantInterp(s: Side, q: seq<real>, off: nat, n: nat, v: real)
    requires GoodSide(s) && n <= |s.ords| && off + s.nodes <= |q| && forall i :: off <= i < off + s.nodes ==> q[i] == v
    ensures InterpUpTo(s, q, off, n) == Times(Sum(s.shape[..n]), v)
  {
    if n > 0 {
      ConstantInterp(s, q, off, n - 1, v);
      assert s.shape[..n] == s.shape[..n - 1] + [s.shape[n - 1]];
      SumAppend(s.shape[..n - 1], s.shape[n - 1]);
      TimesOver(Sum(s.shape[..n - 1]), s.shape[n - 1], v);
    }
  }

  lemma {:induction false} ConstantGradient(s: Side, q: seq<real>, off: nat, n: nat, v: real)
    requires GoodSide(s) && n <= s.nodes && off + s.nodes <= |q| && forall i :: off <= i < off + s.nodes ==> q[i] == v
    ensures GradientUpTo(s, q, off, n) == Times(AlongSum(s, n), v)
  {
    if n > 0 {
      ConstantGradient(s, q, off, n - 1, v);
      TimesOver(AlongSum(s, n - 1), Along(s, n - 1), v);
    }
  }

  /** A constant field leaves only the mass flow carrying it. */
  lemma ConstantResidual(p: IntegrationPoint, q: seq<real>, v: real)
    requires GoodPoint(p) && |q| == TotalNodes(p) && Consistent(p.c) && Consistent(p.o)
    requires forall i :: 0 <= i < |q| ==> q[i] == v
    ensures Residual(p, q) == -(p.tmdot * v)
  {
    ConstantInterp(p.c, q, 0, |p.c.ords|, v);
    ConstantInterp(p.o, q, p.c.nodes, |p.o.ords|, v);
    ConstantGradient(p.c, q, 0, p.c.nodes, v);
    ConstantGradient(p.o, q, p.c.nodes, p.o.nodes, v);
    assert p.c.shape[..|p.c.ords|] == p.c.shape && p.o.shape[..|p.o.ords|] == p.o.shape;
    ConstantAlgebra(p, Penalty(p), v);
  }

  lemma ConstantAlgebra(p: IntegrationPoint, penalty: real, v: real)
    ensures ResidualOf(p, Times(1.0, v), Times(1.0, v), Times(0.0, v), Times(0.0, v), penalty) == -(p.tmdot * v)
  {}

  /** The same point seen from the other side: sides and nodal values swap and the mass flow changes sign. */
  function Swapped(p: IntegrationPoint, nn: nat): IntegrationPoint { p.(c := p.o, o := p.c, tmdot := -p.tmdot,
      nn := nn) }

  function SwapNodes(q: seq<real>, nc: nat): seq<real>
    requires nc <= |q|
  {
    q[nc..] + q[..nc]
  }

  lemma SameValue(q: seq<real>, off: nat, q': seq<real>, off': nat, n: nat, i: nat)
    requires off + n <= |q| && off' + n <= |q'| && q[off..off + n] == q'[off'..off' + n] && i < n
    ensures q[off + i] == q'[off' + i]
  {
    assert q[off..off + n][i] == q'[off'..off' + n][i];
  }

  lemma {:induction false} SameInterp(s: Side, q: seq<real>, off: nat, q': seq<real>, off': nat, n: nat)
    requires GoodSide(s) && n <= |s.ords| && off + s.nodes <= |q| && off' + s.nodes <= |q'|
    requires q[off..off + s.nodes] == q'[off'..off' + s.nodes]
    ensures InterpUpTo(s, q, off, n) == InterpUpTo(s, q', off', n)
  {
    if n > 0 {
      SameInterp(s, q, off, q', off', n - 1);
      SameValue(q, off, q', off', s.nodes, s.ords[n - 1]);
    }
  }

  lemma {:induction false} SameGradient(s: Side, q: seq<real>, off: nat, q': seq<real>, off': nat, n: nat)
    requires GoodSide(s) && n <= s.nodes && off + s.nodes <= |q| && off' + s.nodes <= |q'|
    requires q[off..off + s.nodes] == q'[off'..off' + s.nodes]
    ensures GradientUpTo(s, q, off, n) == GradientUpTo(s, q', off', n)
  {
    if n > 0 {
      SameGradient(s, q, off, q', off', n - 1);
      SameValue(q, off, q', off', s.nodes, n - 1);
    }
  }

  lemma SwapAlgebra(p: IntegrationPoint, nn: nat, qC: real, qO: real, gC: real, gO: real, penalty: real)
    ensures ResidualOf(Swapped(p, nn), qO, qC, gO, gC, penalty) == -ResidualOf(p, qC, qO, gC, gO, penalty)
  {
    assert Abs(-p.tmdot) == Abs(p.tmdot);
  }

  /** What one side gains at a point, the other side loses, for every field, upwinding factor and mass flow. */
  lemma InterfaceConserves(p: IntegrationPoint, q: seq<real>, nn: nat)
    requires GoodPoint(p) && |q| == TotalNodes(p) && nn < TotalNodes(p)
    ensures Residual(Swapped(p, nn), SwapNodes(q, p.c.nodes)) == -Residual(p, q)
  {
    var r, nc, no := SwapNodes(q, p.c.nodes), p.c.nodes, p.o.nodes;
    assert r[0..0 + no] == q[nc..nc + no] && r[no..no + nc] == q[0..0 + nc];
    SameInterp(p.o, q, nc, r, 0, |p.o.ords|);
    SameInterp(p.c, q, 0, r, no, |p.c.ords|);
    SameGradient(p.o, q, nc, r, 0, no);
    SameGradient(p.c, q, 0, r, no, nc);
    SwapPenalty(p, nn);
    SwapAlgebra(p, nn, InterpUpTo(p.c, q, 0, |p.c.ords|), InterpUpTo(p.o, q, nc, |p.o.ords|),
                GradientUpTo(p.c, q, 0, nc), GradientUpTo(p.o, q, nc, no), Penalty(p));
  }

  lemma SwapPenalty(p: IntegrationPoint, nn: nat)
    requires GoodPoint(p)
    ensures Penalty(Swapped(p, nn)) == Penalty(p)
  {}
}
