/** What the non-conformal residual makes of particular fields: the penalty as normal gradients of the face, the unit
    jump, and a linear field. */
module NonConformalLaws {
  import opened Reals
  import opened Sums
  import opened SimdLanes
  import opened ScalarNonConformal

  // ----- the penalty

  /** One on the first n face nodes, zero on all other nodes of the element. */
  ghost function OnFace(s: Side, n: nat): (q: seq<real>)
    requires n <= |s.ords|
    ensures |q| == s.nodes
  {
    seq(s.nodes, i requires 0 <= i < s.nodes => if i in s.ords[..n] then 1.0 else 0.0)
  }

  ghost predicate DistinctOrds(s: Side) { forall i, j :: 0 <= i < j < |s.ords| ==> s.ords[i] != s.ords[j] }

  lemma {:induction false} GradientUpdate(s: Side, q: seq<real>, i: nat, x: real, n: nat)
    requires GoodSide(s) && |q| == s.nodes && i < s.nodes && n <= s.nodes
    ensures GradientUpTo(s, q[i := x], 0, n)
         == GradientUpTo(s, q, 0, n) + if i < n then Times(Along(s, i), x - q[i]) else 0.0
  {
    if n > 0 {
      GradientUpdate(s, q, i, x, n - 1);
      if i == n - 1 { assert Times(Along(s, i), x) == Times(Along(s, i), q[i]) + Times(Along(s, i), x - q[i]); }
    }
  }

  lemma {:induction false} ZeroGradient(s: Side, q: seq<real>, off: nat, n: nat)
    requires GoodSide(s) && n <= s.nodes && off + s.nodes <= |q| && forall i :: off <= i < off + s.nodes ==> q[i] == 0.0
    ensures GradientUpTo(s, q, off, n) == 0.0
  {
    if n > 0 { ZeroGradient(s, q, off, n - 1); }
  }

  /** The inverse length of a side is the normal gradient of the field that is one on its face nodes. */
  lemma {:induction false} InverseLengthIs(s: Side, n: nat)
    requires GoodSide(s) && DistinctOrds(s) && n <= |s.ords|
    ensures InverseLengthUpTo(s, n) == GradientUpTo(s, OnFace(s, n), 0, s.nodes)
  {
    if n == 0 {
      ZeroGradient(s, OnFace(s, 0), 0, s.nodes);
    } else {
      InverseLengthIs(s, n - 1);
      NextOnFace(s, n);
      GradientUpdate(s, OnFace(s, n - 1), s.ords[n - 1], 1.0, s.nodes);
      OneMore(Along(s, s.ords[n - 1]));
    }
  }

  lemma OneMore(a: real)
    ensures Times(a, 1.0 - 0.0) == a
  {}

  lemma NextOnFace(s: Side, n: nat)
    requires GoodSide(s) && DistinctOrds(s) && 0 < n <= |s.ords|
    ensures OnFace(s, n - 1)[s.ords[n - 1]] == 0.0 && OnFace(s, n) == OnFace(s, n - 1)[s.ords[n - 1] := 1.0]
  {
    var first := s.ords[..n - 1];
    assert s.ords[..n] == first + [s.ords[n - 1]];
    assert forall k :: 0 <= k < |first| ==> first[k] == s.ords[k];
    assert s.ords[n - 1] !in first;
  }

  /** The normal gradient of the field that is one on the face nodes of a side. */
  ghost function FaceGradient(s: Side): real
    requires GoodSide(s)
  {
    GradientUpTo(s, OnFace(s, |s.ords|), 0, s.nodes)
  }

  /** Twice the penalty is, over the two sides, the coefficient of the side times the normal gradient of its own
      face. */
  lemma PenaltyIs(p: IntegrationPoint)
    requires GoodPoint(p) && DistinctOrds(p.c) && DistinctOrds(p.o)
    ensures 2.0 * Penalty(p) == Times(p.c.coeff, FaceGradient(p.c)) + Times(p.o.coeff, FaceGradient(p.o))
  {
    InverseLengthIs(p.c, |p.c.ords|);
    InverseLengthIs(p.o, |p.o.ords|);
    HalfOfSum(p.c.coeff, InverseLengthUpTo(p.c, |p.c.ords|), p.o.coeff, InverseLengthUpTo(p.o, |p.o.ords|));
  }

  lemma HalfOfSum(a: real, x: real, b: real, y: real)
    ensures 2.0 * PenaltyOf(a, x, b, y) == Times(a, x) + Times(b, y)
  {}

  /** A side without diffusion contributes nothing: the penalty does not depend on that side at all. */
  lemma NoPenaltyWithoutDiffusion(p: IntegrationPoint, p': IntegrationPoint)
    requires GoodPoint(p) && GoodPoint(p') && p.c == p'.c && p.o.coeff == 0.0 == p'.o.coeff
    ensures Penalty(p) == Penalty(p')
  {
    NothingFrom(p.c.coeff, InverseLengthUpTo(p.c, |p.c.ords|), InverseLengthUpTo(p.o, |p.o.ords|),
      InverseLengthUpTo(p'.o, |p'.o.ords|));
  }

  lemma NothingFrom(a: real, x: real, y: real, y': real)
    ensures PenaltyOf(a, x, 0.0, y) == PenaltyOf(a, x, 0.0, y')
  {}

  // ----- the unit jump

  lemma {:induction false} OneInterp(s: Side, q: seq<real>, n: nat)
    requires GoodSide(s) && n <= |s.ords| && s.nodes <= |q| && q[..s.nodes] == OnFace(s, |s.ords|)
    ensures InterpUpTo(s, q, 0, n) == Sum(s.shape[..n])
  {
    if n > 0 {
      OneInterp(s, q, n - 1);
      assert s.ords[n - 1] in s.ords[..|s.ords|];
      assert q[..s.nodes][s.ords[n - 1]] == 1.0;
      assert s.shape[..n] == s.shape[..n - 1] + [s.shape[n - 1]];
      SumAppend(s.shape[..n - 1], s.shape[n - 1]);
    }
  }

  lemma {:induction false} ZeroInterp(s: Side, q: seq<real>, off: nat, n: nat)
    requires GoodSide(s) && n <= |s.ords| && off + s.nodes <= |q|
    requires forall i :: off <= i < off + s.nodes ==> q[i] == 0.0
    ensures InterpUpTo(s, q, off, n) == 0.0
  {
    if n > 0 { ZeroInterp(s, q, off, n - 1); }
  }

  /** The other side's half of the penalty through the face, and the upwinded mass flow out of the current side. */
  function JumpFlux(p: IntegrationPoint, gO: real): real {
    p.o.coeff * gO / 2.0 * p.amag + (p.tmdot + p.eta * Abs(p.tmdot)) / 2.0
  }

  /** A jump of one at the current face: the diffusive flux of its own side cancels half of the penalty, so what opposes
      the jump is the other side's half of the penalty and the upwinded mass flow. */
  lemma JumpResidual(p: IntegrationPoint, q: seq<real>)
    requires GoodPoint(p) && DistinctOrds(p.c) && DistinctOrds(p.o) && Sum(p.c.shape) == 1.0
    requires q == OnFace(p.c, |p.c.ords|) + Zeros(p.o.nodes)
    ensures Residual(p, q) == -JumpFlux(p, FaceGradient(p.o))
  {
    var nc := p.c.nodes;
    assert q[..nc] == OnFace(p.c, |p.c.ords|) && q[0..0 + nc] == OnFace(p.c, |p.c.ords|)[0..0 + nc];
    OneInterp(p.c, q, |p.c.ords|);
    assert p.c.shape[..|p.c.ords|] == p.c.shape;
    SameGradient(p.c, q, 0, OnFace(p.c, |p.c.ords|), 0, nc);
    ZeroInterp(p.o, q, nc, |p.o.ords|);
    ZeroGradient(p.o, q, nc, p.o.nodes);
    PenaltyIs(p);
    JumpScalars(p, FaceGradient(p.c), FaceGradient(p.o), Penalty(p));
  }

  lemma JumpScalars(p: IntegrationPoint, gC: real, gO: real, penalty: real)
    requires 2.0 * penalty == Times(p.c.coeff, gC) + Times(p.o.coeff, gO)
    ensures ResidualOf(p, 1.0, 0.0, gC, 0.0, penalty) == -JumpFlux(p, gO)
  {
    assert -gC * p.c.coeff / 2.0 + penalty == p.o.coeff * gO / 2.0;
  }

  // ----- a linear field

  /** The derivative of the field in direction j, as the shape functions of a side give it. */
  function Derivative(s: Side, q: seq<real>, off: nat, j: nat, n: nat): real
    requires GoodSide(s) && n <= s.nodes && off + s.nodes <= |q| && j < |s.normal|
  {
    if n == 0 then 0.0 else Derivative(s, q, off, j, n - 1) + Times(s.dndx[n - 1][j], q[off + (n - 1)])
  }

  /** The normal gradient, direction by direction. */
  function ByDirection(s: Side, q: seq<real>, off: nat, n: nat, d: nat): real
    requires GoodSide(s) && n <= s.nodes && off + s.nodes <= |q| && d <= |s.normal|
  {
    if d == 0 then 0.0 else ByDirection(s, q, off, n, d - 1) + Times(Derivative(s, q, off, d - 1, n), s.normal[d - 1])
  }

  lemma {:induction false} ByDirectionStep(s: Side, q: seq<real>, off: nat, n: nat, d: nat)
    requires GoodSide(s) && 0 < n <= s.nodes && off + s.nodes <= |q| && d <= |s.normal|
    ensures ByDirection(s, q, off, n, d)
         == ByDirection(s, q, off, n - 1, d) + Times(DotUpTo(s.dndx[n - 1], s.normal, d), q[off + (n - 1)])
  {
    if d > 0 {
      ByDirectionStep(s, q, off, n, d - 1);
      DirectionTerm(Derivative(s, q, off, d - 1, n - 1), s.dndx[n - 1][d - 1], q[off + (n - 1)], s.normal[d - 1],
        DotUpTo(s.dndx[n - 1], s.normal, d - 1));
    }
  }

  lemma DirectionTerm(a: real, g: real, q: real, n: real, dot: real)
    ensures Times(a + Times(g, q), n) == Times(a, n) + Times(Times(g, n), q)
    ensures Times(dot + Times(g, n), q) == Times(dot, q) + Times(Times(g, n), q)
  {}

  lemma {:induction false} NoNodes(s: Side, q: seq<real>, off: nat, d: nat)
    requires GoodSide(s) && off + s.nodes <= |q| && d <= |s.normal|
    ensures ByDirection(s, q, off, 0, d) == 0.0
  {
    if d > 0 { NoNodes(s, q, off, d - 1); }
  }

  lemma {:induction false} GradientByDirection(s: Side, q: seq<real>, off: nat, n: nat)
    requires GoodSide(s) && n <= s.nodes && off + s.nodes <= |q|
    ensures GradientUpTo(s, q, off, n) == ByDirection(s, q, off, n, |s.normal|)
  {
    if n == 0 {
      NoNodes(s, q, off, |s.normal|);
    } else {
      GradientByDirection(s, q, off, n - 1);
      ByDirectionStep(s, q, off, n, |s.normal|);
    }
  }

  /** The shape functions of the side see the gradient g. */
  ghost predicate SeesGradient(s: Side, q: seq<real>, off: nat, g: seq<real>)
    requires GoodSide(s) && off + s.nodes <= |q|
  {
    |g| == |s.normal| && forall j :: 0 <= j < |g| ==> Derivative(s, q, off, j, s.nodes) == g[j]
  }

  lemma {:induction false} SeenAlongNormal(s: Side, q: seq<real>, off: nat, g: seq<real>, d: nat)
    requires GoodSide(s) && off + s.nodes <= |q| && SeesGradient(s, q, off, g) && d <= |g|
    ensures ByDirection(s, q, off, s.nodes, d) == DotUpTo(g, s.normal, d)
  {
    if d > 0 { SeenAlongNormal(s, q, off, g, d - 1); }
  }

  lemma NormalGradientIs(s: Side, q: seq<real>, off: nat, g: seq<real>)
    requires GoodSide(s) && off + s.nodes <= |q| && SeesGradient(s, q, off, g)
    ensures GradientUpTo(s, q, off, s.nodes) == DotUpTo(g, s.normal, |g|)
  {
    GradientByDirection(s, q, off, s.nodes);
    SeenAlongNormal(s, q, off, g, |g|);
  }

  lemma {:induction false} OppositeNormal(g: seq<real>, n: seq<real>, m: seq<real>, d: nat)
    requires d <= |g| && d <= |n| == |m| && forall j :: 0 <= j < |n| ==> m[j] == -n[j]
    ensures DotUpTo(g, m, d) == -DotUpTo(g, n, d)
  {
    if d > 0 { OppositeNormal(g, n, m, d - 1); }
  }

  /** Diffusion by the mean coefficient against the normal gradient, and the value carried by the mass flow. */
  function LinearFlux(p: IntegrationPoint, along: real, v: real): real {
    (p.c.coeff + p.o.coeff) / 2.0 * along * p.amag - p.tmdot * v
  }

  /** A field that both sides see with the same gradient g and the same value v at the point, with opposite normals:
      the penalty drops out, diffusion is the mean coefficient times the normal gradient, and the mass flow carries v
      whatever the upwinding factor. */
  lemma LinearResidual(p: IntegrationPoint, q: seq<real>, g: seq<real>, v: real)
    requires GoodPoint(p) && |q| == TotalNodes(p)
    requires SeesGradient(p.c, q, 0, g) && SeesGradient(p.o, q, p.c.nodes, g)
    requires |p.o.normal| == |p.c.normal| && forall j :: 0 <= j < |p.c.normal| ==> p.o.normal[j] == -p.c.normal[j]
    requires InterpUpTo(p.c, q, 0, |p.c.ords|) == v == InterpUpTo(p.o, q, p.c.nodes, |p.o.ords|)
    ensures Residual(p, q) == LinearFlux(p, DotUpTo(g, p.c.normal, |g|), v)
  {
    NormalGradientIs(p.c, q, 0, g);
    NormalGradientIs(p.o, q, p.c.nodes, g);
    OppositeNormal(g, p.c.normal, p.o.normal, |g|);
    LinearScalars(p, v, DotUpTo(g, p.c.normal, |g|), DotUpTo(g, p.o.normal, |g|), Penalty(p));
  }

  lemma LinearScalars(p: IntegrationPoint, v: real, along: real, back: real, penalty: real)
    requires back == -along
    ensures ResidualOf(p, v, v, along, back, penalty) == LinearFlux(p, along, v)
  {}
}
