/** The projected nodal gradient over the elements around a node: a linear field with its own gradient leaves no
    residual where the surfaces close around the volumes. */
module GradientPatch {
  import opened Reals
  import opened Sums
  import opened ProjectedGradient

  /** One element around a node: its scalars and gradients, the number the node has in it, and where the points of its
      surfaces lie. */
  datatype Piece = Piece(e: Element, q: seq<real>, g: seq<real>, node: nat, at: seq<seq<real>>)

  ghost predicate GoodPiece(p: Piece) {
    && Good(p.e) && |p.q| == p.e.npe && |p.at| == |p.e.scs|
    && forall s :: 0 <= s < |p.at| ==> |p.at[s]| == p.e.nDim
  }

  /** What the element leaves at the node: its surfaces minus its mass row applied to the gradient. */
  ghost function NodeResidual(p: Piece, i: nat): real
    requires GoodPiece(p) && i < p.e.nDim
  {
    ScsPart(p.e, p.q, p.node, i, |p.e.scs|) - MassTimes(p.e, p.g, p.node, i, |p.e.scv|, p.e.npe)
  }

  /** A surface counts out of its left node and into its right one. */
  function Out(s: Scs, node: nat): real { (if node == s.il then 1.0 else 0.0) - if node == s.ir then 1.0 else 0.0 }

  /** The net area of the first k surfaces out of the node, and its first moment. */
  function NetArea(p: Piece, i: nat, k: nat): real
    requires Good(p.e) && i < p.e.nDim && k <= |p.e.scs|
  {
    if k == 0 then 0.0 else NetArea(p, i, k - 1) + Times(Out(p.e.scs[k - 1], p.node), p.e.scs[k - 1].area[i])
  }

  ghost function Moment(p: Piece, i: nat, j: nat, k: nat): real
    requires GoodPiece(p) && i < p.e.nDim && j < p.e.nDim && k <= |p.e.scs|
  {
    if k == 0 then 0.0
    else
      Moment(p, i, j, k - 1) + Times(p.at[k - 1][j], Times(Out(p.e.scs[k - 1], p.node), p.e.scs[k - 1].area[i]))
  }

  /** The volume of the node in the element, over the first k volumes. */
  function NodeVolume(p: Piece, k: nat): real
    requires k <= |p.e.scv|
  {
    if k == 0 then 0.0
    else NodeVolume(p, k - 1) + if p.e.scv[k - 1].node == p.node then p.e.scv[k - 1].volume else 0.0
  }

  /** The field is d + c.x at the surface points, its gradient c at every node, and the shape functions of the volumes
      sum to one. */
  ghost predicate Linear(p: Piece, c: seq<real>, d: real)
    requires GoodPiece(p)
  {
    && |c| == p.e.nDim
    && (forall s :: 0 <= s < |p.at| ==>
          DotUpTo(p.e.scs[s].shape, p.q, p.e.npe) == d + DotUpTo(c, p.at[s], |c|))
    && (forall m, i :: 0 <= m < p.e.npe && 0 <= i < |c| ==> At(p.g, m, i, p.e.nDim) == c[i])
    && forall k :: 0 <= k < |p.e.scv| ==> Sum(p.e.scv[k].shape) == 1.0
  }

  // ----- one element

  /** c applied to the moments. */
  ghost function MomentAlong(p: Piece, c: seq<real>, i: nat, k: nat, n: nat): real
    requires GoodPiece(p) && i < p.e.nDim && n <= |c| == p.e.nDim && k <= |p.e.scs|
  {
    if n == 0 then 0.0 else MomentAlong(p, c, i, k, n - 1) + Times(c[n - 1], Moment(p, i, n - 1, k))
  }

  lemma {:induction false} MomentStep(p: Piece, c: seq<real>, i: nat, k: nat, n: nat)
    requires GoodPiece(p) && i < p.e.nDim && n <= |c| == p.e.nDim && 0 < k <= |p.e.scs|
    ensures MomentAlong(p, c, i, k, n) == MomentAlong(p, c, i, k - 1, n)
      + Times(DotUpTo(c, p.at[k - 1], n), Times(Out(p.e.scs[k - 1], p.node), p.e.scs[k - 1].area[i]))
  {
    if n > 0 {
      MomentStep(p, c, i, k, n - 1);
      MomentTerm(c[n - 1], Moment(p, i, n - 1, k - 1), p.at[k - 1][n - 1], DotUpTo(c, p.at[k - 1], n - 1),
        Times(Out(p.e.scs[k - 1], p.node), p.e.scs[k - 1].area[i]));
    }
  }

  lemma MomentTerm(c: real, moment: real, x: real, dot: real, area: real)
    ensures Times(c, moment + Times(x, area)) == Times(c, moment) + Times(Times(c, x), area)
    ensures Times(dot + Times(c, x), area) == Times(dot, area) + Times(Times(c, x), area)
  {}

  lemma {:induction false} NoMoment(p: Piece, c: seq<real>, i: nat, n: nat)
    requires GoodPiece(p) && i < p.e.nDim && n <= |c| == p.e.nDim
    ensures MomentAlong(p, c, i, 0, n) == 0.0
  {
    if n > 0 { NoMoment(p, c, i, n - 1); }
  }

  /** The surfaces of a linear field: the constant on the net area, the gradient on the moments. */
  lemma {:induction false} SurfacesOfLinear(p: Piece, c: seq<real>, d: real, i: nat, k: nat)
    requires GoodPiece(p) && Linear(p, c, d) && i < p.e.nDim && k <= |p.e.scs|
    ensures ScsPart(p.e, p.q, p.node, i, k) == Times(d, NetArea(p, i, k)) + MomentAlong(p, c, i, k, |c|)
    decreases k
  {
    if k == 0 {
      NoMoment(p, c, i, |c|);
    } else {
      SurfacesOfLinear(p, c, d, i, k - 1);
      MomentStep(p, c, i, k, |c|);
      var s := p.e.scs[k - 1];
      OneSurface(p.e, p.q, s, p.node, i);
      SurfaceTerm(d, DotUpTo(c, p.at[k - 1], |c|), Times(Out(s, p.node), s.area[i]), NetArea(p, i, k - 1));
    }
  }

  lemma OneSurface(e: Element, q: seq<real>, s: Scs, node: nat, i: nat)
    requires GoodScs(e, s) && |q| == e.npe && i < e.nDim
    ensures ScsTerm(e, q, s, node, i) == Times(DotUpTo(s.shape, q, e.npe), Times(Out(s, node), s.area[i]))
  {
    OutTerm(DotUpTo(s.shape, q, e.npe), s.area[i]);
  }

  lemma OutTerm(v: real, a: real)
    ensures Times(v, Times(1.0, a)) == Times(v, a) && Times(v, Times(-1.0, a)) == -Times(v, a)
    ensures Times(v, Times(0.0, a)) == 0.0
  {}

  lemma SurfaceTerm(d: real, along: real, area: real, net: real)
    ensures Times(d + along, area) == Times(d, area) + Times(along, area)
    ensures Times(d, net + area) == Times(d, net) + Times(d, area)
  {}

  lemma {:induction false} ConstantScv(v: Scv, g: seq<real>, i: nat, nDim: nat, m: nat, x: real)
    requires m <= |v.shape| && forall n :: 0 <= n < m ==> At(g, n, i, nDim) == x
    ensures ScvValue(v, g, i, nDim, m) == Times(Sum(v.shape[..m]), x)
  {
    if m > 0 {
      ConstantScv(v, g, i, nDim, m - 1, x);
      assert v.shape[..m] == v.shape[..m - 1] + [v.shape[m - 1]];
      SumAppend(v.shape[..m - 1], v.shape[m - 1]);
      TimesOver(Sum(v.shape[..m - 1]), v.shape[m - 1], x);
    }
  }

  /** The mass row applied to a uniform gradient is the node's volume times it. */
  lemma {:induction false} MassOfLinear(p: Piece, c: seq<real>, d: real, i: nat, k: nat)
    requires GoodPiece(p) && Linear(p, c, d) && i < p.e.nDim && k <= |p.e.scv|
    ensures MassTimes(p.e, p.g, p.node, i, k, p.e.npe) == Times(c[i], NodeVolume(p, k))
    decreases k
  {
    if k == 0 {
      NoMassTimes(p.e, p.g, p.node, i, p.e.npe);
    } else {
      MassOfLinear(p, c, d, i, k - 1);
      MassTimesStep(p.e, p.g, p.node, i, k, p.e.npe);
      var v := p.e.scv[k - 1];
      ConstantScv(v, p.g, i, p.e.nDim, p.e.npe, c[i]);
      assert v.shape[..p.e.npe] == v.shape;
      VolumeTerm(c[i], NodeVolume(p, k - 1), v.volume);
    }
  }

  lemma VolumeTerm(x: real, volume: real, more: real)
    ensures Times(x, volume + more) == Times(x, volume) + Times(Times(1.0, x), more) && volume + 0.0 == volume
  {}

  // ----- the patch

  ghost predicate GoodPatch(patch: seq<Piece>, nDim: nat) {
    forall k :: 0 <= k < |patch| ==> GoodPiece(patch[k]) && patch[k].e.nDim == nDim
  }

  ghost predicate LinearPatch(patch: seq<Piece>, c: seq<real>, d: real)
    requires GoodPatch(patch, |c|)
  {
    forall k :: 0 <= k < |patch| ==> Linear(patch[k], c, d)
  }

  ghost function PatchResidual(patch: seq<Piece>, nDim: nat, i: nat): real
    requires GoodPatch(patch, nDim) && i < nDim
  {
    if patch == [] then 0.0
    else PatchResidual(patch[..|patch| - 1], nDim, i) + NodeResidual(patch[|patch| - 1], i)
  }

  ghost function PatchArea(patch: seq<Piece>, nDim: nat, i: nat): real
    requires GoodPatch(patch, nDim) && i < nDim
  {
    if patch == [] then 0.0
    else
      var last := patch[|patch| - 1];
      PatchArea(patch[..|patch| - 1], nDim, i) + NetArea(last, i, |last.e.scs|)
  }

  ghost function PatchMoment(patch: seq<Piece>, nDim: nat, i: nat, j: nat): real
    requires GoodPatch(patch, nDim) && i < nDim && j < nDim
  {
    if patch == [] then 0.0
    else
      var last := patch[|patch| - 1];
      PatchMoment(patch[..|patch| - 1], nDim, i, j) + Moment(last, i, j, |last.e.scs|)
  }

  ghost function PatchVolume(patch: seq<Piece>): real {
    if patch == [] then 0.0
    else
      var last := patch[|patch| - 1];
      PatchVolume(patch[..|patch| - 1]) + NodeVolume(last, |last.e.scv|)
  }

  /** c applied to the moments of the patch. */
  ghost function PatchAlong(patch: seq<Piece>, c: seq<real>, i: nat, n: nat): real
    requires GoodPatch(patch, |c|) && i < |c| && n <= |c|
  {
    if n == 0 then 0.0 else PatchAlong(patch, c, i, n - 1) + Times(c[n - 1], PatchMoment(patch, |c|, i, n - 1))
  }

  lemma {:induction false} PatchAlongStep(patch: seq<Piece>, c: seq<real>, i: nat, n: nat)
    requires patch != [] && GoodPatch(patch, |c|) && i < |c| && n <= |c|
    ensures var last := patch[|patch| - 1];
      PatchAlong(patch, c, i, n)
        == PatchAlong(patch[..|patch| - 1], c, i, n) + MomentAlong(last, c, i, |last.e.scs|, n)
  {
    if n > 0 {
      PatchAlongStep(patch, c, i, n - 1);
      var last := patch[|patch| - 1];
      SurfaceTerm(c[n - 1], 0.0, Moment(last, i, n - 1, |last.e.scs|),
        PatchMoment(patch[..|patch| - 1], |c|, i, n - 1));
    }
  }

  lemma {:induction false} NoPieces(c: seq<real>, i: nat, n: nat)
    requires i < |c| && n <= |c|
    ensures PatchAlong([], c, i, n) == 0.0
  {
    if n > 0 { NoPieces(c, i, n - 1); }
  }

  /** The residual of a linear field, from the geometry of the patch alone. */
  lemma {:induction false} PatchOfLinear(patch: seq<Piece>, c: seq<real>, d: real, i: nat)
    requires GoodPatch(patch, |c|) && LinearPatch(patch, c, d) && i < |c|
    ensures PatchResidual(patch, |c|, i)
         == Times(d, PatchArea(patch, |c|, i)) + PatchAlong(patch, c, i, |c|) - Times(c[i], PatchVolume(patch))
  {
    if patch == [] {
      NoPieces(c, i, |c|);
    } else {
      var rest, last := patch[..|patch| - 1], patch[|patch| - 1];
      PatchOfLinear(rest, c, d, i);
      PatchAlongStep(patch, c, i, |c|);
      SurfacesOfLinear(last, c, d, i, |last.e.scs|);
      MassOfLinear(last, c, d, i, |last.e.scv|);
      SurfaceTerm(d, 0.0, NetArea(last, i, |last.e.scs|), PatchArea(rest, |c|, i));
      SurfaceTerm(c[i], 0.0, NodeVolume(last, |last.e.scv|), PatchVolume(rest));
    }
  }

  /** The surfaces close around the volumes: no net area, and the divergence theorem for the coordinates. */
  ghost predicate Closed(patch: seq<Piece>, nDim: nat)
    requires GoodPatch(patch, nDim)
  {
    forall i, j :: 0 <= i < nDim && 0 <= j < nDim ==>
      PatchArea(patch, nDim, i) == 0.0
      && PatchMoment(patch, nDim, i, j) == if i == j then PatchVolume(patch) else 0.0
  }

  lemma {:induction false} ClosedAlong(patch: seq<Piece>, c: seq<real>, i: nat, n: nat)
    requires GoodPatch(patch, |c|) && Closed(patch, |c|) && i < |c| && n <= |c|
    ensures PatchAlong(patch, c, i, n) == if i < n then Times(c[i], PatchVolume(patch)) else 0.0
  {
    if n > 0 {
      ClosedAlong(patch, c, i, n - 1);
      assert PatchMoment(patch, |c|, i, n - 1) == if i == n - 1 then PatchVolume(patch) else 0.0;
    }
  }

  /** Every linear field with its own gradient solves the projection: no residual is left at a node whose surfaces close
      around its volumes. */
  lemma LinearLeavesNothing(patch: seq<Piece>, c: seq<real>, d: real, i: nat)
    requires GoodPatch(patch, |c|) && LinearPatch(patch, c, d) && Closed(patch, |c|) && i < |c|
    ensures PatchResidual(patch, |c|, i) == 0.0
  {
    PatchOfLinear(patch, c, d, i);
    ClosedAlong(patch, c, i, |c|);
    assert PatchArea(patch, |c|, i) == 0.0 && PatchMoment(patch, |c|, i, i) == PatchVolume(patch);
  }
}
