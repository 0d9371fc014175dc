/** The projected nodal gradient (PNG) element assembly: sub-control surfaces give the right-hand side, sub-control
    volumes the mass matrix, the same for every component. */
module ProjectedGradient {
  import opened FlatIndex
  import opened Reals
  import opened Sums

  /** One sub-control surface: its left and right nodes, area vector and shape functions. */
  datatype Scs = Scs(il: nat, ir: nat, area: seq<real>, shape: seq<real>)

  /** One sub-control volume: its nearest node, volume and shape functions. */
  datatype Scv = Scv(node: nat, volume: real, shape: seq<real>)

  datatype Element = Element(npe: nat, nDim: nat, scs: seq<Scs>, scv: seq<Scv>)

  predicate Good(e: Element) {
    && (forall k :: 0 <= k < |e.scs| ==> GoodScs(e, e.scs[k]))
    && (forall k :: 0 <= k < |e.scv| ==> e.scv[k].node < e.npe && |e.scv[k].shape| == e.npe)
  }

  predicate GoodScs(e: Element, s: Scs) {
    s.il < e.npe && s.ir < e.npe && |s.area| == e.nDim && |s.shape| == e.npe
  }

  /** What one surface gives to component i of node n: flux out of the left node into the right one. */
  function ScsTerm(e: Element, q: seq<real>, s: Scs, n: nat, i: nat): real
    requires GoodScs(e, s) && |q| == e.npe && i < e.nDim
  {
    var flux := Times(DotUpTo(s.shape, q, e.npe), s.area[i]);
    (if n == s.il then flux else 0.0) - if n == s.ir then flux else 0.0
  }

  /** The surface part of the right-hand side over the first k surfaces. */
  function ScsPart(e: Element, q: seq<real>, n: nat, i: nat, k: nat): real
    requires Good(e) && |q| == e.npe && i < e.nDim && k <= |e.scs|
  {
    if k == 0 then 0.0 else ScsPart(e, q, n, i, k - 1) + ScsTerm(e, q, e.scs[k - 1], n, i)
  }

  /** The mass between nodes n and m over the first k volumes. */
  function Mass(e: Element, n: nat, m: nat, k: nat): real
    requires Good(e) && m < e.npe && k <= |e.scv|
  {
    if k == 0 then 0.0
    else
      Mass(e, n, m, k - 1)
      + if e.scv[k - 1].node == n then Times(e.scv[k - 1].shape[m], e.scv[k - 1].volume) else 0.0
  }

  /** Component i of the gathered gradient at node m. */
  function At(g: seq<real>, m: nat, i: nat, nDim: nat): real {
    if Flat(m, i, nDim) < |g| then g[Flat(m, i, nDim)] else 0.0
  }

  /** The mass row of node n applied to component i of the gradient, over the first m nodes. */
  function MassTimes(e: Element, g: seq<real>, n: nat, i: nat, k: nat, m: nat): real
    requires Good(e) && m <= e.npe && k <= |e.scv|
  {
    if m == 0 then 0.0 else MassTimes(e, g, n, i, k, m - 1) + Times(Mass(e, n, m - 1, k), At(g, m - 1, i, e.nDim))
  }

  /** The gradient interpolated to a volume, over the first m nodes. */
  function ScvValue(v: Scv, g: seq<real>, i: nat, nDim: nat, m: nat): real
    requires m <= |v.shape|
  {
    if m == 0 then 0.0 else ScvValue(v, g, i, nDim, m - 1) + Times(v.shape[m - 1], At(g, m - 1, i, nDim))
  }

  /** The surface part sums to zero over the nodes, for each component. */
  function NodeSum(e: Element, q: seq<real>, i: nat, k: nat, n: nat): real
    requires Good(e) && |q| == e.npe && i < e.nDim && k <= |e.scs|
  {
    if n == 0 then 0.0 else NodeSum(e, q, i, k, n - 1) + ScsPart(e, q, n - 1, i, k)
  }

  lemma {:induction false} NodeSumStep(e: Element, q: seq<real>, i: nat, k: nat, n: nat)
    requires Good(e) && |q| == e.npe && i < e.nDim && 0 < k <= |e.scs|
    ensures var s := e.scs[k - 1]; var flux := Times(DotUpTo(s.shape, q, e.npe), s.area[i]);
      NodeSum(e, q, i, k, n)
      == NodeSum(e, q, i, k - 1, n) + (if s.il < n then flux else 0.0) - if s.ir < n then flux else 0.0
  {
    if n > 0 { NodeSumStep(e, q, i, k, n - 1); }
  }

  lemma {:induction false} SurfacesConserve(e: Element, q: seq<real>, i: nat, k: nat)
    requires Good(e) && |q| == e.npe && i < e.nDim && k <= |e.scs|
    ensures NodeSum(e, q, i, k, e.npe) == 0.0
    decreases k
  {
    if k > 0 {
      SurfacesConserve(e, q, i, k - 1);
      NodeSumStep(e, q, i, k, e.npe);
    } else {
      NoSurfaces(e, q, i, e.npe);
    }
  }

  lemma {:induction false} NoSurfaces(e: Element, q: seq<real>, i: nat, n: nat)
    requires Good(e) && |q| == e.npe && i < e.nDim
    ensures NodeSum(e, q, i, 0, n) == 0.0
  {
    if n > 0 { NoSurfaces(e, q, i, n - 1); }
  }

  lemma {:induction false} NoMassTimes(e: Element, g: seq<real>, n: nat, i: nat, m: nat)
    requires Good(e) && m <= e.npe
    ensures MassTimes(e, g, n, i, 0, m) == 0.0
  {
    if m > 0 { NoMassTimes(e, g, n, i, m - 1); }
  }

  /** One more volume adds its mass times its interpolated gradient. */
  lemma {:induction false} MassTimesStep(e: Element, g: seq<real>, n: nat, i: nat, k: nat, m: nat)
    requires Good(e) && 0 < k <= |e.scv| && m <= e.npe
    ensures var v := e.scv[k - 1];
      MassTimes(e, g, n, i, k, m) == MassTimes(e, g, n, i, k - 1, m)
        + if v.node == n then Times(ScvValue(v, g, i, e.nDim, m), v.volume) else 0.0
  {
    if m > 0 {
      MassTimesStep(e, g, n, i, k, m - 1);
      var v := e.scv[k - 1];
      if v.node == n {
        MassStep(Mass(e, n, m - 1, k - 1), v.shape[m - 1], v.volume, At(g, m - 1, i, e.nDim),
            ScvValue(v, g, i, e.nDim, m - 1));
      }
    }
  }

  lemma MassStep(a: real, r: real, vol: real, x: real, acc: real)
    ensures Times(a + Times(r, vol), x) == Times(a, x) + Times(Times(r, x), vol)
    ensures Times(acc + Times(r, x), vol) == Times(acc, vol) + Times(Times(r, x), vol)
  {}
}
