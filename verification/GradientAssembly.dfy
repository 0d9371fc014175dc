/** The loops of the PNG element assembly, into the flat left- and right-hand side arrays. */
module GradientAssembly {
  import opened Arithmetic
  import opened FlatIndex
  import opened ProjectedGradient
  import opened Reals
  import opened Sums

  /** Every entry of the right-hand side is what the value function says. */
  ghost predicate RhsIs(R: seq<seq<real>>, npe: nat, nDim: nat, value: (nat, nat) -> real) {
    Shaped(R, npe, nDim) && forall n, i :: 0 <= n < npe && 0 <= i < nDim ==> R[n][i] == value(n, i)
  }

  ghost function ScsValue(e: Element, q: seq<real>, k: nat): (nat, nat) -> real
    requires Good(e) && |q| == e.npe && k <= |e.scs|
  {
    (n: nat, i: nat) => if i < e.nDim then ScsPart(e, q, n, i, k) else 0.0
  }

  /** The interpolated scalar at a surface. */
  method ScsInterpolate(s: Scs, q: seq<real>) returns (scalarQ: real)
    requires |s.shape| == |q|
    ensures scalarQ == DotUpTo(s.shape, q, |q|)
  {
    scalarQ := 0.0;
    for ic := 0 to |q|
      invariant scalarQ == DotUpTo(s.shape, q, ic)
    {
      scalarQ := scalarQ + s.shape[ic] * q[ic];
    }
  }

  /** One surface: what leaves the left node enters the right one, component by component. */
  method AddSurface(e: Element, q: seq<real>, k: nat, rhs: array<real>, ghost R: seq<seq<real>>)
    returns (ghost S: seq<seq<real>>)
    requires Good(e) && |q| == e.npe && k < |e.scs| && FlatIs(rhs[..], R, e.npe, e.nDim)
    requires RhsIs(R, e.npe, e.nDim, ScsValue(e, q, k))
    modifies rhs
    ensures FlatIs(rhs[..], S, e.npe, e.nDim) && RhsIs(S, e.npe, e.nDim, ScsValue(e, q, k + 1))
  {
    var s := e.scs[k];
    var scalarQ := ScsInterpolate(s, q);
    S := R;
    for i := 0 to e.nDim
      invariant FlatIs(rhs[..], S, e.npe, e.nDim)
      invariant forall n, j :: 0 <= n < e.npe && 0 <= j < e.nDim ==>
                  S[n][j] == R[n][j] + if j < i then ScsTerm(e, q, s, n, j) else 0.0
    {
      var rhsFac := Times(-scalarQ, s.area[i]);
      assert rhsFac == -Times(scalarQ, s.area[i]);
      AddFlat(rhs, s.il, i, e.npe, e.nDim, -rhsFac, S);
      S := Add(S, s.il, i, -rhsFac);
      AddFlat(rhs, s.ir, i, e.npe, e.nDim, rhsFac, S);
      S := Add(S, s.ir, i, rhsFac);
    }
  }

  ghost function RhsValue(e: Element, q: seq<real>, g: seq<real>, k: nat): (nat, nat) -> real
    requires Good(e) && |q| == e.npe && k <= |e.scv|
  {
    (n: nat, i: nat) => if i < e.nDim then ScsPart(e, q, n, i, |e.scs|) - MassTimes(e, g, n, i, k, e.npe) else 0.0
  }

  /** The gradient interpolated to a volume. */
  method ScvInterpolate(v: Scv, g: seq<real>, nDim: nat) returns (dqdxScv: seq<real>)
    requires |g| == |v.shape| * nDim
    ensures |dqdxScv| == nDim && forall j :: 0 <= j < nDim ==> dqdxScv[j] == ScvValue(v, g, j, nDim, |v.shape|)
  {
    dqdxScv := seq(nDim, _ => 0.0);
    for ic := 0 to |v.shape|
      invariant |dqdxScv| == nDim && forall j :: 0 <= j < nDim ==> dqdxScv[j] == ScvValue(v, g, j, nDim, ic)
    {
      for j := 0 to nDim
        invariant |dqdxScv| == nDim
        invariant forall i :: 0 <= i < nDim ==> dqdxScv[i] == ScvValue(v, g, i, nDim, if i < j then ic + 1 else ic)
      {
        FlatBound(ic, j, |v.shape|, nDim);
        dqdxScv := dqdxScv[j := dqdxScv[j] + Times(v.shape[ic], g[Flat(ic, j, nDim)])];
      }
    }
  }

  /** One volume's part of the right-hand side. */
  method AddVolumeRhs(e: Element, q: seq<real>, g: seq<real>, k: nat, rhs: array<real>, ghost R: seq<seq<real>>)
    returns (ghost S: seq<seq<real>>)
    requires Good(e) && |q| == e.npe && |g| == e.npe * e.nDim && k < |e.scv| && FlatIs(rhs[..], R, e.npe, e.nDim)
    requires RhsIs(R, e.npe, e.nDim, RhsValue(e, q, g, k))
    modifies rhs
    ensures FlatIs(rhs[..], S, e.npe, e.nDim) && RhsIs(S, e.npe, e.nDim, RhsValue(e, q, g, k + 1))
  {
    var v := e.scv[k];
    var dqdxScv := ScvInterpolate(v, g, e.nDim);
    S := SubtractAt(v.node, v.volume, dqdxScv, e.npe, e.nDim, rhs, R);
    forall n, i | 0 <= n < e.npe && 0 <= i < e.nDim ensures S[n][i] == RhsValue(e, q, g, k + 1)(n, i) {
      MassTimesStep(e, g, n, i, k + 1, e.npe);
      assert S[n][i] == R[n][i] + ScvPart(dqdxScv, v.volume, v.node, e.nDim, n, i);
    }
  }

  /** What one volume adds to component j of node n, with the first `done` components added. */
  ghost function ScvPart(dqdxScv: seq<real>, volume: real, node: nat, done: nat, n: nat, j: nat): real
    requires j < |dqdxScv|
  {
    if n == node && j < done then -Times(dqdxScv[j], volume) else 0.0
  }

  method SubtractAt(node: nat, volume: real, dqdxScv: seq<real>, npe: nat, nDim: nat, rhs: array<real>,
                    ghost R: seq<seq<real>>) returns (ghost S: seq<seq<real>>)
    requires FlatIs(rhs[..], R, npe, nDim) && node < npe && |dqdxScv| == nDim
    modifies rhs
    ensures FlatIs(rhs[..], S, npe, nDim)
    ensures forall n, j :: 0 <= n < npe && 0 <= j < nDim ==>
              S[n][j] == R[n][j] + ScvPart(dqdxScv, volume, node, nDim, n, j)
  {
    S := R;
    for i := 0 to nDim
      invariant FlatIs(rhs[..], S, npe, nDim)
      invariant forall n, j :: 0 <= n < npe && 0 <= j < nDim ==>
                  S[n][j] == R[n][j] + ScvPart(dqdxScv, volume, node, i, n, j)
    {
      var d := Times(dqdxScv[i], volume);
      AddFlat(rhs, node, i, npe, nDim, -d, S);
      S := Add(S, node, i, -d);
    }
  }

  /** One entry of the left-hand side after the first k volumes, and of volume k the nodes before ic and, for node ic,
      the components before d: the mass on equal components, zero across components. */
  ghost predicate EntryOk(L: seq<seq<real>>, e: Element, k: nat, ic: nat, d: nat, n: nat, i: nat, m: nat, j: nat)
    requires Good(e) && k <= |e.scv|
  {
    && m < e.npe && Flat(n, i, e.nDim) < |L| && Flat(m, j, e.nDim) < |L[Flat(n, i, e.nDim)]|
    && L[Flat(n, i, e.nDim)][Flat(m, j, e.nDim)] ==
       if i != j then 0.0 else Mass(e, n, m, if k < |e.scv| && (m < ic || (m == ic && i < d)) then k + 1 else k)
  }

  ghost predicate LhsIs(L: seq<seq<real>>, e: Element, w: nat, k: nat, ic: nat, d: nat)
    requires Good(e) && k <= |e.scv|
  {
    && Shaped(L, w, w)
    && forall n, i, m, j :: 0 <= n < e.npe && 0 <= i < e.nDim && 0 <= m < e.npe && 0 <= j < e.nDim ==>
         EntryOk(L, e, k, ic, d, n, i, m, j)
  }

  lemma LhsStep(L: seq<seq<real>>, e: Element, w: nat, k: nat, ic: nat, d: nat)
    requires Good(e) && k < |e.scv| && ic < e.npe && d < e.nDim && w == e.npe * e.nDim && LhsIs(L, e, w, k, ic, d)
    requires Flat(e.scv[k].node, d, e.nDim) < w && Flat(ic, d, e.nDim) < w
    ensures var v := e.scv[k];
      LhsIs(Add(L, Flat(v.node, d, e.nDim), Flat(ic, d, e.nDim), Times(v.shape[ic], v.volume)), e, w, k, ic, d + 1)
  {
    var v := e.scv[k];
    var r, c, x := Flat(v.node, d, e.nDim), Flat(ic, d, e.nDim), Times(v.shape[ic], v.volume);
    var B, next := Add(L, r, c, x), d + 1;
    forall n, i, m, j | 0 <= n < e.npe && 0 <= i < e.nDim && 0 <= m < e.npe && 0 <= j < e.nDim
      ensures EntryOk(B, e, k, ic, next, n, i, m, j)
    {
      assert EntryOk(L, e, k, ic, d, n, i, m, j);
      if Flat(n, i, e.nDim) == r { FlatInjective(n, i, v.node, d, e.nDim); }
      if Flat(m, j, e.nDim) == c { FlatInjective(m, j, ic, d, e.nDim); }
    }
  }

  lemma LhsNextNode(L: seq<seq<real>>, e: Element, w: nat, k: nat, ic: nat)
    requires Good(e) && k < |e.scv| && LhsIs(L, e, w, k, ic, e.nDim)
    ensures LhsIs(L, e, w, k, ic + 1, 0)
  {
    var next := ic + 1;
    forall n, i, m, j | 0 <= n < e.npe && 0 <= i < e.nDim && 0 <= m < e.npe && 0 <= j < e.nDim
      ensures EntryOk(L, e, k, next, 0, n, i, m, j)
    {
      assert EntryOk(L, e, k, ic, e.nDim, n, i, m, j);
    }
  }

  lemma LhsNextVolume(L: seq<seq<real>>, e: Element, w: nat, k: nat)
    requires Good(e) && k < |e.scv| && LhsIs(L, e, w, k, e.npe, 0)
    ensures LhsIs(L, e, w, k + 1, 0, 0)
  {
    var next := k + 1;
    forall n, i, m, j | 0 <= n < e.npe && 0 <= i < e.nDim && 0 <= m < e.npe && 0 <= j < e.nDim
      ensures EntryOk(L, e, next, 0, 0, n, i, m, j)
    {
      assert EntryOk(L, e, k, e.npe, 0, n, i, m, j);
    }
  }

  /** One volume's part of the left-hand side. */
  method AddVolumeLhs(e: Element, k: nat, w: nat, lhs: array<real>, ghost L: seq<seq<real>>)
    returns (ghost M: seq<seq<real>>)
    requires Good(e) && k < |e.scv| && w == e.npe * e.nDim && FlatIs(lhs[..], L, w, w) && LhsIs(L, e, w, k, 0, 0)
    modifies lhs
    ensures FlatIs(lhs[..], M, w, w) && LhsIs(M, e, w, k + 1, 0, 0)
  {
    var v := e.scv[k];
    M := L;
    for ic := 0 to e.npe
      invariant FlatIs(lhs[..], M, w, w) && LhsIs(M, e, w, k, ic, 0)
    {
      var lhsfac := Times(v.shape[ic], v.volume);
      for i := 0 to e.nDim
        invariant FlatIs(lhs[..], M, w, w) && LhsIs(M, e, w, k, ic, i)
      {
        FlatBound(v.node, i, e.npe, e.nDim);
        FlatBound(ic, i, e.npe, e.nDim);
        LhsStep(M, e, w, k, ic, i);
        AddFlat(lhs, Flat(v.node, i, e.nDim), Flat(ic, i, e.nDim), w, w, lhsfac, M);
        M := Add(M, Flat(v.node, i, e.nDim), Flat(ic, i, e.nDim), lhsfac);
      }
      LhsNextNode(M, e, w, k, ic);
    }
    LhsNextVolume(M, e, w, k);
  }

  /** The element: zero, surfaces, volumes. */
  method AssembleElement(e: Element, q: seq<real>, g: seq<real>, w: nat, lhs: array<real>, rhs: array<real>)
    returns (ghost L: seq<seq<real>>, ghost R: seq<seq<real>>)
    requires Good(e) && |q| == e.npe && |g| == e.npe * e.nDim == w == rhs.Length && lhs.Length == w * w && lhs != rhs
    modifies lhs, rhs
    ensures FlatIs(lhs[..], L, w, w) && LhsIs(L, e, w, |e.scv|, 0, 0)
    ensures FlatIs(rhs[..], R, e.npe, e.nDim) && RhsIs(R, e.npe, e.nDim, RhsValue(e, q, g, |e.scv|))
  {
    L := ZeroFlat(lhs, w, w);
    R := ZeroFlat(rhs, e.npe, e.nDim);
    for ip := 0 to |e.scs|
      invariant FlatIs(rhs[..], R, e.npe, e.nDim) && RhsIs(R, e.npe, e.nDim, ScsValue(e, q, ip))
      invariant FlatIs(lhs[..], L, w, w) && forall r, c :: 0 <= r < w && 0 <= c < w ==> L[r][c] == 0.0
    {
      R := AddSurface(e, q, ip, rhs, R);
    }
    NoVolumes(e, q, g, w, L, R);
    for ip := 0 to |e.scv|
      invariant FlatIs(lhs[..], L, w, w) && LhsIs(L, e, w, ip, 0, 0)
      invariant FlatIs(rhs[..], R, e.npe, e.nDim) && RhsIs(R, e.npe, e.nDim, RhsValue(e, q, g, ip))
    {
      R := AddVolumeRhs(e, q, g, ip, rhs, R);
      L := AddVolumeLhs(e, ip, w, lhs, L);
    }
  }

  lemma NoVolumes(e: Element, q: seq<real>, g: seq<real>, w: nat, L: seq<seq<real>>, R: seq<seq<real>>)
    requires Good(e) && |q| == e.npe && w == e.npe * e.nDim && Shaped(L, w, w)
    requires forall r, c :: 0 <= r < w && 0 <= c < w ==> L[r][c] == 0.0
    requires RhsIs(R, e.npe, e.nDim, ScsValue(e, q, |e.scs|))
    ensures LhsIs(L, e, w, 0, 0, 0) && RhsIs(R, e.npe, e.nDim, RhsValue(e, q, g, 0))
  {
    forall n, i, m, j | 0 <= n < e.npe && 0 <= i < e.nDim && 0 <= m < e.npe && 0 <= j < e.nDim
      ensures EntryOk(L, e, 0, 0, 0, n, i, m, j)
    {
      FlatBound(n, i, e.npe, e.nDim);
      FlatBound(m, j, e.npe, e.nDim);
    }
    forall n, i | 0 <= n < e.npe && 0 <= i < e.nDim ensures R[n][i] == RhsValue(e, q, g, 0)(n, i) {
      NoMassTimes(e, g, n, i, e.npe);
    }
  }

  /** Within one node's columns only the row's own component counts. */
  lemma {:induction false} BlockDot(L: seq<seq<real>>, e: Element, w: nat, g: seq<real>, n: nat, i: nat, m: nat, j: nat)
    requires Good(e) && w == e.npe * e.nDim == |g| && LhsIs(L, e, w, |e.scv|, 0, 0)
    requires n < e.npe && i < e.nDim && m < e.npe && j <= e.nDim
    requires Flat(n, i, e.nDim) < w && m * e.nDim + j <= w
    ensures DotUpTo(L[Flat(n, i, e.nDim)], g, m * e.nDim + j) == DotUpTo(L[Flat(n, i, e.nDim)], g, m * e.nDim)
            + if i < j then Times(Mass(e, n, m, |e.scv|), At(g, m, i, e.nDim)) else 0.0
    decreases j
  {
    if j > 0 {
      BlockDot(L, e, w, g, n, i, m, j - 1);
      assert EntryOk(L, e, |e.scv|, 0, 0, n, i, m, j - 1);
      var row, c := L[Flat(n, i, e.nDim)], m * e.nDim + (j - 1);
      assert c == Flat(m, j - 1, e.nDim);
      assert DotUpTo(row, g, c + 1) == DotUpTo(row, g, c) + Times(row[c], g[c]);
    }
  }

  /** A row of the left-hand side applied to the gathered gradient. */
  lemma {:induction false} RowDot(L: seq<seq<real>>, e: Element, w: nat, g: seq<real>, n: nat, i: nat, m: nat)
    requires Good(e) && w == e.npe * e.nDim == |g| && LhsIs(L, e, w, |e.scv|, 0, 0) && n < e.npe && i < e.nDim
    requires m <= e.npe
    requires Flat(n, i, e.nDim) < w && m * e.nDim <= w
    ensures DotUpTo(L[Flat(n, i, e.nDim)], g, m * e.nDim) == MassTimes(e, g, n, i, |e.scv|, m)
    decreases m
  {
    if m > 0 {
      BlockEnd(m - 1, e.npe, e.nDim);
      RowDot(L, e, w, g, n, i, m - 1);
      BlockDot(L, e, w, g, n, i, m - 1, e.nDim);
    } else {
      assert m * e.nDim == 0;
    }
  }

  lemma BlockEnd(m: nat, npe: nat, nDim: nat)
    requires m < npe
    ensures m * nDim + nDim == (m + 1) * nDim <= npe * nDim && m * nDim <= npe * nDim
  {
    TimesOrder(nDim, m + 1, npe);
  }

  /** rhs = b - lhs G: each entry of the right-hand side is the surface part minus its row applied to the gathered
      gradient. */
  lemma ResidualForm(L: seq<seq<real>>, R: seq<seq<real>>, e: Element, q: seq<real>, g: seq<real>, w: nat, n: nat,
      i: nat)
    requires Good(e) && |q| == e.npe && w == e.npe * e.nDim == |g| && LhsIs(L, e, w, |e.scv|, 0, 0)
    requires RhsIs(R, e.npe, e.nDim, RhsValue(e, q, g, |e.scv|)) && n < e.npe && i < e.nDim
    ensures Flat(n, i, e.nDim) < w
    ensures R[n][i] == ScsPart(e, q, n, i, |e.scs|) - DotUpTo(L[Flat(n, i, e.nDim)], g, w)
  {
    FlatBound(n, i, e.npe, e.nDim);
    RowDot(L, e, w, g, n, i, e.npe);
  }

  /** Different components never couple. */
  lemma Uncoupled(L: seq<seq<real>>, e: Element, w: nat, n: nat, i: nat, m: nat, j: nat)
    requires Good(e) && w == e.npe * e.nDim && LhsIs(L, e, w, |e.scv|, 0, 0)
    requires n < e.npe && i < e.nDim && m < e.npe && j < e.nDim && i != j
    ensures Flat(n, i, e.nDim) < w && Flat(m, j, e.nDim) < w
    ensures L[Flat(n, i, e.nDim)][Flat(m, j, e.nDim)] == 0.0
  {
    assert EntryOk(L, e, |e.scv|, 0, 0, n, i, m, j);
  }
}
