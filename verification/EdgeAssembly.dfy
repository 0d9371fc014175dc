/** Summing edge blocks into a global system: what the assembly conserves over any list of edges. */
module EdgeAssembly {
  import opened Sums
  import opened EdgeFlux

  /** A system over n nodes: a matrix by rows and a right-hand side. */
  datatype System = System(matrix: seq<seq<real>>, rhs: seq<real>) {
    predicate Valid() { |matrix| == |rhs| && forall r :: 0 <= r < |matrix| ==> |matrix[r]| == |rhs| }
  }

  function AddAt(m: seq<seq<real>>, r: nat, c: nat, v: real): seq<seq<real>>
    requires r < |m| && c < |m[r]|
  {
    m[r := m[r][c := m[r][c] + v]]
  }

  predicate OnNodes(e: Edge, n: nat) { e.left < n && e.right < n }

  /** apply_coeff for one edge: a plain sum into the rows and columns of its two nodes. */
  function ApplyBlock(s: System, e: Edge, b: Block): (t: System)
    requires s.Valid() && OnNodes(e, |s.rhs|)
    ensures t.Valid() && |t.rhs| == |s.rhs|
  {
    var m := AddAt(AddAt(AddAt(AddAt(s.matrix,
      e.left, e.left, b.ll), e.left, e.right, b.lr), e.right, e.left, b.rl), e.right, e.right, b.rr);
    var f := s.rhs[e.left := s.rhs[e.left] + b.rhsL];
    System(m, f[e.right := f[e.right] + b.rhsR])
  }

  /** The system after the edges, in order. */
  function Assembled(s: System, edges: seq<Edge>, o: Options): (t: System)
    requires s.Valid() && forall e :: e in edges ==> OnNodes(e, |s.rhs|)
    ensures t.Valid() && |t.rhs| == |s.rhs|
  {
    if edges == [] then s
    else
      var n := |edges| - 1;
      var t := Assembled(s, edges[..n], o);
      ApplyBlock(t, edges[n], BlockOf(edges[n], o))
  }

  class GlobalSystem {
    var state: System

    constructor (s: System)
      requires s.Valid()
      ensures state == s
    {
      state := s;
    }

    /** The edge loop: form the block of each edge and sum it in. */
    method Assemble(edges: seq<Edge>, o: Options)
      requires state.Valid() && forall e :: e in edges ==> OnNodes(e, |state.rhs|)
      modifies this
      ensures state == Assembled(old(state), edges, o)
    {
      for k := 0 to |edges|
        invariant state == Assembled(old(state), edges[..k], o)
      {
        var lhs, rhs := EdgeBlock(edges[k], o);
        var b := Block(lhs[0], lhs[1], lhs[2], lhs[3], rhs[0], rhs[1]);
        assert b == BlockOf(edges[k], o) by {
          assert lhs[..][0] == lhs[0] && lhs[..][1] == lhs[1] && lhs[..][2] == lhs[2] && lhs[..][3] == lhs[3];
          assert rhs[..][0] == rhs[0] && rhs[..][1] == rhs[1];
        }
        state := ApplyBlock(state, edges[k], b);
        assert edges[..k + 1][..k] == edges[..k];
      }
      assert edges[..|edges|] == edges;
    }
  }

  // ----- conservation

  function Column(m: seq<seq<real>>, c: nat): (col: seq<real>)
    requires forall r :: 0 <= r < |m| ==> c < |m[r]|
    ensures |col| == |m|
  {
    seq(|m|, r requires 0 <= r < |m| => m[r][c])
  }

  function ColumnSum(s: System, c: nat): real
    requires s.Valid() && c < |s.rhs|
  {
    Sum(Column(s.matrix, c))
  }

  function RowSum(s: System, r: nat): real
    requires s.Valid() && r < |s.rhs|
  {
    Sum(s.matrix[r])
  }

  /** The net mass flow the edges carry out of a node. */
  function NetOutflow(edges: seq<Edge>, node: nat): real {
    if edges == [] then 0.0
    else
      var e := edges[|edges| - 1];
      NetOutflow(edges[..|edges| - 1], node) + (if e.left == node then e.tmdot else 0.0)
          - (if e.right == node then e.tmdot else 0.0)
  }

  ghost predicate SquareRows(m: seq<seq<real>>, n: nat) { |m| == n && forall r :: 0 <= r < n ==> |m[r]| == n }

  lemma AddAtSums(m: seq<seq<real>>, n: nat, r: nat, c: nat, v: real, k: nat)
    requires SquareRows(m, n) && r < n && c < n && k < n
    ensures SquareRows(AddAt(m, r, c, v), n)
    ensures Sum(Column(AddAt(m, r, c, v), k)) == Sum(Column(m, k)) + (if k == c then v else 0.0)
    ensures Sum(AddAt(m, r, c, v)[k]) == Sum(m[k]) + (if k == r then v else 0.0)
  {
    var t := AddAt(m, r, c, v);
    assert Column(t, k) == Column(m, k)[r := t[r][k]];
    SumUpdate(Column(m, k), r, t[r][k]);
    SumUpdate(m[r], c, m[r][c] + v);
  }

  lemma BlockKeepsSums(s: System, e: Edge, o: Options, k: nat)
    requires s.Valid() && OnNodes(e, |s.rhs|) && k < |s.rhs|
    ensures var t := ApplyBlock(s, e, BlockOf(e, o));
      && Sum(t.rhs) == Sum(s.rhs)
      && ColumnSum(t, k) == ColumnSum(s, k)
      && RowSum(t, k) == RowSum(s, k) + (if e.left == k then e.tmdot else 0.0) - (if e.right == k then e.tmdot else 0.0)
  {
    BlockSums(e, o);
    ApplyMatrixSums(s, e, BlockOf(e, o), k);
    ApplyRhsSum(s, e, BlockOf(e, o));
  }

  predicate Conservative(e: Edge, b: Block) {
    b.ll + b.rl == 0.0 && b.lr + b.rr == 0.0 && b.rhsL + b.rhsR == 0.0 && b.ll + b.lr == e.tmdot
        && b.rl + b.rr == -e.tmdot
  }

  lemma ApplyRhsSum(s: System, e: Edge, b: Block)
    requires s.Valid() && OnNodes(e, |s.rhs|) && Conservative(e, b)
    ensures Sum(ApplyBlock(s, e, b).rhs) == Sum(s.rhs)
  {
    var f := s.rhs[e.left := s.rhs[e.left] + b.rhsL];
    SumUpdate(s.rhs, e.left, s.rhs[e.left] + b.rhsL);
    SumUpdate(f, e.right, f[e.right] + b.rhsR);
  }

  lemma ApplyMatrixSums(s: System, e: Edge, b: Block, k: nat)
    requires s.Valid() && OnNodes(e, |s.rhs|) && k < |s.rhs| && Conservative(e, b)
    ensures var t := ApplyBlock(s, e, b);
      && ColumnSum(t, k) == ColumnSum(s, k)
      && RowSum(t, k) == RowSum(s, k) + (if e.left == k then e.tmdot else 0.0) - (if e.right == k then e.tmdot else 0.0)
  {
    var n := |s.rhs|;
    var m1 := AddAt(s.matrix, e.left, e.left, b.ll);
    AddAtSums(s.matrix, n, e.left, e.left, b.ll, k);
    var m2 := AddAt(m1, e.left, e.right, b.lr);
    AddAtSums(m1, n, e.left, e.right, b.lr, k);
    var m3 := AddAt(m2, e.right, e.left, b.rl);
    AddAtSums(m2, n, e.right, e.left, b.rl, k);
    AddAtSums(m3, n, e.right, e.right, b.rr, k);
  }

  /** Over any edge list, whatever the blending factors: the right-hand side total and every column sum stay what they
      were, and every row sum grows by exactly the net mass flow out of its node. */
  lemma {:induction false} AssemblyConserves(s: System, edges: seq<Edge>, o: Options, k: nat)
    requires s.Valid() && (forall e :: e in edges ==> OnNodes(e, |s.rhs|)) && k < |s.rhs|
    ensures var t := Assembled(s, edges, o);
      && Sum(t.rhs) == Sum(s.rhs)
      && ColumnSum(t, k) == ColumnSum(s, k)
      && RowSum(t, k) == RowSum(s, k) + NetOutflow(edges, k)
  {
    if edges != [] {
      var n := |edges| - 1;
      AssemblyConserves(s, edges[..n], o, k);
      BlockKeepsSums(Assembled(s, edges[..n], o), edges[n], o, k);
    }
  }
}
