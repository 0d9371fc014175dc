/** The average velocity over the sample plane: every rank adds its surviving samples, each weighted by 1 / (nx ny). */
module PlaneAverage {
  import opened Compaction
  import opened InflowAverage
  import opened PlaneGather
  import opened PlaneSamples
  import opened Redundancy
  import opened SamplePlane
  import opened Sums

  /** The contribution of one point. */
  function Share(U: int -> real, nxnyInv: real): int -> real { v => U(v) * nxnyInv }

  /** The accumulation on one rank, over the nodes it kept. */
  method AccumulateSamples<Node>(nodeMap: seq<Node>, u: Node -> real, nxnyInv: real, ghost indices: seq<int>,
                                 ghost U: int -> real) returns (avg: real)
    requires |nodeMap| == |indices| && forall i :: 0 <= i < |nodeMap| ==> u(nodeMap[i]) == U(indices[i])
    ensures avg == Sum(MapSeq(Share(U, nxnyInv), indices))
  {
    avg := 0.0;
    ghost var terms := MapSeq(Share(U, nxnyInv), indices);
    for i := 0 to |nodeMap|
      invariant avg == Sum(terms[..i])
    {
      avg := avg + u(nodeMap[i]) * nxnyInv;
      assert terms[..i + 1] == terms[..i] + [terms[i]];
      SumAppend(terms[..i], terms[i]);
    }
    assert terms[..|terms|] == terms;
  }

  /** One rank's part. */
  method AverageSamplesOf<Node(!new)>(lists: seq<seq<int>>, nodes: seq<seq<Node>>, u: Node -> real, r: nat, nx: nat,
                                      nxnyInv: real, ghost total: nat, ghost U: int -> real) returns (avg: real)
    requires nx > 0 && InPlane(lists, total) && Consistent(lists, nodes, u, U) && r < |lists|
    ensures Displacements(Displ(lists), |Flags(lists, SampleKeepFirst(nx))|)
    ensures var f := Stretch(Flags(lists, SampleKeepFirst(nx)), Displ(lists), r);
      avg == Sum(MapSeq(Share(U, nxnyInv), Keep(f, f)))
  {
    KeptIndices(lists, SampleKeepFirst(nx), r);
    ghost var f := Stretch(Flags(lists, SampleKeepFirst(nx)), Displ(lists), r);
    var indexMap, counts, displ, nodeMap := InitializeRank(lists, nodes[r], r, nx, total);
    KeptValues(f, nodes[r], lists[r], u, U);
    avg := AccumulateSamples(nodeMap, u, nxnyInv, Keep(f, f), U);
  }

  /** The parts of all ranks together. */
  method SumSamples<Node(!new)>(lists: seq<seq<int>>, nodes: seq<seq<Node>>, u: Node -> real, nx: nat, nxnyInv: real,
                                ghost total: nat, ghost U: int -> real, ghost F: int -> real) returns (avg: real)
    requires nx > 0 && InPlane(lists, total) && Consistent(lists, nodes, u, U) && F == Share(U, nxnyInv)
    ensures var flags := Flags(lists, SampleKeepFirst(nx)); avg == Sum(MapSeq(F, Keep(flags, flags)))
  {
    ghost var flags, d := Flags(lists, SampleKeepFirst(nx)), Displ(lists);
    FlagsPlaced(lists, SampleKeepFirst(nx));
    avg := 0.0;
    for r := 0 to |lists|
      invariant avg == Sum(Gathered(flags, d[r], F))
    {
      var share := AverageSamplesOf(lists, nodes, u, r, nx, nxnyInv, total, U);
      NextShare(flags, d, r, F);
      avg := avg + share;
    }
    assert flags[..|flags|] == flags;
  }

  /** avg is the mean of U over the first n points. */
  ghost predicate IsMean(avg: real, U: int -> real, n: nat) { avg * n as real == Total(U, n) }

  /** For every covering of the plane by ranks the result is the mean over the plane, each point counted once. */
  method AveragePlane<Node(!new)>(lists: seq<seq<int>>, nodes: seq<seq<Node>>, u: Node -> real, nx: nat, ny: nat,
                                  ghost U: int -> real) returns (avg: real)
    requires nx > 0 && ny > 0 && Covers(lists, ny * nx) && Consistent(lists, nodes, u, U)
    ensures IsMean(avg, U, ny * nx)
  {
    PointsPositive(nx, ny);
    var nxnyInv := 1.0 / (nx as real * ny as real);
    avg := AverageWeighted(lists, nodes, u, nx, nxnyInv, ny * nx, U);
    ShareMean(U, nxnyInv, ny * nx, avg);
  }

  method AverageWeighted<Node(!new)>(lists: seq<seq<int>>, nodes: seq<seq<Node>>, u: Node -> real, nx: nat,
                                     nxnyInv: real, ghost total: nat, ghost U: int -> real) returns (avg: real)
    requires nx > 0 && Covers(lists, total) && Consistent(lists, nodes, u, U)
    ensures avg == Total(Share(U, nxnyInv), total)
  {
    avg := SumSamples(lists, nodes, u, nx, nxnyInv, total, U, Share(U, nxnyInv));
    ghost var flags := Flags(lists, SampleKeepFirst(nx));
    MapIsPermutation(lists, SampleKeepFirst(nx), total);
    SumPermutation(Share(U, nxnyInv), Keep(flags, flags), total);
  }

  lemma ShareMean(U: int -> real, inv: real, n: nat, avg: real)
    requires n > 0 && inv == 1.0 / n as real && avg == Total(Share(U, inv), n)
    ensures IsMean(avg, U, n)
  {
    TotalShare(U, inv, n);
    MeanOf(Total(U, n), inv, n as real, avg);
  }

  lemma PointsPositive(nx: nat, ny: nat)
    requires nx > 0 && ny > 0
    ensures nx as real * ny as real > 0.0 && nx as real * ny as real == (ny * nx) as real
  {}

  lemma MeanOf(total: real, inv: real, n: real, avg: real)
    requires n > 0.0 && inv == 1.0 / n && avg == total * inv
    ensures avg * n == total
  {
    assert inv * n == 1.0;
    assert total * inv * n == total * (inv * n);
  }

  lemma {:induction false} TotalShare(U: int -> real, k: real, n: nat)
    ensures Total(Share(U, k), n) == Total(U, n) * k
  {
    if n > 0 {
      TotalShare(U, k, n - 1);
      Distribute(Total(U, n - 1), U(n - 1), k);
    }
  }

  /** A uniform velocity is its own mean. */
  lemma ConstantMean(avg: real, U: int -> real, n: nat, c: real)
    requires n > 0 && IsMean(avg, U, n) && forall v :: 0 <= v < n ==> U(v) == c
    ensures avg == c
  {
    TotalConstant(U, n, c);
    SameFactor(avg, c, n as real);
  }

  lemma SameFactor(a: real, c: real, n: real)
    requires n > 0.0 && a * n == c * n
    ensures a == c
  {
    assert (a - c) * n == 0.0;
  }

  lemma {:induction false} TotalConstant(U: int -> real, n: nat, c: real)
    requires forall v :: 0 <= v < n ==> U(v) == c
    ensures Total(U, n) == c * n as real
  {
    if n > 0 {
      TotalConstant(U, n - 1, c);
      OneMore(c, n);
    }
  }

  lemma OneMore(c: real, n: nat)
    requires n > 0
    ensures c * (n - 1) as real + c == c * n as real
  {
    assert (n - 1) as real + 1.0 == n as real;
  }
}
