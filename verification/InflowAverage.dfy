/** Averages over an inflow boundary: trapezoid weights on the points that survive on each rank, summed over the
    ranks. */
module InflowAverage {
  import opened Compaction
  import opened Offsets
  import opened Redundancy
  import opened SamplePlane
  import opened PlaneGather
  import opened PlaneSamples
  import opened Sums

  /** Of the ranks that list a boundary point, the first keeps it, except that the last one keeps the far end point. */
  function InflowKeepFirst(last: nat): int -> bool { v => v != last }

  /** On the inflow boundary with the points 0..n: the point n stays with the last rank that lists it, all others with
      the first. */
  lemma InflowKeeper(lists: seq<seq<int>>, n: nat, r: nat, k: nat)
    requires InPlane(lists, n + 1) && r < |lists| && k < |lists[r]|
    ensures Displ(lists)[r] + k < |Flags(lists, InflowKeepFirst(n))|
    ensures var v := lists[r][k];
      Flags(lists, InflowKeepFirst(n))[Displ(lists)[r] + k] == v <==>
        if v == n then !ListedBetween(lists, v, r + 1, |lists|) else !ListedBetween(lists, v, 0, r)
  {
    KeeperIs(lists, InflowKeepFirst(n), r, k);
  }

  /** Trapezoid weights over the points 0..n. */
  function Weight(n: nat): int -> real
    requires n > 0
  {
    v => if v == 0 || v == n then 0.5 * (1.0 / n as real) else 1.0 / n as real
  }

  /** F summed over 0..n-1. */
  ghost function Total(F: int -> real, n: nat): real { if n == 0 then 0.0 else Total(F, n - 1) + F(n - 1) }

  lemma {:induction false} WeightsBefore(n: nat, k: nat)
    requires n > 0 && 1 <= k <= n
    ensures Total(Weight(n), k) == (k as real - 0.5) * (1.0 / n as real)
  {
    if k > 1 {
      WeightsBefore(n, k - 1);
      assert k as real == (k - 1) as real + 1.0;
    } else {
      assert Total(Weight(n), 0) == 0.0;
    }
  }

  /** The weights of all boundary points add up to one. */
  lemma WeightsTotal(n: nat)
    requires n > 0
    ensures Total(Weight(n), n + 1) == 1.0
  {
    WeightsBefore(n, n);
  }

  /** A sum over a permutation of 0..n-1 is the sum in order. */
  lemma {:induction false} SumPermutation(F: int -> real, m: seq<int>, n: nat)
    requires Permutation(m, n)
    ensures Sum(MapSeq(F, m)) == Total(F, n)
    decreases n
  {
    if n > 0 {
      assert n - 1 in m;
      var k :| 0 <= k < |m| && m[k] == n - 1;
      Shorter(m, n, k);
      SumPermutation(F, m[..k] + m[k + 1..], n - 1);
      SumWithout(F, m, k);
    }
  }

  lemma SumWithout(F: int -> real, m: seq<int>, k: nat)
    requires k < |m|
    ensures Sum(MapSeq(F, m)) == Sum(MapSeq(F, m[..k] + m[k + 1..])) + F(m[k])
  {
    var a, b := MapSeq(F, m[..k]), MapSeq(F, m[k + 1..]);
    assert MapSeq(F, m) == (a + [F(m[k])]) + b;
    assert MapSeq(F, m[..k] + m[k + 1..]) == a + b;
    SumConcat(a + [F(m[k])], b);
    SumConcat(a, b);
    SumAppend(a, F(m[k]));
  }

  lemma Shorter(m: seq<int>, n: nat, k: nat)
    requires n > 0 && Permutation(m, n) && k < |m| && m[k] == n - 1
    ensures Permutation(m[..k] + m[k + 1..], n - 1)
  {
    var r := m[..k] + m[k + 1..];
    forall i | 0 <= i < |r| ensures 0 <= r[i] < n - 1 {
      assert r[i] == m[if i < k then i else i + 1];
    }
    forall v | 0 <= v < n - 1 ensures v in r {
      assert v in m;
      var i :| 0 <= i < |m| && m[i] == v;
      assert r[if i < k then i else i - 1] == v;
    }
  }

  /** The removal of redundant entries from this rank's node and index lists, by the flags of its stretch. */
  method CompactInflow<Node>(flags: seq<int>, nodeMap: array<Node>, indexMap: array<int>) returns (count: nat)
    requires |flags| <= nodeMap.Length && |flags| <= indexMap.Length && nodeMap as object != indexMap
    modifies nodeMap, indexMap
    ensures count == KeptSoFar(flags, |flags|)
    ensures Compacting(nodeMap[..], old(nodeMap[..]), 0, 0, flags, |flags|)
    ensures Compacting(indexMap[..], old(indexMap[..]), 0, 0, flags, |flags|)
  {
    ghost var nodes, indices := nodeMap[..], indexMap[..];
    count := 0;
    for ii := 0 to |flags|
      invariant count == KeptSoFar(flags, ii)
      invariant Compacting(nodeMap[..], nodes, 0, 0, flags, ii) && Compacting(indexMap[..], indices, 0, 0, flags, ii)
    {
      NextFlag(indexMap[..], indices, 0, 0, flags, ii);
      MoveIf(flags[ii] >= 0, nodeMap, 0, 0, ii, count, nodes, flags);
      MoveIf(flags[ii] >= 0, indexMap, 0, 0, ii, count, indices, flags);
      count := count + if flags[ii] >= 0 then 1 else 0;
    }
  }

  /** This rank's stretch of the flagged global list. */
  method FlagsOfRank(lists: seq<seq<int>>, keepFirst: int -> bool, myrank: nat, ghost total: nat) returns (f: seq<int>)
    requires keepFirst(-1) && InPlane(lists, total) && myrank < |lists|
    ensures Displacements(Displ(lists), |Flags(lists, keepFirst)|)
    ensures f == Stretch(Flags(lists, keepFirst), Displ(lists), myrank) && |f| == |lists[myrank]|
  {
    KeptIndices(lists, keepFirst, myrank);
    var a, displ, distrib := GatherAndFlag(lists, keepFirst, total);
    f := a[displ[myrank]..displ[myrank + 1]];
  }

  /** What initialize leaves on one rank for an inflow boundary with the points 0..n: nodes, indices and weights. */
  method InitializeInflow<Node>(lists: seq<seq<int>>, nodes: seq<Node>, myrank: nat, n: nat)
    returns (nodeMap: seq<Node>, indexMap: seq<int>, weights: seq<real>)
    requires n > 0 && InPlane(lists, n + 1) && myrank < |lists| && |nodes| == |lists[myrank]|
    ensures Displacements(Displ(lists), |Flags(lists, InflowKeepFirst(n))|)
    ensures var f := Stretch(Flags(lists, InflowKeepFirst(n)), Displ(lists), myrank);
      && |f| == |nodes| && nodeMap == Keep(f, nodes) && indexMap == Keep(f, lists[myrank])
      && weights == MapSeq(Weight(n), indexMap)
  {
    var f := FlagsOfRank(lists, InflowKeepFirst(n), myrank, n + 1);
    nodeMap, indexMap := LocalInflow(f, nodes, lists[myrank]);
    weights := TrapezoidWeights(indexMap, n);
  }

  method TrapezoidWeights(indexMap: seq<int>, n: nat) returns (weights: seq<real>)
    requires n > 0
    ensures weights == MapSeq(Weight(n), indexMap)
  {
    var inv := 1.0 / n as real;
    weights := [];
    for i := 0 to |indexMap|
      invariant |weights| == i && forall k :: 0 <= k < i ==> weights[k] == Weight(n)(indexMap[k])
    {
      if indexMap[i] == 0 || indexMap[i] == n {
        weights := weights + [0.5 * inv];
      } else {
        weights := weights + [inv];
      }
    }
  }

  method LocalInflow<Node>(flags: seq<int>, nodes: seq<Node>, indices: seq<int>)
    returns (nodeMap: seq<Node>, indexMap: seq<int>)
    requires |flags| == |nodes| == |indices|
    ensures nodeMap == Keep(flags, nodes) && indexMap == Keep(flags, indices)
  {
    var ns := new Node[|nodes|](i requires 0 <= i < |nodes| => nodes[i]);
    var inds := new int[|indices|](i requires 0 <= i < |indices| => indices[i]);
    assert ns[..] == nodes && inds[..] == indices;
    var count := CompactInflow(flags, ns, inds);
    CompactedList(ns[..], nodes, flags);
    CompactedList(inds[..], indices, flags);
    nodeMap, indexMap := ns[..count], inds[..count];
  }

  /** The contribution of one boundary point with value U. */
  function Weighted(n: nat, U: int -> real): int -> real
    requires n > 0
  {
    v => Weight(n)(v) * U(v)
  }

  /** One rank's share of the average: the accumulation over its surviving points. */
  method AccumulateRank<Node>(nodeMap: seq<Node>, weights: seq<real>, u: Node -> real, indexMap: seq<int>, n: nat,
                              ghost U: int -> real) returns (avg: real)
    requires n > 0 && |nodeMap| == |indexMap| && weights == MapSeq(Weight(n), indexMap)
    requires forall i :: 0 <= i < |nodeMap| ==> u(nodeMap[i]) == U(indexMap[i])
    ensures avg == Sum(MapSeq(Weighted(n, U), indexMap))
  {
    avg := 0.0;
    ghost var terms := MapSeq(Weighted(n, U), indexMap);
    for i := 0 to |nodeMap|
      invariant avg == Sum(terms[..i])
    {
      avg := avg + weights[i] * u(nodeMap[i]);
      assert terms[..i + 1] == terms[..i] + [terms[i]];
      SumAppend(terms[..i], terms[i]);
    }
    assert terms[..|terms|] == terms;
  }

  /** On rank r the kept indices are its unflagged entries. */
  lemma KeptIndices(lists: seq<seq<int>>, keepFirst: int -> bool, r: nat)
    requires r < |lists|
    ensures Displacements(Displ(lists), |Flags(lists, keepFirst)|)
    ensures var f := Stretch(Flags(lists, keepFirst), Displ(lists), r);
      |f| == |lists[r]| && Keep(f, lists[r]) == Keep(f, f)
  {
    DisplOf(lists);
    var f := Stretch(Flags(lists, keepFirst), Displ(lists), r);
    SameLength(Flags(lists, keepFirst), Flatten(lists), Displ(lists), r);
    forall k | 0 <= k < |f| ensures f[k] == -1 || f[k] == lists[r][k] {
      UnflaggedListed(lists, keepFirst, r, k);
    }
    KeepSame(f, lists[r]);
  }

  lemma SameLength(s: seq<int>, t: seq<int>, displ: seq<nat>, r: nat)
    requires |s| == |t| && Displacements(displ, |s|) && r + 1 < |displ|
    ensures |Stretch(s, displ, r)| == |Stretch(t, displ, r)|
  {}

  lemma KeepSame(f: seq<int>, t: seq<int>)
    requires |f| == |t| && forall k :: 0 <= k < |f| ==> f[k] == -1 || f[k] == t[k]
    ensures Keep(f, t) == Keep(f, f)
  {
    KeepAt(f, t);
    KeepAt(f, f);
  }

  /** Node values in step with the kept indices. */
  lemma KeptValues<Node>(f: seq<int>, nodes: seq<Node>, list: seq<int>, u: Node -> real, U: int -> real)
    requires |f| == |nodes| == |list| && forall k :: 0 <= k < |list| ==> u(nodes[k]) == U(list[k])
    ensures |Keep(f, nodes)| == |Keep(f, list)|
    ensures forall i :: 0 <= i < |Keep(f, nodes)| ==> u(Keep(f, nodes)[i]) == U(Keep(f, list)[i])
  {
    KeepAt(f, nodes);
    KeepAt(f, list);
  }

  /** One rank, from its lists to its share. */
  method AverageRank<Node(!new)>(lists: seq<seq<int>>, nodes: seq<seq<Node>>, u: Node -> real, r: nat, n: nat,
                                 ghost U: int -> real) returns (avg: real)
    requires n > 0 && InPlane(lists, n + 1) && Consistent(lists, nodes, u, U) && r < |lists|
    ensures Displacements(Displ(lists), |Flags(lists, InflowKeepFirst(n))|)
    ensures var f := Stretch(Flags(lists, InflowKeepFirst(n)), Displ(lists), r);
      avg == Sum(MapSeq(Weighted(n, U), Keep(f, f)))
  {
    var nodeMap, indexMap, weights := InitializeInflow(lists, nodes[r], r, n);
    KeptIndices(lists, InflowKeepFirst(n), r);
    KeptValues(Stretch(Flags(lists, InflowKeepFirst(n)), Displ(lists), r), nodes[r], lists[r], u, U);
    avg := AccumulateRank(nodeMap, weights, u, indexMap, n, U);
  }

  /** The sum of all ranks' shares. */
  method SumShares<Node(!new)>(lists: seq<seq<int>>, nodes: seq<seq<Node>>, u: Node -> real, n: nat,
                               ghost U: int -> real, ghost F: int -> real) returns (avg: real)
    requires n > 0 && InPlane(lists, n + 1) && Consistent(lists, nodes, u, U) && F == Weighted(n, U)
    ensures var flags := Flags(lists, InflowKeepFirst(n)); avg == Sum(MapSeq(F, Keep(flags, flags)))
  {
    ghost var flags, d := Flags(lists, InflowKeepFirst(n)), Displ(lists);
    FlagsPlaced(lists, InflowKeepFirst(n));
    avg := 0.0;
    for r := 0 to |lists|
      invariant avg == Sum(Gathered(flags, d[r], F))
    {
      var share := AverageRank(lists, nodes, u, r, n, U);
      NextShare(flags, d, r, F);
      avg := avg + share;
    }
    assert flags[..|flags|] == flags;
  }

  lemma FlagsPlaced(lists: seq<seq<int>>, keepFirst: int -> bool)
    ensures Displacements(Displ(lists), |Flags(lists, keepFirst)|)
  {
    DisplOf(lists);
  }

  lemma NextShare(flags: seq<int>, displ: seq<nat>, r: nat, F: int -> real)
    requires Displacements(displ, |flags|) && r + 1 < |displ|
    ensures var f := Stretch(flags, displ, r);
      Sum(Gathered(flags, displ[r + 1], F)) == Sum(Gathered(flags, displ[r], F)) + Sum(MapSeq(F, Keep(f, f)))
  {
    GatherNext(flags, displ, r, F);
    var f := Stretch(flags, displ, r);
    SumConcat(Gathered(flags, displ[r], F), MapSeq(F, Keep(f, f)));
  }

  /** The sum over all ranks is the trapezoid average over the boundary, for every overlap of the ranks. */
  method Average<Node(!new)>(lists: seq<seq<int>>, nodes: seq<seq<Node>>, u: Node -> real, n: nat, ghost U: int -> real)
    returns (avg: real)
    requires n > 0 && Covers(lists, n + 1) && Consistent(lists, nodes, u, U)
    ensures avg == Total(Weighted(n, U), n + 1)
  {
    avg := SumShares(lists, nodes, u, n, U, Weighted(n, U));
    ghost var flags := Flags(lists, InflowKeepFirst(n));
    MapIsPermutation(lists, InflowKeepFirst(n), n + 1);
    SumPermutation(Weighted(n, U), Keep(flags, flags), n + 1);
  }

  /** The values at the two ends of each of the first k cells, averaged and summed. */
  ghost function Cells(U: int -> real, k: nat): real {
    if k == 0 then 0.0 else Cells(U, k - 1) + (U(k - 1) + U(k)) / 2.0
  }

  lemma {:induction false} WeightedBefore(n: nat, U: int -> real, k: nat)
    requires n > 0 && 1 <= k <= n
    ensures Total(Weighted(n, U), k) * n as real == Cells(U, k - 1) + U(k - 1) / 2.0
  {
    if k == 1 {
      assert Total(Weighted(n, U), 0) == 0.0;
      HalfWeight(n as real, U(0));
    } else {
      WeightedBefore(n, U, k - 1);
      FullWeight(n as real, U(k - 1));
      NextTerm(Total(Weighted(n, U), k - 1), Weighted(n, U)(k - 1), n as real);
    }
  }

  lemma HalfWeight(n: real, u: real)
    requires n > 0.0
    ensures 0.5 * (1.0 / n) * u * n == u / 2.0
  {
    assert 1.0 / n * n == 1.0;
    assert 0.5 * (1.0 / n) * u * n == 0.5 * u * (1.0 / n * n);
  }

  lemma FullWeight(n: real, u: real)
    requires n > 0.0
    ensures 1.0 / n * u * n == u
  {
    assert 1.0 / n * n == 1.0;
    assert 1.0 / n * u * n == u * (1.0 / n * n);
  }

  lemma NextTerm(a: real, b: real, n: real)
    ensures (a + b) * n == a * n + b * n
  {}

  /** The average is the trapezoid rule: n times it is the sum of the cell means. */
  lemma TrapezoidRule(n: nat, U: int -> real)
    requires n > 0
    ensures Total(Weighted(n, U), n + 1) * n as real == Cells(U, n)
  {
    WeightedBefore(n, U, n);
    HalfWeight(n as real, U(n));
    NextTerm(Total(Weighted(n, U), n), Weighted(n, U)(n), n as real);
  }

  /** A constant averages to itself. */
  lemma {:induction false} ConstantAverage(n: nat, U: int -> real, c: real, k: nat)
    requires n > 0 && forall v :: 0 <= v < k ==> U(v) == c
    ensures Total(Weighted(n, U), k) == Total(Weight(n), k) * c
    decreases k
  {
    if k > 0 {
      ConstantAverage(n, U, c, k - 1);
      Distribute(Total(Weight(n), k - 1), Weight(n)(k - 1), c);
    }
  }

  lemma Distribute(a: real, b: real, c: real)
    ensures a * c + b * c == (a + b) * c
  {}

  lemma ConstantVelocity(n: nat, U: int -> real, c: real)
    requires n > 0 && forall v :: 0 <= v <= n ==> U(v) == c
    ensures Total(Weighted(n, U), n + 1) == c
  {
    ConstantAverage(n, U, c, n + 1);
    WeightsTotal(n);
  }
}
