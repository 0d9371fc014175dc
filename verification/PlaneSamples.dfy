/** Each step's use of the index map: sample on every rank, gather, reorder. */
module PlaneSamples {
  import opened Compaction
  import opened Offsets
  import opened Redundancy
  import opened SamplePlane
  import opened PlaneGather

  function MapSeq<A, B>(f: A -> B, s: seq<A>): seq<B> { seq(|s|, i requires 0 <= i < |s| => f(s[i])) }

  lemma MapConcat<A, B>(f: A -> B, s: seq<A>, t: seq<A>)
    ensures MapSeq(f, s + t) == MapSeq(f, s) + MapSeq(f, t)
  {}

  /** The samples this rank holds. */
  method SampleRank<Node>(nodeMap: seq<Node>, nSamp: nat, w: Node -> real) returns (local: seq<real>)
    requires nSamp == |nodeMap|
    ensures local == MapSeq(w, nodeMap)
  {
    local := [];
    for i := 0 to nSamp
      invariant local == MapSeq(w, nodeMap[..i])
    {
      assert nodeMap[..i + 1] == nodeMap[..i] + [nodeMap[i]];
      local := local + [w(nodeMap[i])];
    }
    assert nodeMap[..nSamp] == nodeMap;
  }

  /** wSamp[indexMap[i]] = work[i], over the points of the plane. */
  method Reorder(wSamp: array<real>, indexMap: seq<int>, work: seq<real>, n: nat, ghost W: int -> real)
    requires n == |indexMap| && work == MapSeq(W, indexMap)
    requires forall i :: 0 <= i < n ==> 0 <= indexMap[i] < wSamp.Length
    modifies wSamp
    ensures forall i :: 0 <= i < n ==> wSamp[indexMap[i]] == W(indexMap[i])
  {
    for i := 0 to n
      invariant forall k :: 0 <= k < i ==> wSamp[indexMap[k]] == W(indexMap[k])
    {
      wSamp[indexMap[i]] := work[i];
    }
  }

  /** Kept nodes and kept indices stay in step. */
  lemma KeepMap<Node>(flags: seq<int>, nodes: seq<Node>, w: Node -> real, W: int -> real)
    requires |flags| == |nodes| && forall k :: 0 <= k < |flags| && flags[k] >= 0 ==> w(nodes[k]) == W(flags[k])
    ensures MapSeq(w, Keep(flags, nodes)) == MapSeq(W, Keep(flags, flags))
  {
    KeepAt(flags, nodes);
    KeepAt(flags, flags);
  }

  /** The node behind a listed index carries the value of that point of the plane. */
  ghost predicate Consistent<Node(!new)>(lists: seq<seq<int>>, nodes: seq<seq<Node>>, w: Node -> real, W: int -> real) {
    && |nodes| == |lists| && (forall n :: 0 <= n < |lists| ==> |nodes[n]| == |lists[n]|)
    && forall n, k :: 0 <= n < |lists| && 0 <= k < |lists[n]| ==> w(nodes[n][k]) == W(lists[n][k])
  }

  /** On rank n the unflagged entries are the listed indices. */
  lemma UnflaggedListed(lists: seq<seq<int>>, keepFirst: int -> bool, n: nat, k: nat)
    requires n < |lists| && k < |lists[n]|
    ensures Displacements(Displ(lists), |Flags(lists, keepFirst)|)
    ensures var f := Stretch(Flags(lists, keepFirst), Displ(lists), n);
      |f| == |lists[n]| && (f[k] == -1 || f[k] == lists[n][k])
  {
    DisplOf(lists);
    var s, d := Flatten(lists), Displ(lists);
    StretchFlags(s, d, Ends(d, |s|), keepFirst, n, k);
    assert Stretch(s, d, n) == lists[n];
  }

  lemma StretchFlags(s: seq<int>, displ: seq<nat>, ends: seq<nat>, keepFirst: int -> bool, n: nat, k: nat)
    requires |s| == |ends| && Displacements(displ, |s|) && n + 1 < |displ| && k < |Stretch(s, displ, n)|
    ensures var f := Stretch(FlagsOf(s, ends, keepFirst), displ, n); f[k] == -1 || f[k] == Stretch(s, displ, n)[k]
  {
    var p := displ[n] + k;
    assert FlagsOf(s, ends, keepFirst)[p] == -1 || FlagsOf(s, ends, keepFirst)[p] == s[p];
  }

  /** The gathered samples of the first n ranks. */
  ghost function Gathered(flags: seq<int>, m: nat, W: int -> real): seq<real>
    requires m <= |flags|
  {
    MapSeq(W, Keep(flags[..m], flags[..m]))
  }

  lemma GatherNext(flags: seq<int>, displ: seq<nat>, n: nat, W: int -> real)
    requires Displacements(displ, |flags|) && n + 1 < |displ|
    ensures var f := Stretch(flags, displ, n);
      Gathered(flags, displ[n + 1], W) == Gathered(flags, displ[n], W) + MapSeq(W, Keep(f, f))
  {
    var f, head := Stretch(flags, displ, n), flags[..displ[n]];
    assert flags[..displ[n + 1]] == head + f;
    KeepConcat(head, f, head, f);
    MapConcat(W, Keep(head, head), Keep(f, f));
  }

  /** One rank's part of the gather. */
  method GatherRank<Node>(lists: seq<seq<int>>, nodes: seq<Node>, n: nat, nx: nat, w: Node -> real, work: seq<real>,
                          ghost total: nat, ghost W: int -> real)
    returns (next: seq<real>, indexMap: seq<int>)
    requires nx > 0 && InPlane(lists, total) && n < |lists| && |nodes| == |lists[n]|
    requires forall k :: 0 <= k < |nodes| ==> w(nodes[k]) == W(lists[n][k])
    requires Displacements(Displ(lists), |Flags(lists, SampleKeepFirst(nx))|)
    requires work == Gathered(Flags(lists, SampleKeepFirst(nx)), Displ(lists)[n], W)
    ensures next == Gathered(Flags(lists, SampleKeepFirst(nx)), Displ(lists)[n + 1], W)
    ensures indexMap == Keep(Flags(lists, SampleKeepFirst(nx)), Flags(lists, SampleKeepFirst(nx)))
  {
    ghost var flags, d := Flags(lists, SampleKeepFirst(nx)), Displ(lists);
    var counts, displ, nodeMap;
    indexMap, counts, displ, nodeMap := InitializeRank(lists, nodes, n, nx, total);
    ghost var f := Stretch(flags, d, n);
    forall k | 0 <= k < |f| && f[k] >= 0 ensures w(nodes[k]) == W(f[k]) {
      UnflaggedListed(lists, SampleKeepFirst(nx), n, k);
    }
    KeepMap(f, nodes, w, W);
    GatherNext(flags, d, n, W);
    CountOfRank(flags, d, n, nodes);
    var local := SampleRank(nodeMap, counts[n], w);
    next := work + local;
  }

  lemma CountOfRank<Node>(flags: seq<int>, displ: seq<nat>, n: nat, nodes: seq<Node>)
    requires Displacements(displ, |flags|) && n + 1 < |displ| && |nodes| == |Stretch(flags, displ, n)|
    ensures KeptOf(flags, displ, n) == |Keep(Stretch(flags, displ, n), nodes)|
  {
    var f := Stretch(flags, displ, n);
    assert f[..|f|] == f;
    KeepSize(f, f, nodes);
  }

  /** All ranks' parts. */
  method GatherAll<Node(!new)>(lists: seq<seq<int>>, nodes: seq<seq<Node>>, w: Node -> real, nx: nat,
                               ghost total: nat, ghost W: int -> real)
    returns (work: seq<real>, indexMap: seq<int>)
    requires nx > 0 && InPlane(lists, total) && Consistent(lists, nodes, w, W) && |lists| > 0
    ensures var flags := Flags(lists, SampleKeepFirst(nx));
      indexMap == Keep(flags, flags) && work == MapSeq(W, indexMap)
  {
    ghost var flags := Flags(lists, SampleKeepFirst(nx));
    DisplOf(lists);
    work, indexMap := [], [];
    for n := 0 to |lists|
      invariant work == Gathered(flags, Displ(lists)[n], W) && (n > 0 ==> indexMap == Keep(flags, flags))
    {
      work, indexMap := GatherRank(lists, nodes[n], n, nx, w, work, total, W);
    }
    assert flags[..|flags|] == flags;
  }

  /** The whole plane: any covering of the points by ranks leaves the sample of point v in wSamp[v]. */
  method GatherPlane<Node(!new)>(lists: seq<seq<int>>, nodes: seq<seq<Node>>, w: Node -> real, nx: nat, total: nat,
                                 wSamp: array<real>, ghost W: int -> real)
    requires nx > 0 && Covers(lists, total) && Consistent(lists, nodes, w, W) && |lists| > 0 && total <= wSamp.Length
    modifies wSamp
    ensures forall v :: 0 <= v < total ==> wSamp[v] == W(v)
  {
    var work, indexMap := GatherAll(lists, nodes, w, nx, total, W);
    MapIsPermutation(lists, SampleKeepFirst(nx), total);
    Reorder(wSamp, indexMap, work, total, W);
    forall v | 0 <= v < total ensures wSamp[v] == W(v) {
      assert v in indexMap;
    }
  }
}
