/** The sample plane from who owns what: each rank scans for its own points, and what is gathered and averaged does not
    depend on how the points are spread. */
module PlaneOwnership {
  import opened PlaneAverage
  import opened PlaneLists
  import opened PlaneSamples

  /** Rank n has a node for every point it owns, and the node carries the value of the point. */
  ghost predicate CarriesValues<Node(!new)>(owned: seq<int -> bool>, nodeAt: seq<int -> Node>, total: nat,
                                            w: Node -> real, W: int -> real) {
    |nodeAt| == |owned| && forall n, v :: 0 <= n < |owned| && 0 <= v < total && owned[n](v) ==> w(nodeAt[n](v)) == W(v)
  }

  ghost predicate Scanned<Node(!new)>(lists: seq<seq<int>>, nodes: seq<seq<Node>>, owned: seq<int -> bool>,
                                      nodeAt: seq<int -> Node>, total: nat) {
    && |lists| == |nodes| <= |owned| == |nodeAt|
    && forall n :: 0 <= n < |lists| ==> ListOf(lists[n], owned[n], total) && NodesOf(nodes[n], lists[n], nodeAt[n])
  }

  /** Every rank scans the plane. */
  method ScanAll<Node(!new)>(nx: nat, ny: nat, owned: seq<int -> bool>, nodeAt: seq<int -> Node>)
    returns (lists: seq<seq<int>>, nodes: seq<seq<Node>>)
    requires |nodeAt| == |owned|
    ensures |lists| == |owned| && Scanned(lists, nodes, owned, nodeAt, ny * nx)
  {
    lists, nodes := [], [];
    for n := 0 to |owned|
      invariant |lists| == n && Scanned(lists, nodes, owned, nodeAt, ny * nx)
    {
      var list, behind := ListSamplePoints(nx, ny, owned[n], nodeAt[n]);
      lists, nodes := lists + [list], nodes + [behind];
    }
  }

  lemma ScannedConsistent<Node(!new)>(lists: seq<seq<int>>, nodes: seq<seq<Node>>, owned: seq<int -> bool>,
                                      nodeAt: seq<int -> Node>, total: nat, w: Node -> real, W: int -> real)
    requires |lists| == |owned| && Scanned(lists, nodes, owned, nodeAt, total)
    requires CarriesValues(owned, nodeAt, total, w, W)
    ensures Consistent(lists, nodes, w, W)
  {
    forall n, k | 0 <= n < |lists| && 0 <= k < |lists[n]| ensures w(nodes[n][k]) == W(lists[n][k]) {
      assert ListOf(lists[n], owned[n], total) && lists[n][k] in lists[n];
    }
  }

  /** However the points are owned, as long as each is owned by some rank: wSamp holds the sample of every point in
      plane order, and the average is the mean over the plane. */
  method SampleOwnedPlane<Node(!new)>(nx: nat, ny: nat, owned: seq<int -> bool>, nodeAt: seq<int -> Node>,
                                      w: Node -> real, u: Node -> real, wSamp: array<real>,
                                      ghost W: int -> real, ghost U: int -> real) returns (avg: real)
    requires nx > 0 && ny > 0 && |owned| > 0 && ny * nx <= wSamp.Length
    requires CarriesValues(owned, nodeAt, ny * nx, w, W) && CarriesValues(owned, nodeAt, ny * nx, u, U)
    requires forall v :: 0 <= v < ny * nx ==> OwnedBySome(owned, v)
    modifies wSamp
    ensures forall v :: 0 <= v < ny * nx ==> wSamp[v] == W(v)
    ensures IsMean(avg, U, ny * nx)
  {
    var lists, nodes := ScanAll(nx, ny, owned, nodeAt);
    CoversIff(lists, owned, ny * nx);
    ScannedConsistent(lists, nodes, owned, nodeAt, ny * nx, w, W);
    ScannedConsistent(lists, nodes, owned, nodeAt, ny * nx, u, U);
    GatherPlane(lists, nodes, w, nx, ny * nx, wSamp, W);
    avg := AveragePlane(lists, nodes, u, nx, ny, U);
  }
}
