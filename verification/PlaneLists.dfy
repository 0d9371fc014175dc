/** How each rank lists the sample points it owns, and when the lists cover the plane. */
module PlaneLists {
  import opened PlaneGather

  /** Exactly the owned points below total, in increasing order. */
  ghost predicate ListOf(list: seq<int>, owned: int -> bool, total: nat) {
    && (forall i, j :: 0 <= i < j < |list| ==> list[i] < list[j])
    && (forall v :: v in list <==> 0 <= v < total && owned(v))
  }

  lemma ListNext(list: seq<int>, owned: int -> bool, v: nat)
    requires ListOf(list, owned, v)
    ensures ListOf(if owned(v) then list + [v] else list, owned, v + 1)
  {
    assert forall i :: 0 <= i < |list| ==> list[i] in list;
  }

  /** The nodes behind the listed points, in the same order. */
  ghost predicate NodesOf<Node(!new)>(nodes: seq<Node>, list: seq<int>, nodeAt: int -> Node) {
    |nodes| == |list| && forall k :: 0 <= k < |list| ==> nodes[k] == nodeAt(list[k])
  }

  lemma NodesNext<Node(!new)>(nodes: seq<Node>, list: seq<int>, nodeAt: int -> Node, v: int)
    requires NodesOf(nodes, list, nodeAt)
    ensures NodesOf(nodes + [nodeAt(v)], list + [v], nodeAt)
  {}

  /** One grid row of the scan. */
  method ListRow<Node(!new)>(list0: seq<int>, nodes0: seq<Node>, base: nat, nx: nat, owned: int -> bool,
      nodeAt: int -> Node)
    returns (list: seq<int>, nodes: seq<Node>)
    requires ListOf(list0, owned, base) && NodesOf(nodes0, list0, nodeAt)
    ensures ListOf(list, owned, base + nx) && NodesOf(nodes, list, nodeAt)
  {
    list, nodes := list0, nodes0;
    for ix := 0 to nx
      invariant ListOf(list, owned, base + ix) && NodesOf(nodes, list, nodeAt)
    {
      var v := base + ix;
      ListNext(list, owned, v);
      if owned(v) {
        NodesNext(nodes, list, nodeAt, v);
        nodes, list := nodes + [nodeAt(v)], list + [v];
      }
    }
  }

  /** The scan over the plane: point (ix, iy) has index iy * nx + ix. */
  method ListSamplePoints<Node(!new)>(nx: nat, ny: nat, owned: int -> bool, nodeAt: int -> Node)
    returns (list: seq<int>, nodes: seq<Node>)
    ensures ListOf(list, owned, ny * nx) && NodesOf(nodes, list, nodeAt)
  {
    list, nodes := [], [];
    for iy := 0 to ny
      invariant ListOf(list, owned, iy * nx) && NodesOf(nodes, list, nodeAt)
    {
      list, nodes := ListRow(list, nodes, iy * nx, nx, owned, nodeAt);
      assert iy * nx + nx == (iy + 1) * nx;
    }
  }

  ghost predicate OwnedBySome(owned: seq<int -> bool>, v: int) { exists n :: 0 <= n < |owned| && owned[n](v) }

  /** The lists cover the plane if and only if every point is owned by some rank. */
  lemma CoversIff(lists: seq<seq<int>>, owned: seq<int -> bool>, total: nat)
    requires |lists| == |owned| && forall n :: 0 <= n < |lists| ==> ListOf(lists[n], owned[n], total)
    ensures Covers(lists, total) <==> forall v :: 0 <= v < total ==> OwnedBySome(owned, v)
  {
    forall n, k | 0 <= n < |lists| && 0 <= k < |lists[n]| ensures 0 <= lists[n][k] < total {
      assert ListOf(lists[n], owned[n], total) && lists[n][k] in lists[n];
    }
    forall n | 0 <= n < |lists| ensures Distinct(lists[n]) {
      assert ListOf(lists[n], owned[n], total);
    }
    forall v | 0 <= v < total ensures Listed(lists, v) <==> OwnedBySome(owned, v) {
      if Listed(lists, v) {
        var n :| 0 <= n < |lists| && v in lists[n];
        assert ListOf(lists[n], owned[n], total);
      }
      if OwnedBySome(owned, v) {
        var n :| 0 <= n < |owned| && owned[n](v);
        assert ListOf(lists[n], owned[n], total);
      }
    }
  }
}
