/** The ABL sample plane: rank lists gathered, redundant points removed, and samples put in plane order. */
module SamplePlane {
  import opened Compaction
  import opened Offsets
  import opened Redundancy

  /** displ_ as running sums of the counts. */
  method BuildDisplacements(displ: array<nat>, distrib: seq<nat>)
    requires displ.Length == |distrib| + 1 && displ[0] == 0
    modifies displ
    ensures forall i :: 0 <= i <= |distrib| ==> displ[i] == PrefixSum(distrib, i)
  {
    var i := 1;
    while i < |distrib| + 1
      invariant 1 <= i <= |distrib| + 1
      invariant forall k :: 0 <= k < i ==> displ[k] == PrefixSum(distrib, k)
    {
      displ[i] := displ[i - 1] + distrib[i - 1];
      i := i + 1;
    }
  }

  /** The stretch of the gathered list that came from rank n. */
  ghost function Stretch(s: seq<int>, displ: seq<nat>, n: nat): (r: seq<int>)
    requires Displacements(displ, |s|) && n + 1 < |displ|
    ensures |r| == displ[n + 1] - displ[n]
  {
    s[displ[n]..displ[n + 1]]
  }

  /** How many entries of rank n survive. */
  ghost function KeptOf(flags: seq<int>, displ: seq<nat>, n: nat): nat
    requires Displacements(displ, |flags|) && n + 1 < |displ|
  {
    KeptSoFar(Stretch(flags, displ, n), |Stretch(flags, displ, n)|)
  }

  /** Compacting the next stretch continues the compaction of the whole list. */
  lemma CompactJoin(now: seq<int>, next: seq<int>, s: seq<int>, lo: nat, hi: nat, count: nat)
    requires lo <= hi <= |s| && Compacting(now, s, 0, 0, s, lo) && count == KeptSoFar(s, lo) && count <= lo
    requires Compacting(next, now, lo, count, s[lo..hi], hi - lo)
    ensures Compacting(next, s, 0, 0, s, hi) && KeptSoFar(s, hi) == count + KeptSoFar(s[lo..hi], hi - lo)
  {
    var block := s[lo..hi];
    StretchInPlace(now, s, lo, hi);
    assert block[..hi - lo] == block && s[0..lo] == s[..lo] && s[0..hi] == s[..hi] && s[..hi] == s[..lo] + block;
    KeepConcat(s[..lo], block, s[..lo], block);
    TailsKept(now, next, s, lo, hi);
  }

  lemma TailsKept(now: seq<int>, next: seq<int>, s: seq<int>, lo: nat, hi: nat)
    requires lo <= hi <= |s| == |now| == |next| && now[lo..] == s[lo..] && next[hi..] == now[hi..]
    ensures next[hi..] == s[hi..]
  {
    assert now[hi..] == now[lo..][hi - lo..] == s[lo..][hi - lo..] == s[hi..];
  }

  /** The removal for one rank: its stretch joins what is kept, and this rank's node list follows. */
  method RemoveFromRank<Node>(a: array<int>, displ: seq<nat>, n: nat, count: nat, nodeMap: array<Node>, mine: bool,
                              ghost s: seq<int>) returns (kept: nat)
    requires Displacements(displ, |s|) && n + 1 < |displ|
    requires Compacting(a[..], s, 0, 0, s, displ[n]) && count == KeptSoFar(s, displ[n])
    requires (mine ==> displ[n + 1] - displ[n] <= nodeMap.Length) && a as object != nodeMap
    modifies a, nodeMap
    ensures Compacting(a[..], s, 0, 0, s, displ[n + 1]) && count + kept == KeptSoFar(s, displ[n + 1])
    ensures kept == KeptOf(s, displ, n)
    ensures mine ==> var flags := Stretch(s, displ, n); Compacting(nodeMap[..], old(nodeMap[..]), 0, 0, flags, |flags|)
    ensures !mine ==> nodeMap[..] == old(nodeMap[..])
  {
    ghost var now := a[..];
    StretchInPlace(now, s, displ[n], displ[n + 1]);
    kept := CompactRank(a, displ[n], displ[n + 1], count, nodeMap, mine, Stretch(s, displ, n));
    RankJoined(now, a[..], s, displ, n, count, kept);
  }

  lemma RankJoined(now: seq<int>, next: seq<int>, s: seq<int>, displ: seq<nat>, n: nat, count: nat, kept: nat)
    requires Displacements(displ, |s|) && n + 1 < |displ| && Compacting(now, s, 0, 0, s, displ[n])
    requires count == KeptSoFar(s, displ[n]) && count <= displ[n]
    requires var f := Stretch(s, displ, n); Compacting(next, now, displ[n], count, f, |f|) && kept == KeptSoFar(f, |f|)
    ensures Compacting(next, s, 0, 0, s, displ[n + 1]) && count + kept == KeptSoFar(s, displ[n + 1])
    ensures kept == KeptOf(s, displ, n)
  {
    CompactJoin(now, next, s, displ[n], displ[n + 1], count);
  }

  /** The loop over the ranks. */
  method RemoveFromAll<Node>(a: array<int>, displ: seq<nat>, distrib: array<nat>, nodeMap: array<Node>, myrank: nat)
    requires Displacements(displ, a.Length) && distrib.Length == |displ| - 1 && myrank < distrib.Length
    requires displ[myrank + 1] - displ[myrank] <= nodeMap.Length
    requires a as object != nodeMap && a as object != distrib && nodeMap as object != distrib
    modifies a, distrib, nodeMap
    ensures Compacting(a[..], old(a[..]), 0, 0, old(a[..]), a.Length)
    ensures forall n :: 0 <= n < distrib.Length ==> distrib[n] == KeptOf(old(a[..]), displ, n)
    ensures PrefixSum(distrib[..], distrib.Length) == KeptSoFar(old(a[..]), a.Length)
    ensures var flags := Stretch(old(a[..]), displ, myrank);
      Compacting(nodeMap[..], old(nodeMap[..]), 0, 0, flags, |flags|)
  {
    ghost var s, nodes, counts: seq<nat> := a[..], nodeMap[..], [];
    var count := 0;
    for n := 0 to distrib.Length
      invariant Compacting(a[..], s, 0, 0, s, displ[n]) && count == KeptSoFar(s, displ[n])
      invariant distrib[..n] == counts && count == PrefixSum(counts, n)
      invariant forall m :: 0 <= m < n ==> counts[m] == KeptOf(s, displ, m)
      invariant n <= myrank ==> nodeMap[..] == nodes
      invariant n > myrank ==> var flags := Stretch(s, displ, myrank); Compacting(nodeMap[..], nodes, 0, 0, flags,
        |flags|)
    {
      var kept := RemoveFromRank(a, displ, n, count, nodeMap, n == myrank, s);
      count := count + kept;
      distrib[n] := kept;
      PrefixSumPart(counts + [kept], n, n);
      assert (counts + [kept])[..n] == counts;
      counts := counts + [kept];
    }
    assert distrib[..] == counts;
  }

  /** The removal loops and the rebuilding of the displacements. */
  method RemoveRedundant<Node>(a: array<int>, displ: array<nat>, distrib: array<nat>, nodeMap: array<Node>, myrank: nat)
    requires Displacements(displ[..], a.Length) && distrib.Length == displ.Length - 1 && myrank < distrib.Length
    requires displ[myrank + 1] - displ[myrank] <= nodeMap.Length
    requires displ != distrib && a as object != nodeMap && a as object != displ && a as object != distrib
    requires nodeMap as object != displ && nodeMap as object != distrib
    modifies a, displ, distrib, nodeMap
    ensures Compacting(a[..], old(a[..]), 0, 0, old(a[..]), a.Length)
    ensures forall n :: 0 <= n < distrib.Length ==> distrib[n] == KeptOf(old(a[..]), old(displ[..]), n)
    ensures forall i :: 0 <= i <= distrib.Length ==> displ[i] == PrefixSum(distrib[..], i)
    ensures displ[distrib.Length] == KeptSoFar(old(a[..]), a.Length)
    ensures var flags := Stretch(old(a[..]), old(displ[..]), myrank);
      Compacting(nodeMap[..], old(nodeMap[..]), 0, 0, flags, |flags|)
  {
    RemoveFromAll(a, displ[..], distrib, nodeMap, myrank);
    BuildDisplacements(displ, distrib[..]);
  }

  lemma StretchInPlace(now: seq<int>, s: seq<int>, lo: nat, hi: nat)
    requires lo <= hi <= |s| && Compacting(now, s, 0, 0, s, lo)
    ensures now[lo..hi] == s[lo..hi] && KeptSoFar(s, lo) <= lo
  {
    assert now[lo..hi] == now[0 + lo..][..hi - lo] == s[0 + lo..][..hi - lo];
  }
}
