/** Dropping flagged entries from lists in place, and what survives. */
module Compaction {

  /** The entries of t whose flag is not negative, in order. */
  function Keep<T>(flags: seq<int>, t: seq<T>): (k: seq<T>)
    requires |flags| == |t|
    ensures |k| <= |t|
  {
    if flags == [] then []
    else
      var n := |flags| - 1;
      Keep(flags[..n], t[..n]) + (if flags[n] >= 0 then [t[n]] else [])
  }

  lemma KeepNext<T>(flags: seq<int>, t: seq<T>, i: nat)
    requires i < |flags| == |t|
    ensures Keep(flags[..i + 1], t[..i + 1]) == Keep(flags[..i], t[..i]) + (if flags[i] >= 0 then [t[i]] else [])
  {
    assert flags[..i + 1][..i] == flags[..i] && t[..i + 1][..i] == t[..i];
  }

  lemma KeepLast<T>(f: seq<int>, t: seq<T>, f0: seq<int>, t0: seq<T>)
    requires |f| == |t| == |f0| + 1 == |t0| + 1 && f0 == f[..|f| - 1] && t0 == t[..|t| - 1]
    ensures Keep(f, t) == Keep(f0, t0) + (if f[|f| - 1] >= 0 then [t[|t| - 1]] else [])
  {}

  lemma {:induction false} KeepConcat<T>(f: seq<int>, g: seq<int>, t: seq<T>, u: seq<T>)
    requires |f| == |t| && |g| == |u|
    ensures Keep(f + g, t + u) == Keep(f, t) + Keep(g, u)
    decreases |g|
  {
    if g == [] {
      assert f + g == f && t + u == t;
    } else {
      var n := |g| - 1;
      KeepConcat(f, g[..n], t, u[..n]);
      KeepLast(f + g, t + u, f + g[..n], t + u[..n]);
      KeepLast(g, u, g[..n], u[..n]);
    }
  }

  lemma {:induction false} KeepSize<T, U>(flags: seq<int>, t: seq<T>, u: seq<U>)
    requires |flags| == |t| == |u|
    ensures |Keep(flags, t)| == |Keep(flags, u)|
  {
    if flags != [] {
      var n := |flags| - 1;
      KeepSize(flags[..n], t[..n], u[..n]);
    }
  }

  /** Where each kept entry comes from: one position for all lists kept by the same flags. */
  ghost function Positions(flags: seq<int>): (s: seq<nat>)
    ensures forall k :: 0 <= k < |s| ==> s[k] < |flags| && flags[s[k]] >= 0
    ensures forall i, j :: 0 <= i < j < |s| ==> s[i] < s[j]
    ensures forall p :: 0 <= p < |flags| && flags[p] >= 0 ==> p in s
  {
    if flags == [] then []
    else
      var n := |flags| - 1;
      Positions(flags[..n]) + (if flags[n] >= 0 then [n] else [])
  }

  lemma {:induction false} KeepAt<T>(flags: seq<int>, t: seq<T>)
    requires |flags| == |t|
    ensures |Keep(flags, t)| == |Positions(flags)|
    ensures forall k :: 0 <= k < |Keep(flags, t)| ==> Keep(flags, t)[k] == t[Positions(flags)[k]]
  {
    if flags != [] {
      var n := |flags| - 1;
      KeepAt(flags[..n], t[..n]);
      KeepLast(flags, t, flags[..n], t[..n]);
      var head, at := Keep(flags[..n], t[..n]), Positions(flags[..n]);
      forall k | 0 <= k < |head| ensures head[k] == t[at[k]] {
        assert head[k] == t[..n][at[k]];
      }
    }
  }

  /** A list being compacted: the kept ones among its first i entries after lo have moved to count, the entries not yet
      looked at are in place. */
  ghost predicate Compacting<T>(now: seq<T>, was: seq<T>, lo: nat, count: nat, flags: seq<int>, i: nat) {
    && count <= lo && i <= |flags| && lo + |flags| <= |was| == |now|
    && var kept := Keep(flags[..i], was[lo..lo + i]);
       now[..count + |kept|] == was[..count] + kept && now[lo + i..] == was[lo + i..]
  }

  ghost function KeptSoFar(flags: seq<int>, i: nat): nat
    requires i <= |flags|
  {
    |Keep(flags[..i], flags[..i])|
  }

  lemma CompactStep<T>(now: seq<T>, next: seq<T>, was: seq<T>, lo: nat, count: nat, flags: seq<int>, i: nat)
    requires Compacting(now, was, lo, count, flags, i) && i < |flags|
    requires KeptSoFar(flags, i) <= i
    requires next == if flags[i] >= 0 then now[count + KeptSoFar(flags, i) := now[lo + i]] else now
    ensures Compacting(next, was, lo, count, flags, i + 1)
  {
    var t, kept := was[lo..lo + |flags|], KeptSoFar(flags, i);
    assert t[..i] == was[lo..lo + i] && t[..i + 1] == was[lo..lo + i + 1];
    KeepNext(flags, t, i);
    KeepSize(flags[..i], flags[..i], was[lo..lo + i]);
    assert now[lo + i..][0] == was[lo + i..][0];
    assert now[lo + i + 1..] == now[lo + i..][1..] && was[lo + i + 1..] == was[lo + i..][1..];
    assert next[lo + i + 1..] == now[lo + i + 1..];
    if flags[i] >= 0 {
      assert next[..count + kept + 1] == now[..count + kept] + [now[lo + i]];
    }
  }

  /** A kept entry moves down to the end of the kept ones. */
  method MoveDown<T>(a: array<T>, lo: nat, count: nat, i: nat, kept: nat, ghost was: seq<T>, ghost flags: seq<int>)
    requires Compacting(a[..], was, lo, count, flags, i) && i < |flags| && kept == KeptSoFar(flags, i)
    requires flags[i] >= 0
    modifies a
    ensures Compacting(a[..], was, lo, count, flags, i + 1)
  {
    ghost var now := a[..];
    a[count + kept] := a[lo + i];
    CompactStep(now, a[..], was, lo, count, flags, i);
  }

  method MoveIf<T>(keep: bool, a: array<T>, lo: nat, count: nat, i: nat, kept: nat, ghost was: seq<T>,
      ghost flags: seq<int>)
    requires Compacting(a[..], was, lo, count, flags, i) && i < |flags| && kept == KeptSoFar(flags, i)
    requires keep == (flags[i] >= 0)
    modifies a
    ensures Compacting(a[..], was, lo, count, flags, i + 1)
  {
    if keep {
      MoveDown(a, lo, count, i, kept, was, flags);
    } else {
      CompactStep(a[..], a[..], was, lo, count, flags, i);
    }
  }

  lemma NextFlag<T>(now: seq<T>, was: seq<T>, lo: nat, count: nat, flags: seq<int>, i: nat)
    requires Compacting(now, was, lo, count, flags, i) && i < |flags|
    ensures KeptSoFar(flags, i + 1) == KeptSoFar(flags, i) + if flags[i] >= 0 then 1 else 0
    ensures now[lo + i] == was[lo + i]
  {
    KeepNext(flags, flags, i);
    assert now[lo + i..][0] == was[lo + i..][0];
  }

  /** One entry of the compaction: kept entries move down in the gathered list and, on this rank, in the node list. */
  method CompactEntry<Node>(a: array<int>, lo: nat, count: nat, ii: nat, kept: nat, nodeMap: array<Node>, mine: bool,
                            ghost s: seq<int>, ghost nodes: seq<Node>, ghost flags: seq<int>) returns (next: nat)
    requires a as object != nodeMap && ii < |flags| && lo + |flags| <= |s| && flags == s[lo..lo + |flags|]
    requires Compacting(a[..], s, lo, count, flags, ii) && kept == KeptSoFar(flags, ii)
    requires mine ==> Compacting(nodeMap[..], nodes, 0, 0, flags, ii)
    modifies a, nodeMap
    ensures Compacting(a[..], s, lo, count, flags, ii + 1) && next == KeptSoFar(flags, ii + 1)
    ensures mine ==> Compacting(nodeMap[..], nodes, 0, 0, flags, ii + 1)
    ensures !mine ==> nodeMap[..] == old(nodeMap[..])
  {
    NextFlag(a[..], s, lo, count, flags, ii);
    var keep := a[lo + ii] >= 0;
    MoveIf(keep, a, lo, count, ii, kept, s, flags);
    if mine {
      MoveIf(keep, nodeMap, 0, 0, ii, kept, nodes, flags);
    }
    next := kept + if keep then 1 else 0;
  }

  /** The compaction of one rank's stretch of the gathered list, and of the node list if the rank is this one. */
  method CompactRank<Node>(a: array<int>, lo: nat, hi: nat, count: nat, nodeMap: array<Node>, mine: bool,
                           ghost flags: seq<int>) returns (kept: nat)
    requires count <= lo <= hi <= a.Length && (mine ==> hi - lo <= nodeMap.Length) && a as object != nodeMap
    requires flags == a[lo..hi]
    modifies a, nodeMap
    ensures Compacting(a[..], old(a[..]), lo, count, flags, hi - lo) && kept == KeptSoFar(flags, hi - lo)
    ensures mine ==> Compacting(nodeMap[..], old(nodeMap[..]), 0, 0, flags, hi - lo)
    ensures !mine ==> nodeMap[..] == old(nodeMap[..])
  {
    ghost var s, nodes := a[..], nodeMap[..];
    kept := 0;
    for ii := 0 to hi - lo
      invariant Compacting(a[..], s, lo, count, flags, ii) && kept == KeptSoFar(flags, ii)
      invariant mine ==> Compacting(nodeMap[..], nodes, 0, 0, flags, ii)
      invariant !mine ==> nodeMap[..] == nodes
    {
      kept := CompactEntry(a, lo, count, ii, kept, nodeMap, mine, s, nodes, flags);
    }
  }
}
