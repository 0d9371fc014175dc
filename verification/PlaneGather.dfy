/** All ranks together: however the plane's points are spread over ranks, the gathered samples are in plane order. */
module PlaneGather {
  import opened Compaction
  import opened Offsets
  import opened Redundancy
  import opened SamplePlane

  /** Of the ranks that list a sample point, the first keeps it on the plane's first row and first column; elsewhere the
      last one does. */
  function SampleKeepFirst(nx: nat): int -> bool
    requires nx > 0
  {
    v => v < nx || v % nx == 0
  }

  /** Every listed index belongs to the plane. */
  ghost predicate InPlane(lists: seq<seq<int>>, total: nat) {
    forall n, k :: 0 <= n < |lists| && 0 <= k < |lists[n]| ==> 0 <= lists[n][k] < total
  }

  ghost predicate Distinct(m: seq<int>) { forall i, j :: 0 <= i < j < |m| ==> m[i] != m[j] }

  ghost predicate Listed(lists: seq<seq<int>>, v: int) { exists n :: 0 <= n < |lists| && v in lists[n] }

  /** No rank lists a point twice and every point of the plane is listed by some rank. Ranks may overlap. */
  ghost predicate Covers(lists: seq<seq<int>>, total: nat) {
    && InPlane(lists, total)
    && (forall n :: 0 <= n < |lists| ==> Distinct(lists[n]))
    && (forall v :: 0 <= v < total ==> Listed(lists, v))
  }

  ghost function Displ(lists: seq<seq<int>>): (d: seq<nat>)
    ensures |d| == |lists| + 1 && forall n :: 0 <= n <= |lists| ==> d[n] == PrefixSum(Lengths(lists), n)
  {
    seq(|lists| + 1, n requires 0 <= n <= |lists| => PrefixSum(Lengths(lists), n))
  }

  lemma DisplOrdered(lists: seq<seq<int>>)
    ensures Displacements(Displ(lists), |Flatten(lists)|)
  {
    PrefixSumsOrdered(Lengths(lists));
    FlattenLength(lists, |lists|);
    assert lists[..|lists|] == lists;
  }

  lemma DisplOf(lists: seq<seq<int>>)
    ensures Displacements(Displ(lists), |Flatten(lists)|)
    ensures forall n :: 0 <= n < |lists| ==> Stretch(Flatten(lists), Displ(lists), n) == lists[n]
  {
    DisplOrdered(lists);
    forall n | 0 <= n < |lists| ensures Stretch(Flatten(lists), Displ(lists), n) == lists[n] {
      FlattenAt(lists, n);
    }
  }

  /** The gathered list after flagging. */
  ghost function FlagsOf(s: seq<int>, ends: seq<nat>, keepFirst: int -> bool): seq<int>
    requires |s| == |ends|
  {
    seq(|s|, p requires 0 <= p < |s| => if Redundant(s, ends, keepFirst, p, |s|) then -1 else s[p])
  }

  ghost function Flags(lists: seq<seq<int>>, keepFirst: int -> bool): (f: seq<int>)
    ensures |f| == |Flatten(lists)|
  {
    DisplOf(lists);
    FlagsOf(Flatten(lists), Ends(Displ(lists), |Flatten(lists)|), keepFirst)
  }

  /** Where position k of rank r's list stands in the gathered list. */
  lemma PlaceOf(lists: seq<seq<int>>, r: nat, k: nat) returns (at: nat)
    requires r < |lists| && k < |lists[r]|
    ensures Displacements(Displ(lists), |Flatten(lists)|)
    ensures at == Displ(lists)[r] + k < Displ(lists)[r + 1] <= |Flatten(lists)| && Flatten(lists)[at] == lists[r][k]
    ensures Ends(Displ(lists), |Flatten(lists)|)[at] == Displ(lists)[r + 1]
  {
    DisplOf(lists);
    at := PlaceIn(Flatten(lists), Displ(lists), lists[r], r, k);
  }

  lemma PlaceIn(s: seq<int>, displ: seq<nat>, list: seq<int>, r: nat, k: nat) returns (at: nat)
    requires Displacements(displ, |s|) && r + 1 < |displ| && Stretch(s, displ, r) == list && k < |list|
    ensures at == displ[r] + k < displ[r + 1] <= |s| && s[at] == list[k] && Ends(displ, |s|)[at] == displ[r + 1]
  {
    at := displ[r] + k;
    EndOfList(displ, |s|, at, r, |displ| - 1);
  }

  /** The rank and place of a position of the gathered list. */
  lemma RankPlace(lists: seq<seq<int>>, at: nat) returns (r: nat, k: nat)
    requires at < |Flatten(lists)|
    ensures r < |lists| && k < |lists[r]| && at == Displ(lists)[r] + k && lists[r][k] == Flatten(lists)[at]
  {
    DisplOf(lists);
    r, k := RankIn(Flatten(lists), Displ(lists), at);
  }

  lemma RankIn(s: seq<int>, displ: seq<nat>, at: nat) returns (r: nat, k: nat)
    requires Displacements(displ, |s|) && at < |s|
    ensures r + 1 < |displ| && at == displ[r] + k && k < |Stretch(s, displ, r)| && Stretch(s, displ, r)[k] == s[at]
  {
    r := RankOf(displ, |s|, at, |displ| - 1);
    k := at - displ[r];
  }

  /** A rank with number from lo to hi - 1 lists v. */
  ghost predicate ListedBetween(lists: seq<seq<int>>, v: int, lo: nat, hi: nat) {
    exists n :: lo <= n < hi && n < |lists| && v in lists[n]
  }

  /** Who keeps a point: the first rank that lists it where keepFirst says so, and the last one otherwise. */
  lemma KeeperIs(lists: seq<seq<int>>, keepFirst: int -> bool, r: nat, k: nat)
    requires r < |lists| && k < |lists[r]| && lists[r][k] >= 0
    ensures Displ(lists)[r] + k < |Flags(lists, keepFirst)|
    ensures var v := lists[r][k];
      Flags(lists, keepFirst)[Displ(lists)[r] + k] == v <==>
        if keepFirst(v) then !ListedBetween(lists, v, 0, r) else !ListedBetween(lists, v, r + 1, |lists|)
  {
    var v, s, d := lists[r][k], Flatten(lists), Displ(lists);
    var at := PlaceOf(lists, r, k);
    var ends := Ends(d, |s|);
    if keepFirst(v) {
      if ListedBetween(lists, v, 0, r) {
        var n :| 0 <= n < r && n < |lists| && v in lists[n];
        var m :| 0 <= m < |lists[n]| && lists[n][m] == v;
        var i := PlaceOf(lists, n, m);
        assert d[n + 1] <= d[r];
        assert ends[i] <= at && s[i] == s[at];
      } else if i :| 0 <= i < |s| && ends[i] <= at && s[i] == s[at] {
        EarlierRank(lists, i, r, k);
      }
    } else {
      if ListedBetween(lists, v, r + 1, |lists|) {
        var n :| r + 1 <= n < |lists| && v in lists[n];
        var m :| 0 <= m < |lists[n]| && lists[n][m] == v;
        var j := PlaceOf(lists, n, m);
        assert d[r + 1] <= d[n];
        assert ends[at] <= j < |s| && s[j] == s[at];
      } else if j :| ends[at] <= j < |s| && s[j] == s[at] {
        LaterRank(lists, j, r, k);
      }
    }
  }

  lemma OrderOf(displ: seq<nat>, total: nat, m: nat, n: nat)
    requires Displacements(displ, total) && m < |displ| && n < |displ|
    ensures m <= n ==> displ[m] <= displ[n]
  {}

  lemma EarlierRank(lists: seq<seq<int>>, i: nat, r: nat, k: nat)
    requires r < |lists| && k < |lists[r]| && i < |Flatten(lists)| && Flatten(lists)[i] == lists[r][k]
    requires Displacements(Displ(lists), |Flatten(lists)|)
    requires Ends(Displ(lists), |Flatten(lists)|)[i] <= Displ(lists)[r] + k
    ensures ListedBetween(lists, lists[r][k], 0, r)
  {
    var n, m := RankPlace(lists, i);
    var at := PlaceOf(lists, n, m);
    OrderOf(Displ(lists), |Flatten(lists)|, r + 1, n + 1);
    assert lists[n][m] in lists[n];
  }

  lemma LaterRank(lists: seq<seq<int>>, j: nat, r: nat, k: nat)
    requires r < |lists| && k < |lists[r]| && Displ(lists)[r + 1] <= j < |Flatten(lists)|
    requires Flatten(lists)[j] == lists[r][k]
    ensures ListedBetween(lists, lists[r][k], r + 1, |lists|)
  {
    var n, m := RankPlace(lists, j);
    DisplOf(lists);
    OrderOf(Displ(lists), |Flatten(lists)|, n + 1, r + 1);
    assert lists[n][m] in lists[n];
  }

  /** On the sample plane: points of the first row and of the first column stay with the first rank that lists them, all
      others with the last. */
  lemma SampleKeeper(lists: seq<seq<int>>, nx: nat, total: nat, r: nat, k: nat)
    requires nx > 0 && InPlane(lists, total) && r < |lists| && k < |lists[r]|
    ensures Displ(lists)[r] + k < |Flags(lists, SampleKeepFirst(nx))|
    ensures var v := lists[r][k];
      Flags(lists, SampleKeepFirst(nx))[Displ(lists)[r] + k] == v <==>
        if v < nx || v % nx == 0 then !ListedBetween(lists, v, 0, r) else !ListedBetween(lists, v, r + 1, |lists|)
  {
    KeeperIs(lists, SampleKeepFirst(nx), r, k);
  }

  /** Allgather of the counts, displacements, Allgatherv of the lists, and the flagging loops. */
  method GatherAndFlag(lists: seq<seq<int>>, keepFirst: int -> bool, ghost total: nat)
    returns (a: array<int>, displ: array<nat>, distrib: array<nat>)
    requires keepFirst(-1) && InPlane(lists, total)
    ensures fresh(a) && fresh(displ) && fresh(distrib) && displ != distrib && a as object != displ
    ensures a as object != distrib
    ensures a[..] == Flags(lists, keepFirst) && displ[..] == Displ(lists) && distrib.Length == |lists|
  {
    a, displ, distrib := GatherLists(lists);
    DisplOf(lists);
    FlattenRange(lists, 0, total);
    assert forall i :: 0 <= i < a.Length ==> a[i] == Flatten(lists)[i];
    FlagRedundant(a, displ[..], keepFirst);
    FlagsAreFlags(a[..], lists, keepFirst);
  }

  lemma FlagsAreFlags(now: seq<int>, lists: seq<seq<int>>, keepFirst: int -> bool)
    requires Displacements(Displ(lists), |Flatten(lists)|)
    requires var s := Flatten(lists); FlaggedUpTo(now, s, Ends(Displ(lists), |s|), keepFirst, |s|)
    ensures now == Flags(lists, keepFirst)
  {}

  /** Allgather of the counts, displacements, and Allgatherv of the lists. */
  method GatherLists(lists: seq<seq<int>>) returns (a: array<int>, displ: array<nat>, distrib: array<nat>)
    ensures fresh(a) && fresh(displ) && fresh(distrib) && displ != distrib && a as object != displ
    ensures a as object != distrib
    ensures a[..] == Flatten(lists) && displ[..] == Displ(lists) && distrib.Length == |lists|
  {
    var s := Flatten(lists);
    a := new int[|s|](i requires 0 <= i < |s| => s[i]);
    distrib := new nat[|lists|](n requires 0 <= n < |lists| => |lists[n]|);
    displ := new nat[|lists| + 1](_ => 0);
    assert distrib[..] == Lengths(lists);
    BuildDisplacements(displ, distrib[..]);
    assert displ[..] == Displ(lists);
  }

  lemma {:induction false} FlattenRange(lists: seq<seq<int>>, low: int, high: int)
    requires forall n, k :: 0 <= n < |lists| && 0 <= k < |lists[n]| ==> low <= lists[n][k] < high
    ensures forall i :: 0 <= i < |Flatten(lists)| ==> low <= Flatten(lists)[i] < high
  {
    if lists != [] {
      var m := |lists| - 1;
      var head := lists[..m];
      forall n, k | 0 <= n < |head| && 0 <= k < |head[n]| ensures low <= head[n][k] < high {
        assert head[n] == lists[n];
      }
      FlattenRange(head, low, high);
      assert forall k :: 0 <= k < |lists[m]| ==> low <= lists[m][k] < high;
    }
  }

  /** What one rank holds after the removal, given the flags. */
  ghost predicate HeldBy<Node>(flags: seq<int>, displ: seq<nat>, nodes: seq<Node>, myrank: nat,
                               indexMap: seq<int>, counts: seq<nat>, newDispl: seq<nat>, nodeMap: seq<Node>) {
    && Displacements(displ, |flags|) && |newDispl| == |displ| == |counts| + 1 && myrank < |counts|
    && indexMap == Keep(flags, flags)
    && (forall n :: 0 <= n < |counts| ==> counts[n] == KeptOf(flags, displ, n))
    && (forall n :: 0 <= n <= |counts| ==> newDispl[n] == PrefixSum(counts, n))
    && |nodes| == |Stretch(flags, displ, myrank)| && nodeMap == Keep(Stretch(flags, displ, myrank), nodes)
  }

  method RemoveForRank<Node>(a: array<int>, displ: array<nat>, distrib: array<nat>, nodes: seq<Node>, myrank: nat)
    returns (indexMap: seq<int>, counts: seq<nat>, newDispl: seq<nat>, nodeMap: seq<Node>)
    requires Displacements(displ[..], a.Length) && distrib.Length == displ.Length - 1 && myrank < distrib.Length
    requires |nodes| == displ[myrank + 1] - displ[myrank]
    requires displ != distrib && a as object != displ && a as object != distrib
    modifies a, displ, distrib
    ensures HeldBy(old(a[..]), old(displ[..]), nodes, myrank, indexMap, counts, newDispl, nodeMap)
  {
    var local := new Node[|nodes|](i requires 0 <= i < |nodes| => nodes[i]);
    assert local[..] == nodes;
    indexMap, counts, newDispl, nodeMap := RemoveLocal(a, displ, distrib, local, myrank);
  }

  method RemoveLocal<Node>(a: array<int>, displ: array<nat>, distrib: array<nat>, local: array<Node>, myrank: nat)
    returns (indexMap: seq<int>, counts: seq<nat>, newDispl: seq<nat>, nodeMap: seq<Node>)
    requires Displacements(displ[..], a.Length) && distrib.Length == displ.Length - 1 && myrank < distrib.Length
    requires local.Length == displ[myrank + 1] - displ[myrank]
    requires displ != distrib && a as object != displ && a as object != distrib && a as object != local
    requires local as object != displ && local as object != distrib
    modifies a, displ, distrib, local
    ensures HeldBy(old(a[..]), old(displ[..]), old(local[..]), myrank, indexMap, counts, newDispl, nodeMap)
  {
    ghost var flags, d, nodes := a[..], displ[..], local[..];
    RemoveRedundant(a, displ, distrib, local, myrank);
    counts, newDispl := distrib[..], displ[..];
    HeldNow(flags, d, nodes, myrank, a[..], counts, newDispl, local[..]);
    indexMap, nodeMap := a[..displ[distrib.Length]], local[..distrib[myrank]];
  }

  lemma HeldNow<Node>(flags: seq<int>, displ: seq<nat>, nodes: seq<Node>, myrank: nat,
                      now: seq<int>, counts: seq<nat>, newDispl: seq<nat>, local: seq<Node>)
    requires Displacements(displ, |flags|) && |newDispl| == |displ| == |counts| + 1 && myrank < |counts|
    requires |nodes| == |Stretch(flags, displ, myrank)|
    requires Compacting(now, flags, 0, 0, flags, |flags|) && newDispl[|counts|] == KeptSoFar(flags, |flags|)
    requires forall n :: 0 <= n < |counts| ==> counts[n] == KeptOf(flags, displ, n)
    requires forall n :: 0 <= n <= |counts| ==> newDispl[n] == PrefixSum(counts, n)
    requires Compacting(local, nodes, 0, 0, Stretch(flags, displ, myrank), |Stretch(flags, displ, myrank)|)
    ensures newDispl[|counts|] <= |now| && counts[myrank] <= |local|
    ensures HeldBy(flags, displ, nodes, myrank, now[..newDispl[|counts|]], counts, newDispl, local[..counts[myrank]])
  {
    CompactedList(now, flags, flags);
    CompactedList(local, nodes, Stretch(flags, displ, myrank));
  }

  /** What initialize leaves on one rank. */
  method InitializeRank<Node>(lists: seq<seq<int>>, nodes: seq<Node>, myrank: nat, nx: nat, ghost total: nat)
    returns (indexMap: seq<int>, counts: seq<nat>, displ: seq<nat>, nodeMap: seq<Node>)
    requires nx > 0 && myrank < |lists| && |nodes| == |lists[myrank]|
    requires InPlane(lists, total)
    ensures HeldBy(Flags(lists, SampleKeepFirst(nx)), Displ(lists), nodes, myrank, indexMap, counts, displ, nodeMap)
  {
    var a, offsets, distrib := GatherAndFlag(lists, SampleKeepFirst(nx), total);
    DisplOf(lists);
    assert |Stretch(Flatten(lists), Displ(lists), myrank)| == |lists[myrank]|;
    indexMap, counts, displ, nodeMap := RemoveForRank(a, offsets, distrib, nodes, myrank);
  }

  lemma CompactedList<T>(now: seq<T>, was: seq<T>, flags: seq<int>)
    requires |flags| == |was| && Compacting(now, was, 0, 0, flags, |flags|)
    ensures KeptSoFar(flags, |flags|) == |Keep(flags, was)| <= |now|
    ensures now[..KeptSoFar(flags, |flags|)] == Keep(flags, was)
  {
    assert flags[..|flags|] == flags && was[0..0 + |flags|] == was;
    KeepSize(flags, flags, was);
  }

  ghost predicate Permutation(m: seq<int>, total: nat) {
    |m| == total && (forall k :: 0 <= k < |m| ==> 0 <= m[k] < total) && Distinct(m) && HasAll(m, total)
  }

  ghost predicate HasAll(m: seq<int>, total: nat) { forall v :: 0 <= v < total ==> v in m }

  /** The rank holding a position. */
  lemma {:induction false} RankOf(displ: seq<nat>, total: nat, i: nat, n: nat) returns (r: nat)
    requires Displacements(displ, total) && n < |displ| && i < displ[n]
    ensures r < n && displ[r] <= i < displ[r + 1]
    decreases n
  {
    if displ[n - 1] <= i { r := n - 1; } else { r := RankOf(displ, total, i, n - 1); }
  }

  lemma StretchesDistinct(s: seq<int>, displ: seq<nat>)
    requires Displacements(displ, |s|) && forall n :: 0 <= n < |displ| - 1 ==> Distinct(Stretch(s, displ, n))
    ensures DistinctWithin(s, Ends(displ, |s|))
  {
    var ends := Ends(displ, |s|);
    forall i, j | 0 <= i < j < |s| && j < ends[i] ensures s[i] != s[j] {
      var n := RankOf(displ, |s|, i, |displ| - 1);
      EndOfList(displ, |s|, i, n, |displ| - 1);
      var r := Stretch(s, displ, n);
      assert Distinct(r) && r[i - displ[n]] == s[i] && r[j - displ[n]] == s[j];
    }
  }

  /** A covering of the plane, as one gathered list. */
  lemma FlatFacts(lists: seq<seq<int>>, total: nat)
    requires Covers(lists, total)
    ensures Displacements(Displ(lists), |Flatten(lists)|) && HasAll(Flatten(lists), total)
    ensures DistinctWithin(Flatten(lists), Ends(Displ(lists), |Flatten(lists)|))
    ensures forall i :: 0 <= i < |Flatten(lists)| ==> 0 <= Flatten(lists)[i] < total
  {
    DisplOf(lists);
    FlattenRange(lists, 0, total);
    StretchesDistinct(Flatten(lists), Displ(lists));
    forall v | 0 <= v < total ensures v in Flatten(lists) {
      assert Listed(lists, v);
      var n :| 0 <= n < |lists| && v in lists[n];
      InFlatten(lists, n, v);
    }
  }

  lemma InFlatten(lists: seq<seq<int>>, n: nat, v: int)
    requires n < |lists| && v in lists[n]
    ensures v in Flatten(lists)
  {
    FlattenAt(lists, n);
    var lo, hi := PrefixSum(Lengths(lists), n), PrefixSum(Lengths(lists), n + 1);
    assert v in Flatten(lists)[lo..hi];
  }

  lemma FlagsOfRule(s: seq<int>, ends: seq<nat>, keepFirst: int -> bool)
    requires |s| == |ends| && forall i :: 0 <= i < |s| ==> s[i] >= 0 && i < ends[i]
    ensures FlaggedUpTo(FlagsOf(s, ends, keepFirst), s, ends, keepFirst, |s|)
  {}

  /** Each point of the plane stands unflagged at exactly one position. */
  ghost predicate OnceEach(flags: seq<int>, total: nat) {
    && HasAll(flags, total) && (forall p :: 0 <= p < |flags| ==> -1 <= flags[p] < total)
    && (forall p, q :: 0 <= p < q < |flags| && flags[p] >= 0 ==> flags[p] != flags[q])
  }

  lemma FlagsOnce(flags: seq<int>, s: seq<int>, ends: seq<nat>, keepFirst: int -> bool, total: nat)
    requires FlaggedUpTo(flags, s, ends, keepFirst, |s|) && DistinctWithin(s, ends) && HasAll(s, total)
    requires forall i :: 0 <= i < |s| ==> 0 <= s[i] < total
    ensures OnceEach(flags, total)
  {
    forall p | 0 <= p < |flags| ensures -1 <= flags[p] < total && (flags[p] == -1 || flags[p] == s[p]) {}
    forall p, q | 0 <= p < q < |flags| && flags[p] >= 0 ensures flags[p] != flags[q] {
      if s[p] == s[q] { SurvivorUnique(flags, s, ends, keepFirst, p, q); }
    }
    forall v | 0 <= v < total ensures v in flags {
      assert v in s;
      var p :| 0 <= p < |s| && s[p] == v;
      SurvivorExists(flags, s, ends, keepFirst, p);
    }
  }

  /** What is kept is then a permutation of the plane. */
  lemma KeptPermutation(flags: seq<int>, total: nat)
    requires OnceEach(flags, total)
    ensures Permutation(Keep(flags, flags), total)
  {
    var m, at := Keep(flags, flags), Positions(flags);
    KeepAt(flags, flags);
    forall i, j | 0 <= i < j < |m| ensures m[i] != m[j] {
      assert at[i] < at[j];
    }
    forall v | 0 <= v < total ensures v in m {
      assert v in flags;
      var q :| 0 <= q < |flags| && flags[q] == v;
      assert q in at;
      var k :| 0 <= k < |at| && at[k] == q;
      assert m[k] == v;
    }
    AllOnce(m, total);
  }

  /** After the removal the global index map is a permutation of the plane's points, for every overlap of the ranks. */
  lemma MapIsPermutation(lists: seq<seq<int>>, keepFirst: int -> bool, total: nat)
    requires Covers(lists, total)
    ensures var flags := Flags(lists, keepFirst); Permutation(Keep(flags, flags), total)
  {
    FlatFacts(lists, total);
    var s := Flatten(lists);
    var ends := Ends(Displ(lists), |s|);
    FlagsOfRule(s, ends, keepFirst);
    FlagsOnce(Flags(lists, keepFirst), s, ends, keepFirst, total);
    KeptPermutation(Flags(lists, keepFirst), total);
  }

  /** A list of distinct numbers below total that has them all has length total. */
  lemma AllOnce(m: seq<int>, total: nat)
    requires Distinct(m) && HasAll(m, total) && forall k :: 0 <= k < |m| ==> 0 <= m[k] < total
    ensures |m| == total
  {
    var S := set x | x in m;
    assert S == Below(total);
    DistinctSize(m);
  }

  ghost function Below(n: nat): (R: set<int>)
    ensures |R| == n && forall x :: x in R <==> 0 <= x < n
  {
    if n == 0 then {} else Below(n - 1) + {n - 1}
  }

  lemma {:induction false} DistinctSize(m: seq<int>)
    requires Distinct(m)
    ensures |set x | x in m| == |m|
  {
    if m != [] {
      var n := |m| - 1;
      DistinctSize(m[..n]);
      var S, T := set x | x in m, set x | x in m[..n];
      assert m == m[..n] + [m[n]];
      assert S == T + {m[n]};
    }
  }
}
