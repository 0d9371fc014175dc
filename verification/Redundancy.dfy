/** Points listed by several ranks: flagging the redundant ones so that each point survives on exactly one rank. */
module Redundancy {

  /** displ_: where each rank's list starts in the gathered list, and where the last one ends. */
  ghost predicate Displacements(displ: seq<nat>, total: nat) {
    && |displ| > 0 && displ[0] == 0 && displ[|displ| - 1] == total
    && forall m, n :: 0 <= m <= n < |displ| ==> displ[m] <= displ[n]
  }

  /** The end of the list that position i belongs to. */
  ghost function EndOf(displ: seq<nat>, i: nat, n: nat): (e: nat)
    requires n < |displ| && displ[0] == 0 && i < displ[n]
    ensures i < e
  {
    if displ[n - 1] <= i then displ[n] else EndOf(displ, i, n - 1)
  }

  lemma {:induction false} EndOfList(displ: seq<nat>, total: nat, i: nat, m: nat, n: nat)
    requires Displacements(displ, total) && m < n < |displ| && displ[m] <= i < displ[m + 1]
    ensures EndOf(displ, i, n) == displ[m + 1]
    decreases n
  {
    if m + 1 < n { EndOfList(displ, total, i, m, n - 1); }
  }

  ghost function Ends(displ: seq<nat>, total: nat): (ends: seq<nat>)
    requires Displacements(displ, total)
    ensures |ends| == total && forall i :: 0 <= i < total ==> i < ends[i] == EndOf(displ, i, |displ| - 1)
  {
    seq(total, i requires 0 <= i < total && Displacements(displ, total) => EndOf(displ, i, |displ| - 1))
  }

  /** Whether position p is redundant once the positions before limit have been looked at. Of several lists that share a
      point, the first keeps it where keepFirst says so, and the last keeps it otherwise. */
  ghost predicate Redundant(s: seq<int>, ends: seq<nat>, keepFirst: int -> bool, p: nat, limit: nat)
    requires p < |s| == |ends| && limit <= |s|
  {
    if keepFirst(s[p])
    then exists i :: 0 <= i < limit && ends[i] <= p && s[i] == s[p]
    else p < limit && exists j :: ends[p] <= j < |s| && s[j] == s[p]
  }

  ghost predicate FlaggedUpTo(now: seq<int>, s: seq<int>, ends: seq<nat>, keepFirst: int -> bool, limit: nat) {
    && |now| == |s| == |ends| && limit <= |s| && (forall i :: 0 <= i < |s| ==> s[i] >= 0 && i < ends[i])
    && forall p :: 0 <= p < |s| ==> now[p] == if Redundant(s, ends, keepFirst, p, limit) then -1 else s[p]
  }

  /** The effect of comparing position i with all positions from `from` on. */
  ghost predicate Compared(before: seq<int>, after: seq<int>, keepFirst: int -> bool, i: nat, from: nat) {
    && i < from <= |before| == |after|
    && (keepFirst(before[i]) ==>
          forall p :: 0 <= p < |before| ==> after[p] == if from <= p && before[p] == before[i] then -1 else before[p])
    && (!keepFirst(before[i]) ==>
          && after[i] == (if exists j :: from <= j < |before| && before[j] == before[i] then -1 else before[i])
          && forall p :: 0 <= p < |before| && p != i ==> after[p] == before[p])
  }

  /** The innermost flagging loop. */
  method Compare(a: array<int>, i: nat, from: nat, keepFirst: int -> bool)
    requires i < from <= a.Length && keepFirst(-1) && forall p :: 0 <= p < a.Length ==> a[p] >= -1
    modifies a
    ensures Compared(old(a[..]), a[..], keepFirst, i, from)
  {
    ghost var s := a[..];
    var j := from;
    while j < a.Length
      invariant from <= j <= a.Length
      invariant forall p :: 0 <= p < a.Length && p != i && !(from <= p < j) ==> a[p] == s[p]
      invariant keepFirst(s[i]) ==> a[i] == s[i]
      invariant keepFirst(s[i]) ==> forall p :: from <= p < j ==> a[p] == if s[p] == s[i] then -1 else s[p]
      invariant !keepFirst(s[i]) ==> forall p :: from <= p < j ==> a[p] == s[p]
      invariant !keepFirst(s[i]) ==> a[i] == if exists k :: from <= k < j && s[k] == s[i] then -1 else s[i]
    {
      if a[i] == a[j] {
        if keepFirst(a[i]) {
          a[j] := -1;
        } else {
          a[i] := -1;
        }
      }
      j := j + 1;
    }
  }

  /** Comparing position i moves the limit past it. */
  lemma CompareStep(before: seq<int>, after: seq<int>, s: seq<int>, ends: seq<nat>, keepFirst: int -> bool, i: nat)
    requires FlaggedUpTo(before, s, ends, keepFirst, i) && i < |s| && keepFirst(-1)
    requires Compared(before, after, keepFirst, i, ends[i])
    ensures FlaggedUpTo(after, s, ends, keepFirst, i + 1)
  {
    forall p | 0 <= p < |s|
      ensures after[p] == if Redundant(s, ends, keepFirst, p, i + 1) then -1 else s[p]
    {
      if keepFirst(s[p]) {
        KeepFirstStep(before, after, s, ends, keepFirst, i, p);
      } else {
        KeepLastStep(before, after, s, ends, keepFirst, i, p);
      }
    }
  }

  lemma KeepFirstStep(before: seq<int>, after: seq<int>, s: seq<int>, ends: seq<nat>, keepFirst: int -> bool, i: nat,
      p: nat)
    requires FlaggedUpTo(before, s, ends, keepFirst, i) && i < |s| && p < |s| && keepFirst(-1) && keepFirst(s[p])
    requires Compared(before, after, keepFirst, i, ends[i])
    ensures after[p] == if Redundant(s, ends, keepFirst, p, i + 1) then -1 else s[p]
  {
    if ends[i] <= p && s[i] == s[p] {
      assert Redundant(s, ends, keepFirst, p, i + 1);
      if before[i] == -1 {
        var k :| 0 <= k < i && ends[k] <= i && s[k] == s[i];
        assert ends[k] <= p && Redundant(s, ends, keepFirst, p, i);
      }
    } else {
      assert Redundant(s, ends, keepFirst, p, i + 1) <==> Redundant(s, ends, keepFirst, p, i);
    }
  }

  lemma KeepLastStep(before: seq<int>, after: seq<int>, s: seq<int>, ends: seq<nat>, keepFirst: int -> bool, i: nat,
      p: nat)
    requires FlaggedUpTo(before, s, ends, keepFirst, i) && i < |s| && p < |s| && keepFirst(-1) && !keepFirst(s[p])
    requires Compared(before, after, keepFirst, i, ends[i])
    ensures after[p] == if Redundant(s, ends, keepFirst, p, i + 1) then -1 else s[p]
  {
    if p == i {
      assert before[i] == s[i];
      forall j | ends[i] <= j < |s| ensures before[j] == s[i] <==> s[j] == s[i] {
        assert s[j] == s[i] ==> !Redundant(s, ends, keepFirst, j, i);
      }
    }
  }

  /** The three flagging loops: ranks, positions of a rank, positions of all later ranks. */
  method FlagRedundant(a: array<int>, displ: seq<nat>, keepFirst: int -> bool)
    requires Displacements(displ, a.Length) && keepFirst(-1) && forall i :: 0 <= i < a.Length ==> a[i] >= 0
    modifies a
    ensures FlaggedUpTo(a[..], old(a[..]), Ends(displ, a.Length), keepFirst, a.Length)
  {
    ghost var s, ends := a[..], Ends(displ, a.Length);
    var nprocs := |displ| - 1;
    for n := 0 to nprocs
      invariant FlaggedUpTo(a[..], s, ends, keepFirst, displ[n])
    {
      for i := displ[n] to displ[n + 1]
        invariant FlaggedUpTo(a[..], s, ends, keepFirst, i)
      {
        EndOfList(displ, a.Length, i, n, nprocs);
        ghost var before := a[..];
        Compare(a, i, displ[n + 1], keepFirst);
        CompareStep(before, a[..], s, ends, keepFirst, i);
      }
    }
  }

  /** No rank lists a point twice. */
  ghost predicate DistinctWithin(s: seq<int>, ends: seq<nat>) {
    |s| == |ends| && forall i, j :: 0 <= i < j < |s| && j < ends[i] ==> s[i] != s[j]
  }

  /** Two positions of one point cannot both survive. */
  lemma SurvivorUnique(now: seq<int>, s: seq<int>, ends: seq<nat>, keepFirst: int -> bool, p: nat, q: nat)
    requires FlaggedUpTo(now, s, ends, keepFirst, |s|) && DistinctWithin(s, ends)
    requires p < q < |s| && s[p] == s[q]
    ensures now[p] == -1 || now[q] == -1
  {
    assert ends[p] <= q;
    if keepFirst(s[p]) {
      assert Redundant(s, ends, keepFirst, q, |s|);
    } else {
      assert Redundant(s, ends, keepFirst, p, |s|);
    }
  }

  /** Every listed point survives somewhere. */
  lemma SurvivorExists(now: seq<int>, s: seq<int>, ends: seq<nat>, keepFirst: int -> bool, p: nat)
    requires FlaggedUpTo(now, s, ends, keepFirst, |s|) && p < |s|
    ensures exists q :: 0 <= q < |s| && now[q] == s[p]
  {
    if keepFirst(s[p]) {
      var q := FirstOf(s, s[p], p);
      assert !Redundant(s, ends, keepFirst, q, |s|);
    } else {
      var q := LastOf(s, s[p], p);
      assert !Redundant(s, ends, keepFirst, q, |s|);
    }
  }

  lemma {:induction false} FirstOf(s: seq<int>, v: int, p: nat) returns (q: nat)
    requires p < |s| && s[p] == v
    ensures q <= p && s[q] == v && forall i :: 0 <= i < q ==> s[i] != v
    decreases p
  {
    if i :| 0 <= i < p && s[i] == v { q := FirstOf(s, v, i); } else { q := p; }
  }

  lemma {:induction false} LastOf(s: seq<int>, v: int, p: nat) returns (q: nat)
    requires p < |s| && s[p] == v
    ensures p <= q < |s| && s[q] == v && forall i :: q < i < |s| ==> s[i] != v
    decreases |s| - p
  {
    if i :| p < i < |s| && s[i] == v { q := LastOf(s, v, i); } else { q := p; }
  }
}
