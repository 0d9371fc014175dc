/** How many batches a face bucket takes. */
module FaceBatchCount {
  import opened Arithmetic
  import opened SimdGroups

  /** Where the ordinal differs from the one before, among the first p faces. */
  function Changes(ordinals: seq<nat>, p: nat): nat
    requires p <= |ordinals|
  {
    if p <= 1 then 0 else Changes(ordinals, p - 1) + if ordinals[p - 1] != ordinals[p - 2] then 1 else 0
  }

  ghost function OrdinalSet(ordinals: seq<nat>): set<nat> { set o | o in ordinals }

  /** The order EntityExposedFaceSorter leaves: by ordinal, highest first. */
  ghost predicate SortedByOrdinal(ordinals: seq<nat>) {
    forall i, j :: 0 <= i < j < |ordinals| ==> ordinals[i] >= ordinals[j]
  }

  /** One more entity opens a new group exactly at a group start. */
  lemma GroupsGrow(simdLen: nat, p: nat)
    requires simdLen > 0
    ensures NumSimdGroups(p + 1, simdLen) == NumSimdGroups(p, simdLen) + if GroupStart(simdLen, p) then 1 else 0
  {
    var q, r := p / simdLen, p % simdLen;
    assert p == simdLen * q + r;
    if r + 1 < simdLen {
      DivMod(simdLen, p + 1, q, r + 1);
    } else {
      assert simdLen * (q + 1) == simdLen * q + simdLen;
      DivMod(simdLen, p + 1, q + 1, 0);
    }
  }

  lemma DivMod(n: nat, x: nat, q: nat, r: nat)
    requires r < n && x == n * q + r
    ensures x % n == r && x / n == q
  {
    ModOf(n, q, r);
    assert x == n * (x / n) + r;
    var k := x / n;
    if k < q { TimesOrder(n, k + 1, q); }
    if q < k { TimesOrder(n, q + 1, k); }
  }

  lemma {:induction false} StartsBound(ordinals: seq<nat>, simdLen: nat, p: nat)
    requires simdLen > 0 && p <= |ordinals|
    ensures CountStarts(ordinals, simdLen, p) <= NumSimdGroups(p, simdLen) + Changes(ordinals, p)
    decreases p
  {
    if p > 0 {
      StartsBound(ordinals, simdLen, p - 1);
      GroupsGrow(simdLen, p - 1);
    }
  }

  /** The ordinals of the first p faces. */
  ghost function Seen(ordinals: seq<nat>, p: nat): set<nat>
    requires p <= |ordinals|
  {
    if p == 0 then {} else Seen(ordinals, p - 1) + {ordinals[p - 1]}
  }

  lemma {:induction false} SeenMembers(ordinals: seq<nat>, p: nat)
    requires p <= |ordinals|
    ensures forall o :: o in Seen(ordinals, p) <==> o in ordinals[..p]
  {
    if p > 0 {
      SeenMembers(ordinals, p - 1);
      assert ordinals[..p] == ordinals[..p - 1] + [ordinals[p - 1]];
    }
  }

  /** In sorted order each change brings an ordinal not seen before. */
  lemma {:induction false} ChangesCount(ordinals: seq<nat>, p: nat)
    requires SortedByOrdinal(ordinals) && 1 <= p <= |ordinals|
    ensures |Seen(ordinals, p)| == Changes(ordinals, p) + 1
    ensures ordinals[p - 1] in Seen(ordinals, p) && forall o :: o in Seen(ordinals, p) ==> o >= ordinals[p - 1]
    decreases p
  {
    if p == 1 {
      assert Seen(ordinals, 1) == {ordinals[0]};
    } else {
      ChangesCount(ordinals, p - 1);
      var T := Seen(ordinals, p - 1);
      assert ordinals[p - 2] >= ordinals[p - 1];
      if ordinals[p - 1] == ordinals[p - 2] {
        assert T + {ordinals[p - 1]} == T;
      }
    }
  }

  /** On a sorted bucket there are at most ceil(length / simdLen) + distinct ordinals - 1 batches, exactly when the
      bucket is not empty: an empty bucket takes no batch, where the bound says -1. */
  lemma SortedBatchBoundIff(ordinals: seq<nat>, simdLen: nat)
    requires simdLen > 0 && SortedByOrdinal(ordinals)
    ensures var bound := NumSimdGroups(|ordinals|, simdLen) + |OrdinalSet(ordinals)| - 1;
      CountStarts(ordinals, simdLen, |ordinals|) <= bound <==> ordinals != []
  {
    SeenMembers(ordinals, |ordinals|);
    assert ordinals[..|ordinals|] == ordinals;
    assert OrdinalSet(ordinals) == Seen(ordinals, |ordinals|);
    if ordinals != [] {
      StartsBound(ordinals, simdLen, |ordinals|);
      ChangesCount(ordinals, |ordinals|);
    }
  }
}
