/** Consecutive stretches of a flat array: offsets as running sums of the lengths. */
module Offsets {

  /** The first k lengths added up. */
  function PrefixSum(lengths: seq<nat>, k: nat): nat
    requires k <= |lengths|
  {
    if k == 0 then 0 else PrefixSum(lengths, k - 1) + lengths[k - 1]
  }

  lemma {:induction false} PrefixSumOrder(lengths: seq<nat>, i: nat, j: nat)
    requires i <= j <= |lengths|
    ensures PrefixSum(lengths, i) <= PrefixSum(lengths, j)
    decreases j
  {
    if i < j { PrefixSumOrder(lengths, i, j - 1); }
  }

  lemma PrefixSumsOrdered(lengths: seq<nat>)
    ensures forall i, j :: 0 <= i <= j <= |lengths| ==> PrefixSum(lengths, i) <= PrefixSum(lengths, j)
  {
    forall i, j | 0 <= i <= j <= |lengths| ensures PrefixSum(lengths, i) <= PrefixSum(lengths, j) {
      PrefixSumOrder(lengths, i, j);
    }
  }

  /** Lists one after another, as MPI_Allgatherv leaves them. */
  function Flatten<T>(lists: seq<seq<T>>): seq<T> {
    if lists == [] then [] else Flatten(lists[..|lists| - 1]) + lists[|lists| - 1]
  }

  function Lengths<T>(lists: seq<seq<T>>): seq<nat> { seq(|lists|, n requires 0 <= n < |lists| => |lists[n]|) }

  lemma {:induction false} PrefixSumPart(lengths: seq<nat>, m: nat, k: nat)
    requires k <= m <= |lengths|
    ensures PrefixSum(lengths[..m], k) == PrefixSum(lengths, k)
    decreases k
  {
    if k > 0 { PrefixSumPart(lengths, m, k - 1); }
  }

  lemma {:induction false} FlattenLength<T>(lists: seq<seq<T>>, n: nat)
    requires n <= |lists|
    ensures |Flatten(lists[..n])| == PrefixSum(Lengths(lists), n)
  {
    if n > 0 {
      assert lists[..n][..n - 1] == lists[..n - 1];
      FlattenLength(lists, n - 1);
    }
  }

  lemma {:induction false} FlattenSplit<T>(lists: seq<seq<T>>, n: nat)
    requires n <= |lists|
    ensures Flatten(lists) == Flatten(lists[..n]) + Flatten(lists[n..])
    decreases |lists|
  {
    if n == |lists| {
      assert lists[..n] == lists;
    } else {
      var m := |lists| - 1;
      assert lists[..m][..n] == lists[..n] && lists[..m][n..] == lists[n..][..m - n];
      FlattenSplit(lists[..m], n);
    }
  }

  /** List n lies between its offsets. */
  lemma FlattenAt<T>(lists: seq<seq<T>>, n: nat)
    requires n < |lists|
    ensures PrefixSum(Lengths(lists), n) <= PrefixSum(Lengths(lists), n + 1) <= |Flatten(lists)|
    ensures Flatten(lists)[PrefixSum(Lengths(lists), n)..PrefixSum(Lengths(lists), n + 1)] == lists[n]
  {
    FlattenLength(lists, n);
    FlattenLength(lists, n + 1);
    FlattenSplit(lists, n + 1);
    assert lists[..n + 1][..n] == lists[..n];
  }
}
