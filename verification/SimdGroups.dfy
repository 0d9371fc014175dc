/** Splitting a bucket into SIMD groups, and the groups of a face bucket into batches of one face ordinal. The SIMD
    length is fixed by the machine and is a parameter here. */
module SimdGroups {
  import opened Arithmetic
  import opened Offsets

  function NumSimdGroups(length: nat, simdLen: nat): nat
    requires simdLen > 0
  {
    length / simdLen + if length % simdLen > 0 then 1 else 0
  }

  function LengthOfNextSimdGroup(index: int, length: int, simdLen: int): int {
    var next := if length - index * simdLen < simdLen then length - index * simdLen else simdLen;
    if next < 0 || next > simdLen then 0 else next
  }

  /** The groups are full except the last, none is empty, and they end where the bucket ends. */
  lemma GroupSpan(g: nat, length: nat, simdLen: nat)
    requires simdLen > 0 && g < NumSimdGroups(length, simdLen)
    ensures 1 <= LengthOfNextSimdGroup(g, length, simdLen) <= simdLen
    ensures g * simdLen + LengthOfNextSimdGroup(g, length, simdLen) ==
            if g + 1 < NumSimdGroups(length, simdLen) then (g + 1) * simdLen else length
  {
    var q, r := length / simdLen, length % simdLen;
    assert length == simdLen * q + r;
    assert (g + 1) * simdLen == g * simdLen + simdLen;
    if g < q {
      TimesOrder(simdLen, g + 1, q);
      if g + 1 == q {
        assert simdLen * q == (g + 1) * simdLen;
      } else {
        TimesOrder(simdLen, g + 2, q);
      }
    } else {
      assert g == q && g * simdLen == simdLen * q;
    }
  }

  /** Past the last group nothing is left. */
  lemma NoMoreGroups(g: nat, length: nat, simdLen: nat)
    requires simdLen > 0 && g >= NumSimdGroups(length, simdLen)
    ensures LengthOfNextSimdGroup(g, length, simdLen) == 0
  {
    var q, r := length / simdLen, length % simdLen;
    assert length == simdLen * q + r;
    TimesOrder(simdLen, NumSimdGroups(length, simdLen), g);
    assert r > 0 ==> simdLen * NumSimdGroups(length, simdLen) == simdLen * q + simdLen;
  }

  /** Where a batch must start: at the start of a group, or where the ordinal changes. */
  predicate BatchStart(ordinals: seq<nat>, simdLen: nat, p: nat)
    requires simdLen > 0 && p < |ordinals|
  {
    GroupStart(simdLen, p) || ordinals[p] != ordinals[p - 1]
  }

  predicate GroupStart(simdLen: nat, p: nat)
    requires simdLen > 0
    ensures GroupStart(simdLen, 0)
  {
    p % simdLen == 0
  }

  function CountStarts(ordinals: seq<nat>, simdLen: nat, p: nat): nat
    requires simdLen > 0 && p <= |ordinals|
  {
    if p == 0 then 0 else CountStarts(ordinals, simdLen, p - 1) + if BatchStart(ordinals, simdLen, p - 1) then 1 else 0
  }

  /** One ordinal, and between one and simdLen faces. */
  ghost predicate GoodBatch(ordinals: seq<nat>, from: nat, n: nat, simdLen: nat) {
    && 1 <= n <= simdLen && from + n <= |ordinals|
    && forall k :: from <= k < from + n ==> ordinals[k] == ordinals[from]
  }

  /** The inner while: faces join while the group lasts and the ordinal stays. */
  method NextBatch(ordinals: seq<nat>, from: nat, end: nat) returns (n: nat)
    requires from < end <= |ordinals|
    ensures 1 <= n <= end - from && forall k :: from <= k < from + n ==> ordinals[k] == ordinals[from]
    ensures from + n < end ==> ordinals[from + n] != ordinals[from]
  {
    var elemFaceOrdinal: int := -1;
    n := 0;
    while from + n < end
      invariant 0 <= n <= end - from && (n > 0 ==> elemFaceOrdinal == ordinals[from])
        && (n == 0 ==> elemFaceOrdinal == -1)
      invariant forall k :: from <= k < from + n ==> ordinals[k] == ordinals[from]
    {
      var thisElemFaceOrdinal := ordinals[from + n];
      if elemFaceOrdinal >= 0 && thisElemFaceOrdinal != elemFaceOrdinal {
        break;
      }
      elemFaceOrdinal := thisElemFaceOrdinal;
      n := n + 1;
    }
  }

  /** The batches cut the faces before p into good batches, one for each start. */
  ghost predicate BatchedUpTo(ordinals: seq<nat>, simdLen: nat, sizes: seq<nat>, p: nat) {
    && simdLen > 0 && p <= |ordinals| && PrefixSum(sizes, |sizes|) == p && |sizes| == CountStarts(ordinals, simdLen, p)
    && forall b :: 0 <= b < |sizes| ==> BatchAt(ordinals, simdLen, sizes, b)
  }

  ghost predicate BatchAt(ordinals: seq<nat>, simdLen: nat, sizes: seq<nat>, b: nat) {
    b < |sizes| && GoodBatch(ordinals, PrefixSum(sizes, b), sizes[b], simdLen)
  }

  lemma {:induction false} NoStartsWithin(ordinals: seq<nat>, simdLen: nat, from: nat, n: nat)
    requires simdLen > 0 && n > 0 && from + n <= |ordinals| && BatchStart(ordinals, simdLen, from)
    requires forall k :: from < k < from + n ==> !BatchStart(ordinals, simdLen, k)
    ensures CountStarts(ordinals, simdLen, from + n) == CountStarts(ordinals, simdLen, from) + 1
    decreases n
  {
    if n > 1 { NoStartsWithin(ordinals, simdLen, from, n - 1); }
  }

  lemma PrefixSumAppend(sizes: seq<nat>, n: nat, b: nat)
    requires b <= |sizes|
    ensures PrefixSum(sizes + [n], b) == PrefixSum(sizes, b)
  {
    assert (sizes + [n])[..|sizes|] == sizes;
    PrefixSumPart(sizes + [n], |sizes|, b);
  }

  lemma AddBatch(ordinals: seq<nat>, simdLen: nat, sizes: seq<nat>, from: nat, n: nat)
    requires BatchedUpTo(ordinals, simdLen, sizes, from) && GoodBatch(ordinals, from, n, simdLen)
    requires BatchStart(ordinals, simdLen, from) && forall k :: from < k < from + n ==> !GroupStart(simdLen, k)
    ensures BatchedUpTo(ordinals, simdLen, sizes + [n], from + n)
  {
    NoStartsWithin(ordinals, simdLen, from, n);
    var more := sizes + [n];
    PrefixSumAppend(sizes, n, |sizes|);
    forall b | 0 <= b < |more| ensures BatchAt(ordinals, simdLen, more, b) {
      PrefixSumAppend(sizes, n, b);
      assert b < |sizes| ==> BatchAt(ordinals, simdLen, sizes, b);
    }
  }

  lemma OneGroupStart(g: nat, simdLen: nat)
    requires simdLen > 0
    ensures GroupStart(simdLen, g * simdLen)
    ensures forall k :: g * simdLen < k < g * simdLen + simdLen ==> !GroupStart(simdLen, k)
  {
    ModOf(simdLen, g, 0);
    forall k | g * simdLen < k < g * simdLen + simdLen ensures !GroupStart(simdLen, k) {
      InsideGroup(g, simdLen, g * simdLen, k);
    }
  }

  lemma InsideGroup(g: nat, simdLen: nat, base: nat, k: nat)
    requires simdLen > 0 && base == g * simdLen && base < k < base + simdLen
    ensures !GroupStart(simdLen, k)
  {
    ModOf(simdLen, g, k - base);
  }

  /** The do-while over one group. */
  method BatchGroup(ordinals: seq<nat>, simdLen: nat, base: nat, simdGroupLen: nat, before: seq<nat>)
    returns (sizes: seq<nat>)
    requires BatchedUpTo(ordinals, simdLen, before, base) && 1 <= simdGroupLen <= simdLen
    requires base + simdGroupLen <= |ordinals| && GroupStart(simdLen, base)
    requires forall k :: base < k < base + simdGroupLen ==> !GroupStart(simdLen, k)
    ensures BatchedUpTo(ordinals, simdLen, sizes, base + simdGroupLen)
  {
    sizes := before;
    var numFacesProcessed := 0;
    var again := true;
    while again
      invariant 0 <= numFacesProcessed <= simdGroupLen && again == (numFacesProcessed < simdGroupLen)
      invariant BatchedUpTo(ordinals, simdLen, sizes, base + numFacesProcessed)
      invariant again ==> BatchStart(ordinals, simdLen, base + numFacesProcessed)
      decreases simdGroupLen - numFacesProcessed
    {
      var n := NextBatch(ordinals, base + numFacesProcessed, base + simdGroupLen);
      AddBatch(ordinals, simdLen, sizes, base + numFacesProcessed, n);
      sizes := sizes + [n];
      numFacesProcessed := numFacesProcessed + n;
      again := numFacesProcessed < simdGroupLen;
    }
  }

  lemma GroupEnd(g: nat, length: nat, simdLen: nat)
    requires simdLen > 0 && g < NumSimdGroups(length, simdLen)
    ensures g * simdLen + LengthOfNextSimdGroup(g, length, simdLen) <= length
  {
    GroupSpan(g, length, simdLen);
    if g + 1 < NumSimdGroups(length, simdLen) { FullBefore(g + 1, length, simdLen); }
  }

  lemma FullBefore(g: nat, length: nat, simdLen: nat)
    requires simdLen > 0 && g < NumSimdGroups(length, simdLen)
    ensures g * simdLen < length
  {
    var q, r := length / simdLen, length % simdLen;
    assert length == simdLen * q + r;
    if g < q { TimesOrder(simdLen, g + 1, q); }
  }

  /** All groups of a face bucket. */
  method BatchBucket(ordinals: seq<nat>, simdLen: nat) returns (sizes: seq<nat>)
    requires simdLen > 0
    ensures BatchedUpTo(ordinals, simdLen, sizes, |ordinals|)
  {
    sizes := [];
    var groups := NumSimdGroups(|ordinals|, simdLen);
    for g := 0 to groups
      invariant BatchedUpTo(ordinals, simdLen, sizes, if g < groups then g * simdLen else |ordinals|)
    {
      GroupSpan(g, |ordinals|, simdLen);
      GroupEnd(g, |ordinals|, simdLen);
      OneGroupStart(g, simdLen);
      sizes := BatchGroup(ordinals, simdLen, g * simdLen, LengthOfNextSimdGroup(g, |ordinals|, simdLen), sizes);
    }
  }
}
