/** Lanes: a SIMD value holds one number per lane, and a wide vector is a vector of SIMD values. */
module SimdLanes {

  ghost predicate Sized(wide: seq<seq<real>>, dim: nat, simdLen: nat) {
    |wide| == dim && forall i :: 0 <= i < dim ==> |wide[i]| == simdLen
  }

  ghost function Lane(wide: seq<seq<real>>, k: nat): seq<real>
    requires forall i :: 0 <= i < |wide| ==> k < |wide[i]|
  {
    seq(|wide|, i requires 0 <= i < |wide| => wide[i][k])
  }

  function Zeros(n: nat): seq<real> { seq(n, _ => 0.0) }

  /** Entry i of the buffer: a number from each source, zero in the lanes that have none. */
  ghost predicate Filled(d: seq<real>, sviews: seq<seq<real>>, i: nat, simdLen: nat) {
    |d| == simdLen && forall k :: 0 <= k < simdLen ==> d[k] == Source(sviews, k, i)
  }

  function Source(sviews: seq<seq<real>>, k: nat, i: nat): real {
    if k < |sviews| && i < |sviews[k]| then sviews[k][i] else 0.0
  }

  method FillLanes(d: seq<real>, sviews: seq<seq<real>>, i: nat, simdElems: nat, simdLen: nat) returns (r: seq<real>)
    requires |d| == simdLen && simdElems == |sviews| <= simdLen && forall k :: 0 <= k < simdElems ==> i < |sviews[k]|
    ensures Filled(r, sviews, i, simdLen)
  {
    r := d;
    for simdIndex := 0 to simdElems
      invariant |r| == simdLen && forall k :: 0 <= k < simdIndex ==> r[k] == Source(sviews, k, i)
    {
      r := r[simdIndex := sviews[simdIndex][i]];
    }
    for simdIndex := simdElems to simdLen
      invariant |r| == simdLen && forall k :: 0 <= k < simdIndex ==> r[k] == Source(sviews, k, i)
    {
      r := r[simdIndex := 0.0];
    }
  }

  /** interleave: whatever the buffer held before, lane k now is source k, and the lanes without a source are zero. */
  method Interleave(dview: array<seq<real>>, sviews: seq<seq<real>>, simdElems: nat, simdLen: nat)
    requires simdElems == |sviews| <= simdLen && Sized(dview[..], dview.Length, simdLen)
    requires forall k :: 0 <= k < simdElems ==> |sviews[k]| == dview.Length
    modifies dview
    ensures Sized(dview[..], dview.Length, simdLen)
    ensures forall k :: 0 <= k < simdLen ==>
              Lane(dview[..], k) == if k < simdElems then sviews[k] else Zeros(dview.Length)
  {
    for i := 0 to dview.Length
      invariant Sized(dview[..], dview.Length, simdLen)
      invariant forall j :: 0 <= j < i ==> Filled(dview[j], sviews, j, simdLen)
    {
      assert |dview[..][i]| == simdLen;
      dview[i] := FillLanes(dview[i], sviews, i, simdElems, simdLen);
    }
    LanesFilled(dview[..], sviews, dview.Length, simdLen);
  }

  lemma LanesFilled(wide: seq<seq<real>>, sviews: seq<seq<real>>, dim: nat, simdLen: nat)
    requires Sized(wide, dim, simdLen) && forall i :: 0 <= i < dim ==> Filled(wide[i], sviews, i, simdLen)
    requires forall k :: 0 <= k < |sviews| ==> |sviews[k]| == dim
    ensures forall k :: 0 <= k < simdLen ==> Lane(wide, k) == if k < |sviews| then sviews[k] else Zeros(dim)
  {
    forall k | 0 <= k < simdLen ensures Lane(wide, k) == if k < |sviews| then sviews[k] else Zeros(dim) {
      var lane := Lane(wide, k);
      forall i | 0 <= i < dim ensures lane[i] == Source(sviews, k, i) {
        assert Filled(wide[i], sviews, i, simdLen);
      }
      if k < |sviews| {
        assert lane == sviews[k];
      } else {
        assert lane == Zeros(dim);
      }
    }
  }

  /** extract_vector_lane: one lane of a wide vector. */
  method ExtractLane(wide: seq<seq<real>>, simdIndex: nat, out: array<real>)
    requires out.Length == |wide| && forall i :: 0 <= i < |wide| ==> simdIndex < |wide[i]|
    modifies out
    ensures out[..] == Lane(wide, simdIndex)
  {
    for i := 0 to |wide|
      invariant forall j :: 0 <= j < i ==> out[j] == wide[j][simdIndex]
    {
      out[i] := wide[i][simdIndex];
    }
  }

  /** The round trip: what was interleaved from a source is what its lane extracts. */
  method InterleaveThenExtract(dview: array<seq<real>>, sviews: seq<seq<real>>, simdLen: nat, k: nat, out: array<real>)
    requires |sviews| <= simdLen && Sized(dview[..], dview.Length, simdLen) && k < |sviews|
    requires (forall i :: 0 <= i < |sviews| ==> |sviews[i]| == dview.Length) && out.Length == dview.Length
    modifies dview, out
    ensures out[..] == sviews[k]
  {
    Interleave(dview, sviews, |sviews|, simdLen);
    ExtractLane(dview[..], k, out);
  }
}
