/** Two indices in one: node and component, or row and column, flattened as first * width + second. */
module FlatIndex {
  import opened Arithmetic

  function Flat(r: nat, c: nat, w: nat): nat { r * w + c }

  lemma FlatBound(r: nat, c: nat, n: nat, w: nat)
    requires r < n && c < w
    ensures Flat(r, c, w) < n * w
  {
    TimesOrder(w, r + 1, n);
    assert w * (r + 1) == r * w + w;
  }

  /** Entries count from zero, row by row. */
  lemma RowByRow(r: nat, c: nat, w: nat)
    ensures Flat(0, 0, w) == 0 && Flat(r, c + 1, w) == Flat(r, c, w) + 1
    ensures w > 0 ==> Flat(r + 1, 0, w) == Flat(r, w - 1, w) + 1
  {
    assert (r + 1) * w == r * w + w;
  }

  lemma FlatInjective(r: nat, c: nat, s: nat, d: nat, w: nat)
    requires c < w && d < w && Flat(r, c, w) == Flat(s, d, w)
    ensures r == s && c == d
  {
    if r < s { TimesOrder(w, r + 1, s); }
    if s < r { TimesOrder(w, s + 1, r); }
  }

  /** The flat sequence holds the matrix. */
  ghost predicate FlatIs(a: seq<real>, A: seq<seq<real>>, n: nat, w: nat) {
    && Shaped(A, n, w) && |a| == n * w && forall r, c :: 0 <= r < n && 0 <= c < w ==> EntryIs(a, A, r, c, w)
  }

  ghost predicate EntryIs(a: seq<real>, A: seq<seq<real>>, r: nat, c: nat, w: nat) {
    r < |A| && c < |A[r]| && Flat(r, c, w) < |a| && a[Flat(r, c, w)] == A[r][c]
  }

  ghost predicate Shaped(A: seq<seq<real>>, n: nat, w: nat) { |A| == n && forall r :: 0 <= r < n ==> |A[r]| == w }

  ghost function Add(A: seq<seq<real>>, r: nat, c: nat, v: real): (B: seq<seq<real>>)
    requires r < |A| && c < |A[r]|
    ensures |B| == |A| && forall s :: 0 <= s < |A| ==> |B[s]| == |A[s]|
  {
    A[r := A[r][c := A[r][c] + v]]
  }

  /** Adding to one flat entry adds to one matrix entry. */
  method AddFlat(a: array<real>, r: nat, c: nat, n: nat, w: nat, v: real, ghost A: seq<seq<real>>)
    requires FlatIs(a[..], A, n, w) && r < n && c < w
    modifies a
    ensures FlatIs(a[..], Add(A, r, c, v), n, w)
  {
    FlatBound(r, c, n, w);
    ghost var before := a[..];
    var k := Flat(r, c, w);
    assert EntryIs(before, A, r, c, w);
    a[k] := a[k] + v;
    ghost var B := Add(A, r, c, v);
    forall s, d | 0 <= s < n && 0 <= d < w ensures EntryIs(a[..], B, s, d, w) {
      assert EntryIs(before, A, s, d, w);
      if Flat(s, d, w) == k { FlatInjective(s, d, r, c, w); }
    }
  }

  method ZeroOut(a: array<real>)
    modifies a
    ensures forall k :: 0 <= k < a.Length ==> a[k] == 0.0
  {
    for p := 0 to a.Length
      invariant forall k :: 0 <= k < p ==> a[k] == 0.0
    {
      a[p] := 0.0;
    }
  }

  method ZeroFlat(a: array<real>, n: nat, w: nat) returns (ghost A: seq<seq<real>>)
    requires a.Length == n * w
    modifies a
    ensures FlatIs(a[..], A, n, w) && forall r, c :: 0 <= r < n && 0 <= c < w ==> A[r][c] == 0.0
  {
    ZeroOut(a);
    A := seq(n, _ => seq(w, _ => 0.0));
    forall r, c | 0 <= r < n && 0 <= c < w ensures EntryIs(a[..], A, r, c, w) {
      FlatBound(r, c, n, w);
    }
  }
}
