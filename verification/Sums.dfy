/** Sums over sequences of reals. */
module Sums {
  import opened Reals

  function Sum(s: seq<real>): real { if s == [] then 0.0 else Sum(s[..|s| - 1]) + s[|s| - 1] }

  lemma {:induction false} SumUpdate(s: seq<real>, i: nat, v: real)
    requires i < |s|
    ensures Sum(s[i := v]) == Sum(s) - s[i] + v
  {
    var n := |s| - 1;
    if i == n {
      assert s[i := v][..n] == s[..n];
    } else {
      assert s[i := v][..n] == s[..n][i := v];
      SumUpdate(s[..n], i, v);
    }
  }

  lemma SumAppend(s: seq<real>, v: real)
    ensures Sum(s + [v]) == Sum(s) + v
  {
    assert (s + [v])[..|s|] == s;
  }

  lemma {:induction false} SumConcat(s: seq<real>, t: seq<real>)
    ensures Sum(s + t) == Sum(s) + Sum(t)
  {
    if t == [] {
      assert s + t == s;
    } else {
      var n := |t| - 1;
      assert (s + t)[..|s| + n] == s + t[..n];
      SumConcat(s, t[..n]);
    }
  }

  function DotUpTo(a: seq<real>, b: seq<real>, n: nat): real
    requires n <= |a| && n <= |b|
  {
    if n == 0 then 0.0 else DotUpTo(a, b, n - 1) + Times(a[n - 1], b[n - 1])
  }

  /** Adding v to one entry adds v times the other factor's entry. */
  lemma {:induction false} DotUpdate(a: seq<real>, b: seq<real>, n: nat, i: nat, v: real)
    requires n <= |a| && n <= |b| && i < |a|
    ensures DotUpTo(a[i := a[i] + v], b, n) == DotUpTo(a, b, n) + if i < n then Times(v, b[i]) else 0.0
  {
    if n > 0 {
      DotUpdate(a, b, n - 1, i, v);
      if i == n - 1 { assert Times(a[i] + v, b[i]) == Times(a[i], b[i]) + Times(v, b[i]); }
    }
  }
}
