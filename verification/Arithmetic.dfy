/** Small facts about multiples and remainders. */
module Arithmetic {

  lemma MultiplesApart(a: int, b: int, d: nat)
    requires d > 0 && a % d == 0 && b % d == 0 && a < b
    ensures a + d <= b
  {
    var i, j := a / d, b / d;
    assert a == d * i && b == d * j;
    if j <= i { TimesOrder(d, j, i); }
    TimesOrder(d, i + 1, j);
  }

  lemma TimesOrder(d: nat, i: int, j: int)
    requires i <= j
    ensures d * i <= d * j
  {}

  lemma ModOf(n: nat, k: nat, d: nat)
    requires n > 0 && d < n
    ensures (n * k + d) % n == d
  {
    var x := n * k + d;
    var q, m := x / n, x % n;
    assert x == n * q + m;
    SameQuotient(n, k, d, q, m);
  }

  lemma SameQuotient(n: nat, k: int, d: nat, q: int, m: nat)
    requires d < n && m < n && n * k + d == n * q + m
    ensures d == m
  {
    if k < q { TimesOrder(n, k + 1, q); }
    if q < k { TimesOrder(n, q + 1, k); }
  }

  lemma AddToMultiple(i: nat, n: nat, d: nat)
    requires d < n && i % n == 0
    ensures (i + d) % n == d
  {
    var k := i / n;
    assert i == n * k;
    ModOf(n, k, d);
  }

  lemma NextMultiple(i: nat, n: nat)
    requires n > 0 && i % n == 0
    ensures (i + n) % n == 0
  {
    var k := i / n;
    assert i == n * k;
    assert n * (k + 1) == i + n;
    ModOf(n, k + 1, 0);
  }
}
