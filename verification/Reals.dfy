/** The square root the kernels call, and the order facts about products that their proofs share. */
module Reals {

  /** s is the square root of x. */
  predicate Root(s: real, x: real) { s >= 0.0 && s * s == x }

  /** `f` is the square root on the non-negative reals; elsewhere it may be anything. */
  ghost predicate IsSqrt(f: real -> real) {
    forall x: real {:trigger Root(f(x), x)} :: x >= 0.0 ==> Root(f(x), x)
  }

  lemma SqrtIs(f: real -> real, x: real, r: real)
    requires IsSqrt(f) && Root(r, x)
    ensures f(x) == r
  {
    assert Root(f(x), x);
    SquareOrder(f(x), r);
  }

  /** A product under a name of its own, so that the solver keeps the sign of a square apart from the square. */
  function Times(a: real, b: real): real { a * b }

  lemma TimesOver(a: real, b: real, v: real)
    ensures Times(a + b, v) == Times(a, v) + Times(b, v)
  {}

  lemma MulPositive(a: real, b: real)
    requires a > 0.0 && b > 0.0
    ensures Times(a, b) > 0.0 && a * b > 0.0
  {}

  function Sq(x: real): real { x * x }

  function Abs(x: real): real { if x < 0.0 then -x else x }

  function Max(x: real, y: real): real { if x < y then y else x }

  /** Squares order the non-negative reals. */
  lemma SquareOrder(a: real, b: real)
    requires a >= 0.0 && b >= 0.0
    ensures a * a <= b * b <==> a <= b
    ensures a * a == b * b <==> a == b
  {
    if a < b { MulPositive(b - a, b + a); } else if b < a { MulPositive(a - b, b + a); }
  }

  lemma SqNonnegative(x: real)
    ensures Sq(x) >= 0.0
  {
    assert x * x >= 0.0;
  }

  lemma SquarePositive(t: real, u: real)
    requires t != 0.0 && u == t * t
    ensures u > 0.0
  {
    var s := Abs(t);
    MulPositive(s, s);
    assert Times(s, s) == u;
  }

  lemma NegatedSquare(g: real)
    ensures (-g) * (-g) == Sq(g)
  {}

  lemma NonzeroFactor(x: real, y: real)
    ensures x * y == 0.0 ==> x == 0.0 || y == 0.0
  {
    if x != 0.0 && y != 0.0 {
      MulPositive(Abs(x), Abs(y));
    }
  }

  lemma AboveOne(r: real)
    requires r >= 0.0 && r * r > 1.0
    ensures r > 1.0
  {
    if r <= 1.0 { SquareBelow(r); }
  }

  lemma SquareBelow(r: real)
    requires 0.0 <= r <= 1.0
    ensures r * r <= r
  {}

  lemma MulNonnegative(a: real, b: real)
    requires a >= 0.0 && b >= 0.0
    ensures a * b >= 0.0
  {
    if a > 0.0 && b > 0.0 { MulPositive(a, b); }
  }

  /** Scaling by a non-negative factor. */
  lemma MulOrder(k: real, a: real, b: real)
    requires k >= 0.0 && a <= b
    ensures k * a <= k * b
  {
    if k > 0.0 && a < b { MulPositive(k, b - a); }
  }

  lemma CancelOrder(k: real, a: real, b: real)
    requires k > 0.0 && k * a <= k * b
    ensures a <= b
  {
    if b < a { MulPositive(k, a - b); }
  }

  /** The square of a product whose second factor has a bounded square. */
  lemma SqProductBound(e: real, h: real, x: real, bound: real)
    requires e == h * x && Sq(x) <= bound
    ensures Sq(e) <= Sq(h) * bound
  {
    assert Sq(e) == Sq(h) * Sq(x);
    MulOrder(Sq(h), Sq(x), bound);
  }
}
