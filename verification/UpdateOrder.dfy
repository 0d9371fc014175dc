/** The quaternion update assigns q[0..3] one after the other and reads components it has already overwritten. When that
    still is the intended rotation, and how far off it is otherwise. */
module UpdateOrder {
  import opened Reals
  import opened Matrix3
  import opened Quaternion
  import opened JacobiStep
  import opened JacobiConvergence

  /** The rotation leaves the components assigned first as they were. */
  predicate LeadsKept(q: Quat, axis: Axis, h: real, w: real) {
    && Turned(First(q, axis), h, w).lead == First(q, axis).lead
    && Turned(Second(q, axis), h, w).lead == Second(q, axis).lead
  }

  /** The rotation clears the components assigned first. */
  predicate LeadsCleared(q: Quat, axis: Axis, h: real, w: real) {
    Turned(First(q, axis), h, w).lead == 0.0 == Turned(Second(q, axis), h, w).lead
  }

  /** The update in place applies the rotation it was given if and only if the rotation keeps, or clears, the components
      assigned first. */
  lemma InPlaceExactIff(q: Quat, axis: Axis, h: real, w: real, sqrt: real -> real)
    requires IsSqrt(sqrt) && NormSq(q) == 1.0 && UnitPair(h, w) && w > 0.0 && h != 0.0
    ensures NormSq(InPlace(q, AxisQuat(axis, h, w))) > 0.0
    ensures QuatToMat(Normalise(InPlace(q, AxisQuat(axis, h, w)), sqrt))
              == Mul(QuatToMat(q), QuatToMat(AxisQuat(axis, h, w)))
       <==> LeadsKept(q, axis, h, w) || LeadsCleared(q, axis, h, w)
  {
    var r := AxisQuat(axis, h, w);
    InPlaceNonzero(q, axis, h, w);
    ProductIsMul(q, r);
    ProductUnit(q, axis, h, w);
    if LeadsKept(q, axis, h, w) {
      KeptExact(q, axis, h, w, sqrt);
    } else if LeadsCleared(q, axis, h, w) {
      ClearedExact(q, axis, h, w, sqrt);
    } else if QuatToMat(Normalise(InPlace(q, r), sqrt)) == QuatToMat(Product(q, r)) {
      ExactOnly(q, axis, h, w, sqrt);
    }
  }

  lemma ProductUnit(q: Quat, axis: Axis, h: real, w: real)
    requires NormSq(q) == 1.0 && UnitPair(h, w)
    ensures NormSq(Product(q, AxisQuat(axis, h, w))) == 1.0
  {
    AxisUnit(axis, h, w);
    ProductNorm(q, AxisQuat(axis, h, w));
  }

  lemma AxisUnit(axis: Axis, h: real, w: real)
    requires UnitPair(h, w)
    ensures NormSq(AxisQuat(axis, h, w)) == 1.0
  {}

  lemma KeptExact(q: Quat, axis: Axis, h: real, w: real, sqrt: real -> real)
    requires IsSqrt(sqrt) && NormSq(q) == 1.0 && UnitPair(h, w) && LeadsKept(q, axis, h, w)
    ensures var p := Product(q, AxisQuat(axis, h, w));
      InPlace(q, AxisQuat(axis, h, w)) == p && NormSq(p) == 1.0 && Normalise(p, sqrt) == p
  {
    SplitInPlace(q, axis, h, w);
    SplitProduct(q, axis, h, w);
    ProductUnit(q, axis, h, w);
    SqrtIs(sqrt, 1.0, 1.0);
  }

  /** Normalising undoes a positive stretch. */
  lemma NormaliseStretched(p: Quat, k: real, sqrt: real -> real)
    requires IsSqrt(sqrt) && NormSq(p) == 1.0 && k > 0.0
    ensures NormSq(Stretch(k, p)) > 0.0 && Normalise(Stretch(k, p), sqrt) == p
  {
    StretchNorm(k, p);
    MulPositive(k, k);
    var n := NormSq(Stretch(k, p));
    assert n == k * k;
    assert Root(k, n);
    SqrtIs(sqrt, n, k);
    Unstretch(k, p.x);
    Unstretch(k, p.y);
    Unstretch(k, p.z);
    Unstretch(k, p.w);
  }

  lemma Unstretch(k: real, x: real)
    requires k > 0.0
    ensures Times(k, x) / k == x
  {}

  lemma ClearedExact(q: Quat, axis: Axis, h: real, w: real, sqrt: real -> real)
    requires IsSqrt(sqrt) && NormSq(q) == 1.0 && UnitPair(h, w) && w > 0.0 && LeadsCleared(q, axis, h, w)
    ensures var p := Product(q, AxisQuat(axis, h, w));
      NormSq(InPlace(q, AxisQuat(axis, h, w))) > 0.0 && Normalise(InPlace(q, AxisQuat(axis, h, w)), sqrt) == p
  {
    SplitInPlace(q, axis, h, w);
    SplitProduct(q, axis, h, w);
    ProductUnit(q, axis, h, w);
    var f, s := First(q, axis), Second(q, axis);
    ClearedTrail(f.lead, f.trail, h, w);
    ClearedTrail(s.lead, s.trail, h, w);
    MulPositive(w, w);
    StretchJoin(Times(w, w), axis, Turned(f, h, w), Turned(s, h, w));
    NormaliseStretched(Product(q, AxisQuat(axis, h, w)), Times(w, w), sqrt);
  }

  lemma ClearedTrail(a: real, b: real, h: real, w: real)
    requires UnitPair(h, w) && Lead(a, b, h, w) == 0.0
    ensures Trail(b, Lead(a, b, h, w), h, w) == Times(Times(w, w), Trail(b, a, h, w))
    ensures Lead(a, b, h, w) == Times(Times(w, w), Lead(a, b, h, w))
  {
    assert w * w * (w * b - h * a) == w * b * (w * w) - w * h * (w * a);
    assert w * a == -h * b;
    assert w * h * (w * a) == w * h * (-h * b);
    assert w * w * (w * b - h * a) == w * b * (h * h + w * w);
  }

  /** If the matrices agree then the quaternions agree up to sign, which pins down the leading components. */
  lemma ExactOnly(q: Quat, axis: Axis, h: real, w: real, sqrt: real -> real)
    requires IsSqrt(sqrt) && NormSq(q) == 1.0 && UnitPair(h, w) && w > 0.0 && h != 0.0
    requires NormSq(InPlace(q, AxisQuat(axis, h, w))) > 0.0
    requires QuatToMat(Normalise(InPlace(q, AxisQuat(axis, h, w)), sqrt)) == QuatToMat(Product(q, AxisQuat(axis, h, w)))
    ensures LeadsKept(q, axis, h, w) || LeadsCleared(q, axis, h, w)
  {
    var u, p := InPlace(q, AxisQuat(axis, h, w)), Product(q, AxisQuat(axis, h, w));
    ProductUnit(q, axis, h, w);
    NormaliseUnit(u, sqrt);
    SameRotation(Normalise(u, sqrt), p);
    var k := ScaleFactor(u, p, sqrt);
    SplitInPlace(q, axis, h, w);
    SplitProduct(q, axis, h, w);
    var f, s := First(q, axis), Second(q, axis);
    StretchSplit(k, axis, Turned(f, h, w), Turned(s, h, w), Updated(f, h, w), Updated(s, h, w));
    LeadFixed(f.lead, f.trail, h, w, k);
    LeadFixed(s.lead, s.trail, h, w, k);
  }

  lemma ScaleFactor(u: Quat, p: Quat, sqrt: real -> real) returns (k: real)
    requires IsSqrt(sqrt) && NormSq(u) > 0.0
    requires Normalise(u, sqrt) == p || Normalise(u, sqrt) == Stretch(-1.0, p)
    ensures u == Stretch(k, p)
  {
    LengthPositive(NormSq(u), sqrt);
    var m := sqrt(NormSq(u));
    var positive := Normalise(u, sqrt) == p;
    k := if positive then m else -m;
    Rescale(m, u.x, p.x, positive);
    Rescale(m, u.y, p.y, positive);
    Rescale(m, u.z, p.z, positive);
    Rescale(m, u.w, p.w, positive);
  }

  lemma Rescale(m: real, x: real, y: real, positive: bool)
    requires m > 0.0 && x / m == if positive then y else Times(-1.0, y)
    ensures x == Times(if positive then m else -m, y)
  {
    assert m * (x / m) == x;
  }

  lemma StretchSplit(k: real, axis: Axis, f: Pair, s: Pair, f': Pair, s': Pair)
    requires Join(axis, f', s') == Stretch(k, Join(axis, f, s))
    ensures f' == Pair(Times(k, f.lead), Times(k, f.trail)) && s' == Pair(Times(k, s.lead), Times(k, s.trail))
  {
    NegatedTimes(k, s.trail);
  }

  lemma StretchJoin(k: real, axis: Axis, f: Pair, s: Pair)
    ensures Stretch(k, Join(axis, f, s))
         == Join(axis, Pair(Times(k, f.lead), Times(k, f.trail)), Pair(Times(k, s.lead), Times(k, s.trail)))
  {
    NegatedTimes(k, s.trail);
  }

  lemma NegatedTimes(k: real, x: real)
    ensures Times(k, -x) == -Times(k, x)
  {}

  lemma LeadFixed(a: real, b: real, h: real, w: real, k: real)
    requires h != 0.0
    requires var l := Lead(a, b, h, w); l == Times(k, l) && Trail(b, l, h, w) == Times(k, Trail(b, a, h, w))
    ensures Lead(a, b, h, w) == 0.0 || k == 1.0
    ensures k == 1.0 ==> Lead(a, b, h, w) == a
  {
    var l := Lead(a, b, h, w);
    NonzeroFactor(l, 1.0 - k);
    NonzeroFactor(h, l - a);
  }

  /** Unit quaternions with the same rotation matrix differ at most in sign. */
  lemma SameRotation(p: Quat, q: Quat)
    requires NormSq(p) == 1.0 && NormSq(q) == 1.0 && QuatToMat(p) == QuatToMat(q)
    ensures p == q || p == Stretch(-1.0, q)
  {
    SameComponents(p.x, p.y, p.z, p.w, q.x, q.y, q.z, q.w);
  }

  lemma SameComponents(a: real, b: real, c: real, d: real, x: real, y: real, z: real, w: real)
    requires Squares(a, b, c, d) == 1.0 == Squares(x, y, z, w)
    requires Diag(a, b, c, d) == Diag(x, y, z, w) && Diag(b, c, a, d) == Diag(y, z, x, w)
    requires Diag(c, a, b, d) == Diag(z, x, y, w)
    requires Plus(a, b, c, d) == Plus(x, y, z, w) && Plus(b, c, a, d) == Plus(y, z, x, w)
    requires Plus(c, a, b, d) == Plus(z, x, y, w)
    requires Minus(a, b, c, d) == Minus(x, y, z, w) && Minus(b, c, a, d) == Minus(y, z, x, w)
    requires Minus(c, a, b, d) == Minus(z, x, y, w)
    ensures (a == x && b == y && c == z && d == w) || (a == -x && b == -y && c == -z && d == -w)
  {
    SameProducts(a, b, c, d, x, y, z, w);
    if x != 0.0 {
      SameUpToSign(a, b, c, d, x, y, z, w);
    } else if y != 0.0 {
      SameUpToSign(b, c, a, d, y, z, x, w);
    } else if z != 0.0 {
      SameUpToSign(c, a, b, d, z, x, y, w);
    } else {
      SameUpToSign(d, a, b, c, w, x, y, z);
    }
  }

  lemma SameProducts(a: real, b: real, c: real, d: real, x: real, y: real, z: real, w: real)
    requires Squares(a, b, c, d) == Squares(x, y, z, w)
    requires Diag(a, b, c, d) == Diag(x, y, z, w) && Diag(b, c, a, d) == Diag(y, z, x, w)
    requires Diag(c, a, b, d) == Diag(z, x, y, w)
    requires Plus(a, b, c, d) == Plus(x, y, z, w) && Plus(b, c, a, d) == Plus(y, z, x, w)
    requires Plus(c, a, b, d) == Plus(z, x, y, w)
    requires Minus(a, b, c, d) == Minus(x, y, z, w) && Minus(b, c, a, d) == Minus(y, z, x, w)
    requires Minus(c, a, b, d) == Minus(z, x, y, w)
    ensures a * a == x * x && b * b == y * y && c * c == z * z && d * d == w * w
    ensures a * b == x * y && a * c == x * z && a * d == x * w && b * c == y * z && b * d == y * w && c * d == z * w
  {}

  lemma SameUpToSign(a: real, b: real, c: real, d: real, x: real, y: real, z: real, w: real)
    requires x != 0.0 && a * a == x * x && a * b == x * y && a * c == x * z && a * d == x * w
    ensures (a == x && b == y && c == z && d == w) || (a == -x && b == -y && c == -z && d == -w)
  {
    assert (a - x) * (a + x) == 0.0;
    NonzeroFactor(a - x, a + x);
    if a == x {
      NonzeroFactor(x, b - y); NonzeroFactor(x, c - z); NonzeroFactor(x, d - w);
    } else {
      NonzeroFactor(x, b + y); NonzeroFactor(x, c + z); NonzeroFactor(x, d + w);
    }
  }
}
