/** When the update in place still turns about the pivot axis, and by how much it tilts the axis otherwise. */
module UpdateTilt {
  import opened Reals
  import opened Matrix3
  import opened Quaternion
  import opened JacobiStep
  import opened JacobiConvergence
  import opened UpdateOrder
  import opened AxisTurn

  /** The rotation that takes q to p, in q's frame. */
  function Relative(q: Quat, p: Quat): Quat { Product(Conj(q), p) }

  lemma RelativeUnit(q: Quat, p: Quat)
    requires NormSq(q) == 1.0 && NormSq(p) == 1.0
    ensures NormSq(Relative(q, p)) == 1.0
  {
    ProductNorm(Conj(q), p);
    ConjNorm(q.x, q.y, q.z, q.w);
  }

  lemma ConjNorm(x: real, y: real, z: real, w: real)
    ensures Squares(-x, -y, -z, w) == Squares(x, y, z, w)
  {}

  /** Going from q to p is conjugating by the matrix of the relative rotation. */
  lemma RotatedRelative(A: Mat3, q: Quat, p: Quat)
    requires NormSq(q) == 1.0
    ensures Rotated(A, p) == Conjugate(Rotated(A, q), QuatToMat(Relative(q, p)))
  {
    var Q, P := QuatToMat(q), QuatToMat(p);
    ProductIsMul(Conj(q), p);
    ConjIsTranspose(q);
    UnitOrthogonal(q);
    MulAssoc(Q, Transpose(Q), P);
    MulIdentity(P);
    ConjugateMul(A, Q, Mul(Transpose(Q), P));
  }

  // ----- the tilt

  /** The components off the axis of the rotation that takes one couple of pairs to another. */
  function OffAxis(f: Pair, s: Pair, f': Pair, s': Pair): Pair {
    Pair(
      f.trail * s'.lead - s.lead * f'.trail - s.trail * f'.lead + f.lead * s'.trail,
      f.trail * s'.trail - s.trail * f'.trail - f.lead * s'.lead + s.lead * f'.lead)
  }

  lemma RelativeSecond(q: Quat, p: Quat, axis: Axis, f: Pair, s: Pair, f': Pair, s': Pair)
    requires q == Join(axis, f, s) && p == Join(axis, f', s')
    ensures Second(Relative(q, p), axis) == OffAxis(f, s, f', s')
  {
    var r := Relative(q, p);
    RelativeVector(q.x, q.y, q.z, q.w, p.x, p.y, p.z, p.w, r.x);
    RelativeVector(q.y, q.z, q.x, q.w, p.y, p.z, p.x, p.w, r.y);
    RelativeVector(q.z, q.x, q.y, q.w, p.z, p.x, p.y, p.w, r.z);
  }

  lemma RelativeVector(x: real, y: real, z: real, w: real, x': real, y': real, z': real, w': real, r: real)
    requires r == VectorPart(-x, -y, -z, w, x', y', z', w')
    ensures r == w * x' - x * w' - y * z' + z * y'
  {}

  /** Both are multiples of the area between the two pairs. */
  function Tilt(cross: real, h: real, w: real): Pair { Pair(-h * h * cross, -h * (1.0 - w) * cross) }

  lemma RelativeTilt(q: Quat, axis: Axis, h: real, w: real)
    ensures Second(Relative(q, InPlace(q, AxisQuat(axis, h, w))), axis) == Tilt(Cross(q, axis), h, w)
  {
    SplitInPlace(q, axis, h, w);
    Split(q, axis);
    TiltOfJoin(q, InPlace(q, AxisQuat(axis, h, w)), axis, First(q, axis), Second(q, axis), h, w, Cross(q, axis));
  }

  lemma TiltOfJoin(q: Quat, p: Quat, axis: Axis, f: Pair, s: Pair, h: real, w: real, cross: real)
    requires q == Join(axis, f, s) && p == Join(axis, Updated(f, h, w), Updated(s, h, w))
    requires cross == f.lead * s.trail - f.trail * s.lead
    ensures Second(Relative(q, p), axis) == Tilt(cross, h, w)
  {
    RelativeSecond(q, p, axis, f, s, Updated(f, h, w), Updated(s, h, w));
    TiltOfPairs(f, s, h, w, cross);
  }

  lemma TiltOfPairs(f: Pair, s: Pair, h: real, w: real, cross: real)
    requires cross == f.lead * s.trail - f.trail * s.lead
    ensures var f', s' := Updated(f, h, w), Updated(s, h, w);
      OffAxis(f, s, f', s') == Tilt(cross, h, w)
  {
    var f', s' := Updated(f, h, w), Updated(s, h, w);
    TiltScalars(f.lead, f.trail, s.lead, s.trail, h, w, f'.lead, f'.trail, s'.lead, s'.trail, cross);
  }

  /** The update in place tilts the axis by an amount that is a product: the area between the two pairs, squared, times
      a positive function of the angle. */
  lemma TiltIs(q: Quat, axis: Axis, h: real, w: real)
    requires UnitPair(h, w)
    ensures SqNorm(Second(Relative(q, InPlace(q, AxisQuat(axis, h, w))), axis)) == Sq(Cross(q, axis)) * Slack(h, w)
  {
    RelativeTilt(q, axis, h, w);
    TiltSquares(Cross(q, axis), h, w);
  }

  lemma TiltScalars(a: real, b: real, c: real, d: real, h: real, w: real, l: real, v: real, m: real, n: real,
      cross: real)
    requires cross == a * d - b * c
    requires l == Lead(a, b, h, w) && v == Trail(b, l, h, w) && m == Lead(c, d, h, w) && n == Trail(d, m, h, w)
    ensures b * m - c * v - d * l + a * n == -h * h * cross
    ensures b * n - d * v - a * m + c * l == -h * (1.0 - w) * cross
  {}

  lemma TiltSquares(cross: real, h: real, w: real)
    requires UnitPair(h, w)
    ensures SqNorm(Tilt(cross, h, w)) == Sq(cross) * Slack(h, w)
  {
    var x, y := -h * h * cross, -h * (1.0 - w) * cross;
    assert x * x + y * y == cross * cross * (h * h) * (h * h + (1.0 - w) * (1.0 - w));
    assert h * h + (1.0 - w) * (1.0 - w) == 2.0 - 2.0 * w;
  }

  // ----- turning about the axis

  /** p is q followed by a turn about the axis. */
  ghost predicate TurnsAbout(q: Quat, p: Quat, axis: Axis) {
    exists h, w :: UnitPair(h, w) && p == Product(q, AxisQuat(axis, h, w))
  }

  /** The update in place turns about the pivot axis, by whatever angle, if and only if the quaternion it starts from
      has parallel pairs. */
  lemma UpdateTurnsIff(q: Quat, axis: Axis, h: real, w: real, sqrt: real -> real)
    requires IsSqrt(sqrt) && NormSq(q) == 1.0 && UnitPair(h, w) && w > 0.0 && h != 0.0
    ensures NormSq(InPlace(q, AxisQuat(axis, h, w))) > 0.0
    ensures TurnsAbout(q, Normalise(InPlace(q, AxisQuat(axis, h, w)), sqrt), axis) <==> Parallel(q, axis)
  {
    InPlaceNonzero(q, axis, h, w);
    var next := Normalise(InPlace(q, AxisQuat(axis, h, w)), sqrt);
    if Parallel(q, axis) {
      var h2, w2 := ParallelTurn(q, axis, h, w, sqrt);
      TurnTwice(q, axis, h, w, h2, w2);
      TurnKeepsUnit(h, w, h2, w2, Lead(h, w, h2, w2), Trail(w, h, h2, w2));
    } else if TurnsAbout(q, next, axis) {
      var h2, w2 :| UnitPair(h2, w2) && next == Product(q, AxisQuat(axis, h2, w2));
      OnlyParallelTurns(q, axis, h, w, h2, w2, sqrt);
    }
  }

  lemma TurnTwice(q: Quat, axis: Axis, h: real, w: real, h2: real, w2: real)
    ensures Product(Product(q, AxisQuat(axis, h, w)), AxisQuat(axis, h2, w2))
         == Product(q, AxisQuat(axis, Lead(h, w, h2, w2), Trail(w, h, h2, w2)))
  {
    var f, s := First(q, axis), Second(q, axis);
    SplitProduct(q, axis, h, w);
    JoinParts(axis, Turned(f, h, w), Turned(s, h, w));
    SplitProduct(Product(q, AxisQuat(axis, h, w)), axis, h2, w2);
    SplitProduct(q, axis, Lead(h, w, h2, w2), Trail(w, h, h2, w2));
    TurnedTwice(f.lead, f.trail, h, w, h2, w2);
    TurnedTwice(s.lead, s.trail, h, w, h2, w2);
  }

  lemma TurnedTwice(a: real, b: real, h: real, w: real, h2: real, w2: real)
    ensures Lead(Lead(a, b, h, w), Trail(b, a, h, w), h2, w2) == Lead(a, b, Lead(h, w, h2, w2), Trail(w, h, h2, w2))
    ensures Trail(Trail(b, a, h, w), Lead(a, b, h, w), h2, w2) == Trail(b, a, Lead(h, w, h2, w2), Trail(w, h, h2, w2))
  {}

  lemma OnlyParallelTurns(q: Quat, axis: Axis, h: real, w: real, h2: real, w2: real, sqrt: real -> real)
    requires IsSqrt(sqrt) && h != 0.0 && NormSq(InPlace(q, AxisQuat(axis, h, w))) > 0.0
    requires Normalise(InPlace(q, AxisQuat(axis, h, w)), sqrt) == Product(q, AxisQuat(axis, h2, w2))
    ensures Parallel(q, axis)
  {
    var f, s := First(q, axis), Second(q, axis);
    var k := ScaleFactor(InPlace(q, AxisQuat(axis, h, w)), Product(q, AxisQuat(axis, h2, w2)), sqrt);
    SplitInPlace(q, axis, h, w);
    SplitProduct(q, axis, h2, w2);
    StretchSplit(k, axis, Turned(f, h2, w2), Turned(s, h2, w2), Updated(f, h, w), Updated(s, h, w));
    Cramer(f.lead, f.trail, s.lead, s.trail, Times(k, w2) - w, Times(k, h2) - h, k, h, w, h2, w2);
  }

  /** Two independent pairs would force the turn's sine to be both h and h w. */
  lemma Cramer(a: real, b: real, c: real, d: real, x: real, y: real, k: real, h: real, w: real, h2: real, w2: real)
    requires h != 0.0 && x == Times(k, w2) - w && y == Times(k, h2) - h
    requires Lead(a, b, h, w) == Times(k, Lead(a, b, h2, w2)) && Lead(c, d, h, w) == Times(k, Lead(c, d, h2, w2))
    requires Trail(b, Lead(a, b, h, w), h, w) == Times(k, Trail(b, a, h2, w2))
    requires Trail(d, Lead(c, d, h, w), h, w) == Times(k, Trail(d, c, h2, w2))
    ensures a * d - b * c == 0.0
  {
    var z := y + h - h * w;
    PairEquations(a, b, x, y, z, k, h, w, h2, w2);
    PairEquations(c, d, x, y, z, k, h, w, h2, w2);
    assert x * (a * d - b * c) == d * (x * a + y * b) - b * (x * c + y * d);
    NonzeroFactor(x, a * d - b * c);
    assert (x + h * h) * (a * d - b * c) == a * ((x + h * h) * d - z * c) - c * ((x + h * h) * b - z * a);
    NonzeroFactor(x + h * h, a * d - b * c);
    SquarePositive(h, h * h);
  }

  lemma PairEquations(a: real, b: real, x: real, y: real, z: real, k: real, h: real, w: real, h2: real, w2: real)
    requires x == Times(k, w2) - w && y == Times(k, h2) - h && z == y + h - h * w
    requires Lead(a, b, h, w) == Times(k, Lead(a, b, h2, w2))
    requires Trail(b, Lead(a, b, h, w), h, w) == Times(k, Trail(b, a, h2, w2))
    ensures x * a + y * b == 0.0 && (x + h * h) * b - z * a == 0.0
  {
    assert Times(k, Lead(a, b, h2, w2)) == Times(k, w2) * a + Times(k, h2) * b;
    assert Times(k, Trail(b, a, h2, w2)) == Times(k, w2) * b - Times(k, h2) * a;
    assert Trail(b, Lead(a, b, h, w), h, w) == (w - h * h) * b - h * w * a;
  }
}
