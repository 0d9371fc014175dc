/** One step of the 3x3 diagonaliser: choose a pivot, form its rotation, update the quaternion in place, normalise. */
module JacobiStep {
  import opened Reals
  import opened Matrix3
  import opened Quaternion
  import opened JacobiRotation

  datatype Axis = XAxis | YAxis | ZAxis
  datatype Option<T> = None | Some(value: T)

  /** The off-diagonal entry a rotation about the axis acts on: o[0], o[1], o[2] of the source. */
  function OffEntry(D: Mat3, axis: Axis): real {
    match axis case XAxis => D.r1.z case YAxis => D.r0.z case ZAxis => D.r0.y
  }

  /** The difference of the two diagonal entries that entry couples. */
  function Spread(D: Mat3, axis: Axis): real {
    match axis case XAxis => D.r2.z - D.r1.y case YAxis => D.r0.x - D.r2.z case ZAxis => D.r1.y - D.r0.x
  }

  /** The entry of the axis is strictly larger in magnitude than the other two. */
  predicate StrictlyLargest(D: Mat3, axis: Axis) {
    forall other: Axis :: other != axis ==> Abs(OffEntry(D, axis)) > Abs(OffEntry(D, other))
  }

  /** The pivot of a step; none when two entries tie for the largest. */
  function Pivot(D: Mat3): Option<Axis> {
    var m0, m1, m2 := Abs(D.r1.z), Abs(D.r0.z), Abs(D.r0.y);
    if m0 > m1 && m0 > m2 then Some(XAxis)
    else if m1 > m2 && m1 > m0 then Some(YAxis)
    else if m2 > m1 && m2 > m0 then Some(ZAxis)
    else None
  }

  lemma PivotFacts(D: Mat3)
    ensures Pivot(D).Some? ==> StrictlyLargest(D, Pivot(D).value) && OffEntry(D, Pivot(D).value) != 0.0
    ensures Pivot(D).None? ==> forall axis: Axis :: !StrictlyLargest(D, axis)
  {
    if Pivot(D).Some? {
      var axis := Pivot(D).value;
      assert forall other: Axis :: Abs(OffEntry(D, other)) >= 0.0;
      assert OffEntry(D, axis) != 0.0 by {
        var other := if axis == XAxis then YAxis else XAxis;
        assert Abs(OffEntry(D, axis)) > Abs(OffEntry(D, other));
      }
    } else {
      forall axis: Axis
        ensures !StrictlyLargest(D, axis)
      {
        var b, c := if axis == XAxis then YAxis else XAxis, if axis == ZAxis then YAxis else ZAxis;
        assert Abs(OffEntry(D, axis)) <= Abs(OffEntry(D, b)) || Abs(OffEntry(D, axis)) <= Abs(OffEntry(D, c));
      }
    }
  }

  function AxisQuat(axis: Axis, h: real, w: real): Quat {
    match axis
    case XAxis => Quat(h, 0.0, 0.0, w)
    case YAxis => Quat(0.0, h, 0.0, w)
    case ZAxis => Quat(0.0, 0.0, h, w)
  }

  function Theta(D: Mat3, axis: Axis): real
    requires OffEntry(D, axis) != 0.0
  {
    Spread(D, axis) / (2.0 * OffEntry(D, axis))
  }

  /** The vector component of the rotation that pivots on the axis. */
  function PivotSine(D: Mat3, axis: Axis, sqrt: real -> real): real
    requires IsSqrt(sqrt) && OffEntry(D, axis) != 0.0
  {
    var theta := Theta(D, axis);
    HalfSine(theta, Cosine(Tangent(theta, sqrt), sqrt), sqrt)
  }

  /** jr of the source: the quaternion of this step's rotation. */
  function Rotation(D: Mat3, sqrt: real -> real): Quat
    requires IsSqrt(sqrt)
  {
    match Pivot(D)
    case None => UNIT
    case Some(axis) =>
      PivotFacts(D);
      var h := PivotSine(D, axis, sqrt);
      AxisQuat(axis, h, HalfCosine(h, sqrt))
  }

  /** The update of q[0..3] as written: each assignment already sees the components assigned before it. */
  function InPlace(q: Quat, r: Quat): Quat {
    var x := VectorPart(q.x, q.y, q.z, q.w, r.x, r.y, r.z, r.w);
    var y := VectorPart(q.y, q.z, x, q.w, r.y, r.z, r.x, r.w);
    var z := VectorPart(q.z, x, y, q.w, r.z, r.x, r.y, r.w);
    var w := ScalarPart(x, y, z, q.w, r.x, r.y, r.z, r.w);
    Quat(x, y, z, w)
  }

  // On a rotation about one axis the update splits the quaternion into two pairs: a leading component, assigned first,
  // and a trailing one. The quaternion product would give the trailing component the old leading one.

  datatype Pair = Pair(lead: real, trail: real)

  function First(q: Quat, axis: Axis): Pair {
    match axis case XAxis => Pair(q.x, q.w) case YAxis => Pair(q.y, q.w) case ZAxis => Pair(q.z, q.w)
  }

  function Second(q: Quat, axis: Axis): Pair {
    match axis case XAxis => Pair(q.y, q.z) case YAxis => Pair(q.x, -q.z) case ZAxis => Pair(q.x, q.y)
  }

  function Join(axis: Axis, p: Pair, s: Pair): Quat {
    match axis
    case XAxis => Quat(p.lead, s.lead, s.trail, p.trail)
    case YAxis => Quat(s.lead, p.lead, -s.trail, p.trail)
    case ZAxis => Quat(s.lead, s.trail, p.lead, p.trail)
  }

  function SqNorm(p: Pair): real { p.lead * p.lead + p.trail * p.trail }

  function Lead(a: real, b: real, h: real, w: real): real { w * a + h * b }
  function Trail(b: real, a: real, h: real, w: real): real { w * b - h * a }

  /** What the quaternion product does to a pair. */
  function Turned(p: Pair, h: real, w: real): Pair {
    Pair(Lead(p.lead, p.trail, h, w), Trail(p.trail, p.lead, h, w))
  }

  /** What the update in place does to a pair. */
  function Updated(p: Pair, h: real, w: real): Pair {
    var lead := Lead(p.lead, p.trail, h, w);
    Pair(lead, Trail(p.trail, lead, h, w))
  }

  lemma Split(q: Quat, axis: Axis)
    ensures q == Join(axis, First(q, axis), Second(q, axis))
    ensures NormSq(q) == SqNorm(First(q, axis)) + SqNorm(Second(q, axis))
  {}

  lemma SplitInPlace(q: Quat, axis: Axis, h: real, w: real)
    ensures InPlace(q, AxisQuat(axis, h, w)) == Join(axis, Updated(First(q, axis), h, w),
      Updated(Second(q, axis), h, w))
  {
    var r := AxisQuat(axis, h, w);
    var u := InPlace(q, r);
    match axis
    case XAxis => InPlaceAboutX(q.x, q.y, q.z, q.w, r.x, r.y, r.z, r.w, u.x, u.y, u.z, u.w);
    case YAxis => InPlaceAboutY(q.x, q.y, q.z, q.w, r.x, r.y, r.z, r.w, u.x, u.y, u.z, u.w);
    case ZAxis => InPlaceAboutZ(q.x, q.y, q.z, q.w, r.x, r.y, r.z, r.w, u.x, u.y, u.z, u.w);
  }

  lemma SplitProduct(q: Quat, axis: Axis, h: real, w: real)
    ensures Product(q, AxisQuat(axis, h, w)) == Join(axis, Turned(First(q, axis), h, w), Turned(Second(q, axis), h, w))
  {
    var r := AxisQuat(axis, h, w);
    match axis
    case XAxis => ProductAboutX(q.x, q.y, q.z, q.w, r.x, r.y, r.z, r.w);
    case YAxis => ProductAboutY(q.x, q.y, q.z, q.w, r.x, r.y, r.z, r.w);
    case ZAxis => ProductAboutZ(q.x, q.y, q.z, q.w, r.x, r.y, r.z, r.w);
  }

  lemma InPlaceAboutX(a: real, b: real, c: real, d: real, rx: real, ry: real, rz: real, rw: real,
      x: real, y: real, z: real, w: real)
    requires ry == 0.0 && rz == 0.0
    requires x == VectorPart(a, b, c, d, rx, ry, rz, rw) && y == VectorPart(b, c, x, d, ry, rz, rx, rw)
    requires z == VectorPart(c, x, y, d, rz, rx, ry, rw) && w == ScalarPart(x, y, z, d, rx, ry, rz, rw)
    ensures x == Lead(a, d, rx, rw) && y == Lead(b, c, rx, rw)
    ensures z == Trail(c, y, rx, rw) && w == Trail(d, x, rx, rw)
  {}

  lemma ProductAboutX(a: real, b: real, c: real, d: real, rx: real, ry: real, rz: real, rw: real)
    requires ry == 0.0 && rz == 0.0
    ensures var x, y := VectorPart(a, b, c, d, rx, ry, rz, rw), VectorPart(b, c, a, d, ry, rz, rx, rw);
      var z, w := VectorPart(c, a, b, d, rz, rx, ry, rw), ScalarPart(a, b, c, d, rx, ry, rz, rw);
      && x == Lead(a, d, rx, rw) && y == Lead(b, c, rx, rw)
      && z == Trail(c, b, rx, rw) && w == Trail(d, a, rx, rw)
  {}

  lemma InPlaceAboutY(a: real, b: real, c: real, d: real, rx: real, ry: real, rz: real, rw: real,
      x: real, y: real, z: real, w: real)
    requires rx == 0.0 && rz == 0.0
    requires x == VectorPart(a, b, c, d, rx, ry, rz, rw) && y == VectorPart(b, c, x, d, ry, rz, rx, rw)
    requires z == VectorPart(c, x, y, d, rz, rx, ry, rw) && w == ScalarPart(x, y, z, d, rx, ry, rz, rw)
    ensures x == Lead(a, -c, ry, rw) && y == Lead(b, d, ry, rw)
    ensures -z == Trail(-c, x, ry, rw) && w == Trail(d, y, ry, rw)
  {}

  lemma ProductAboutY(a: real, b: real, c: real, d: real, rx: real, ry: real, rz: real, rw: real)
    requires rx == 0.0 && rz == 0.0
    ensures var x, y := VectorPart(a, b, c, d, rx, ry, rz, rw), VectorPart(b, c, a, d, ry, rz, rx, rw);
      var z, w := VectorPart(c, a, b, d, rz, rx, ry, rw), ScalarPart(a, b, c, d, rx, ry, rz, rw);
      && x == Lead(a, -c, ry, rw) && y == Lead(b, d, ry, rw)
      && -z == Trail(-c, a, ry, rw) && w == Trail(d, b, ry, rw)
  {}

  lemma InPlaceAboutZ(a: real, b: real, c: real, d: real, rx: real, ry: real, rz: real, rw: real,
      x: real, y: real, z: real, w: real)
    requires rx == 0.0 && ry == 0.0
    requires x == VectorPart(a, b, c, d, rx, ry, rz, rw) && y == VectorPart(b, c, x, d, ry, rz, rx, rw)
    requires z == VectorPart(c, x, y, d, rz, rx, ry, rw) && w == ScalarPart(x, y, z, d, rx, ry, rz, rw)
    ensures x == Lead(a, b, rz, rw) && y == Trail(b, x, rz, rw)
    ensures z == Lead(c, d, rz, rw) && w == Trail(d, z, rz, rw)
  {}

  lemma ProductAboutZ(a: real, b: real, c: real, d: real, rx: real, ry: real, rz: real, rw: real)
    requires rx == 0.0 && ry == 0.0
    ensures var x, y := VectorPart(a, b, c, d, rx, ry, rz, rw), VectorPart(b, c, a, d, ry, rz, rx, rw);
      var z, w := VectorPart(c, a, b, d, rz, rx, ry, rw), ScalarPart(a, b, c, d, rx, ry, rz, rw);
      && x == Lead(a, b, rz, rw) && y == Trail(b, a, rz, rw)
      && z == Lead(c, d, rz, rw) && w == Trail(d, c, rz, rw)
  {}

  // ----- normalisation

  function Normalise(q: Quat, sqrt: real -> real): Quat
    requires IsSqrt(sqrt) && NormSq(q) > 0.0
  {
    LengthPositive(NormSq(q), sqrt);
    var mq := sqrt(NormSq(q));
    Quat(q.x / mq, q.y / mq, q.z / mq, q.w / mq)
  }

  lemma LengthPositive(n: real, sqrt: real -> real)
    requires IsSqrt(sqrt) && n > 0.0
    ensures sqrt(n) > 0.0 && Root(sqrt(n), n)
  {
    assert Root(sqrt(n), n);
  }

  lemma NormaliseUnit(q: Quat, sqrt: real -> real)
    requires IsSqrt(sqrt) && NormSq(q) > 0.0
    ensures sqrt(NormSq(q)) > 0.0 && Normalise(q, sqrt) == Stretch(1.0 / sqrt(NormSq(q)), q)
    ensures NormSq(Normalise(q, sqrt)) == 1.0
  {
    LengthPositive(NormSq(q), sqrt);
    var mq := sqrt(NormSq(q));
    StretchNorm(1.0 / mq, q);
    InverseSquare(mq, NormSq(q));
  }

  lemma InverseSquare(m: real, n: real)
    requires m > 0.0 && m * m == n
    ensures (1.0 / m) * (1.0 / m) * n == 1.0
  {
    var k := 1.0 / m;
    assert k * m == 1.0;
    assert k * k * (m * m) == (k * m) * (k * m);
  }

  lemma NonzeroNorm(q: Quat)
    requires q != Quat(0.0, 0.0, 0.0, 0.0)
    ensures NormSq(q) > 0.0
  {
    SquareSum(q.x, q.y, q.z, q.w);
  }

  lemma SquareSum(a: real, b: real, c: real, d: real)
    requires a != 0.0 || b != 0.0 || c != 0.0 || d != 0.0
    ensures Squares(a, b, c, d) > 0.0
  {
    if a != 0.0 { SquarePositive(a, a * a); }
    if b != 0.0 { SquarePositive(b, b * b); }
    if c != 0.0 { SquarePositive(c, c * c); }
    if d != 0.0 { SquarePositive(d, d * d); }
  }

  /** The update in place never collapses a quaternion. */
  lemma InPlaceNonzero(q: Quat, axis: Axis, h: real, w: real)
    requires NormSq(q) > 0.0 && w > 0.0
    ensures NormSq(InPlace(q, AxisQuat(axis, h, w))) > 0.0
  {
    SplitInPlace(q, axis, h, w);
    NonzeroPair(q, axis);
    UpdatedNonzero(First(q, axis), h, w);
    UpdatedNonzero(Second(q, axis), h, w);
    JoinNonzero(axis, Updated(First(q, axis), h, w), Updated(Second(q, axis), h, w));
  }

  lemma NonzeroPair(q: Quat, axis: Axis)
    requires NormSq(q) > 0.0
    ensures First(q, axis) != Pair(0.0, 0.0) || Second(q, axis) != Pair(0.0, 0.0)
  {}

  lemma JoinNonzero(axis: Axis, p: Pair, s: Pair)
    requires p != Pair(0.0, 0.0) || s != Pair(0.0, 0.0)
    ensures NormSq(Join(axis, p, s)) > 0.0
  {
    NonzeroNorm(Join(axis, p, s));
  }

  lemma UpdatedNonzero(p: Pair, h: real, w: real)
    requires w > 0.0
    ensures Updated(p, h, w) == Pair(0.0, 0.0) ==> p == Pair(0.0, 0.0)
  {
    if Updated(p, h, w) == Pair(0.0, 0.0) {
      ZeroFactor(w, p.trail);
      ZeroFactor(w, p.lead);
    }
  }

  lemma ZeroFactor(w: real, b: real)
    requires w > 0.0
    ensures w * b == 0.0 ==> b == 0.0
  {
    if b > 0.0 { MulPositive(w, b); } else if b < 0.0 { MulPositive(w, -b); }
  }

  // ----- the step

  lemma RotationFacts(D: Mat3, sqrt: real -> real)
    requires IsSqrt(sqrt)
    ensures Pivot(D).None? ==> Rotation(D, sqrt) == AxisQuat(XAxis, 0.0, 1.0)
    ensures Pivot(D).Some? ==> OffEntry(D, Pivot(D).value) != 0.0
    ensures Pivot(D).Some? ==>
      var axis := Pivot(D).value;
      var theta, h := Theta(D, axis), PivotSine(D, axis, sqrt);
      var t := Tangent(theta, sqrt);
      && Rotation(D, sqrt) == AxisQuat(axis, h, HalfCosine(h, sqrt))
      && TangentOf(theta, t) && HalfAngle(t, Cosine(t, sqrt), h, HalfCosine(h, sqrt))
  {
    PivotFacts(D);
    if Pivot(D).Some? {
      HalfAngleFacts(Theta(D, Pivot(D).value), sqrt);
    }
  }

  /** D of the source for the rotation q has reached. */
  function Rotated(A: Mat3, q: Quat): Mat3 { Conjugate(A, QuatToMat(q)) }

  lemma UpdateNonzero(q: Quat, D: Mat3, sqrt: real -> real)
    requires IsSqrt(sqrt) && NormSq(q) == 1.0
    ensures NormSq(InPlace(q, Rotation(D, sqrt))) > 0.0
  {
    RotationFacts(D, sqrt);
    if Pivot(D).Some? {
      var h := PivotSine(D, Pivot(D).value, sqrt);
      InPlaceNonzero(q, Pivot(D).value, h, HalfCosine(h, sqrt));
    } else {
      InPlaceNonzero(q, XAxis, 0.0, 1.0);
    }
  }

  /** The quaternion after one more pass through the loop. */
  function Step(A: Mat3, q: Quat, sqrt: real -> real): Quat
    requires IsSqrt(sqrt) && NormSq(q) == 1.0
  {
    UpdateNonzero(q, Rotated(A, q), sqrt);
    Normalise(InPlace(q, Rotation(Rotated(A, q), sqrt)), sqrt)
  }

  lemma StepUnit(A: Mat3, q: Quat, sqrt: real -> real)
    requires IsSqrt(sqrt) && NormSq(q) == 1.0
    ensures NormSq(Step(A, q, sqrt)) == 1.0
  {
    UpdateNonzero(q, Rotated(A, q), sqrt);
    NormaliseUnit(InPlace(q, Rotation(Rotated(A, q), sqrt)), sqrt);
  }

  /** Without a pivot a step changes nothing. */
  lemma StepWithoutPivot(A: Mat3, q: Quat, sqrt: real -> real)
    requires IsSqrt(sqrt) && NormSq(q) == 1.0 && Pivot(Rotated(A, q)).None?
    ensures Step(A, q, sqrt) == q
  {
    RotationFacts(Rotated(A, q), sqrt);
    UpdatedByUnit(q);
    SqrtIs(sqrt, 1.0, 1.0);
  }

  lemma UpdatedByUnit(q: Quat)
    ensures InPlace(q, UNIT) == q
  {
    SplitInPlace(q, XAxis, 0.0, 1.0);
    Split(q, XAxis);
  }

  /** The source leaves the loop when jr[3] is 1; that is exactly when there is no pivot. */
  lemma ExitTest(D: Mat3, sqrt: real -> real)
    requires IsSqrt(sqrt)
    ensures Rotation(D, sqrt).w == 1.0 <==> Pivot(D).None?
  {
    RotationFacts(D, sqrt);
    if Pivot(D).Some? {
      var axis := Pivot(D).value;
      var h := PivotSine(D, axis, sqrt);
      CosineBelowOne(Cosine(Tangent(Theta(D, axis), sqrt), sqrt), HalfCosine(h, sqrt));
    }
  }

  lemma CosineBelowOne(c: real, w: real)
    requires c < 1.0 && w * w == (1.0 + c) / 2.0
    ensures w != 1.0
  {}
}
