/** An input on which the second pass of the loop leaves more than three times what the first has left off the
    diagonal. */
module GrowthExample {
  import opened Reals
  import opened Matrix3
  import opened Quaternion
  import opened JacobiStep
  import opened UpdateOrder
  import opened AxisTurn
  import opened PivotAngle
  import opened DiagonaliseResults
  import opened FirstPass

  // ----- quaternions up to a factor

  lemma StretchMatrix(k: real, kk: real, q: Quat)
    requires kk == k * k
    ensures QuatToMat(Stretch(k, q)) == Scale(kk, QuatToMat(q))
  {
    StretchEntries(k, kk, q.x, q.y, q.z, q.w);
    StretchEntries(k, kk, q.y, q.z, q.x, q.w);
    StretchEntries(k, kk, q.z, q.x, q.y, q.w);
  }

  lemma StretchEntries(k: real, kk: real, x: real, y: real, z: real, w: real)
    requires kk == k * k
    ensures Diag(Times(k, x), Times(k, y), Times(k, z), Times(k, w)) == Times(kk, Diag(x, y, z, w))
    ensures Plus(Times(k, x), Times(k, y), Times(k, z), Times(k, w)) == Times(kk, Plus(x, y, z, w))
    ensures Minus(Times(k, x), Times(k, y), Times(k, z), Times(k, w)) == Times(kk, Minus(x, y, z, w))
  {}

  lemma RowScaled(v: Vec3, k: real, M: Mat3)
    ensures RowMul(v, Scale(k, M)) == ScaleRow(k, RowMul(v, M))
    ensures RowMul(ScaleRow(k, v), M) == ScaleRow(k, RowMul(v, M))
  {
    var T := Transpose(M);
    DotScale(k, v, T.r0);
    DotScale(k, v, T.r1);
    DotScale(k, v, T.r2);
  }

  lemma ScaleTwice(k: real, kk: real, v: Vec3)
    requires kk == k * k
    ensures ScaleRow(k, ScaleRow(k, v)) == ScaleRow(kk, v)
  {}

  lemma ConjugateScaled(A: Mat3, k: real, kk: real, M: Mat3)
    requires kk == k * k
    ensures Conjugate(A, Scale(k, M)) == Scale(kk, Conjugate(A, M))
  {
    var T, N := Transpose(M), Mul(A, M);
    RowScaled(A.r0, k, M);
    RowScaled(A.r1, k, M);
    RowScaled(A.r2, k, M);
    assert Mul(A, Scale(k, M)) == Scale(k, N);
    ScaledRowMul(T.r0, k, kk, N);
    ScaledRowMul(T.r1, k, kk, N);
    ScaledRowMul(T.r2, k, kk, N);
  }

  lemma ScaledRowMul(v: Vec3, k: real, kk: real, N: Mat3)
    requires kk == k * k
    ensures RowMul(ScaleRow(k, v), Scale(k, N)) == ScaleRow(kk, RowMul(v, N))
  {
    RowScaled(v, k, Scale(k, N));
    RowScaled(v, k, N);
    ScaleTwice(k, kk, RowMul(v, N));
  }

  /** What the loop sees at a normalised quaternion, from the quaternion before normalisation. */
  lemma RotatedNormalised(A: Mat3, u: Quat, n: real, sqrt: real -> real) returns (s: real)
    requires IsSqrt(sqrt) && NormSq(u) == n > 0.0
    ensures s > 0.0 && s * (n * n) == 1.0 && Rotated(A, Normalise(u, sqrt)) == Scale(s, Rotated(A, u))
  {
    NormaliseUnit(u, sqrt);
    LengthPositive(n, sqrt);
    var k := 1.0 / sqrt(n);
    var kk: real;
    kk, s := InverseFourth(sqrt(n), n, k);
    StretchMatrix(k, kk, u);
    ConjugateScaled(A, kk, s, QuatToMat(u));
  }

  lemma InverseFourth(m: real, n: real, k: real) returns (kk: real, s: real)
    requires m > 0.0 && m * m == n && k == 1.0 / m
    ensures kk == k * k && s == kk * kk && s > 0.0 && s * (n * n) == 1.0
  {
    assert k * m == 1.0;
    kk := k * k;
    assert kk * n == (k * m) * (k * m);
    s := kk * kk;
    assert s * (n * n) == (kk * n) * (kk * n);
    SquarePositive(k, kk);
    SquarePositive(kk, s);
  }

  /** A positive factor is lost in normalisation. */
  lemma NormaliseFactor(k: real, u: Quat, sqrt: real -> real)
    requires IsSqrt(sqrt) && NormSq(u) > 0.0 && k > 0.0
    ensures NormSq(Stretch(k, u)) > 0.0 && Normalise(Stretch(k, u), sqrt) == Normalise(u, sqrt)
  {
    NormaliseUnit(u, sqrt);
    var p := Normalise(u, sqrt);
    var m := ScaleFactor(u, p, sqrt);
    LengthPositive(NormSq(u), sqrt);
    var l := sqrt(NormSq(u));
    MulPositive(k, l);
    Regroup(k, l, u.x, p.x);
    Regroup(k, l, u.y, p.y);
    Regroup(k, l, u.z, p.z);
    Regroup(k, l, u.w, p.w);
    NormaliseStretched(p, Times(k, l), sqrt);
  }

  lemma Regroup(k: real, l: real, x: real, y: real)
    requires l > 0.0 && y == x / l
    ensures Times(k, x) == Times(Times(k, l), y)
  {
    assert l * y == x;
  }

  lemma UpdateStretched(k: real, u: Quat, axis: Axis, h: real, w: real)
    ensures InPlace(Stretch(k, u), AxisQuat(axis, h, w)) == Stretch(k, InPlace(u, AxisQuat(axis, h, w)))
  {
    var f, s := First(u, axis), Second(u, axis);
    SplitInPlace(Stretch(k, u), axis, h, w);
    SplitInPlace(u, axis, h, w);
    Split(u, axis);
    StretchJoin(k, axis, f, s);
    JoinParts(axis, Scaled(k, f), Scaled(k, s));
    ScaledTurn(k, f, h, w);
    ScaledTurn(k, s, h, w);
    StretchJoin(k, axis, Updated(f, h, w), Updated(s, h, w));
  }

  lemma OffScaled(k: real, M: Mat3)
    ensures Off(Scale(k, M)) == k * k * Off(M)
  {
    ScaledSquares(k, M.r0.y, M.r0.z, M.r1.x, M.r1.z, M.r2.x, M.r2.y);
  }

  lemma ScaledSquares(k: real, a: real, b: real, c: real, d: real, e: real, f: real)
    ensures Sq(Times(k, a)) + Sq(Times(k, b)) + Sq(Times(k, c)) + Sq(Times(k, d)) + Sq(Times(k, e)) + Sq(Times(k, f))
         == k * k * (a * a + b * b + c * c + d * d + e * e + f * f)
  {}

  // ----- the input

  /** The input; its first entry makes the second angle a rational one. */
  predicate Growing(A: Mat3, a: real) { FirstEntryIs(a) && Shape(A, a) }

  predicate FirstEntryIs(a: real) { 27926754769.0 * a == 59789586916528047.0 }

  predicate Shape(A: Mat3, a: real) {
    A == Mat3(Vec3(a, 458367.0, 0.0), Vec3(458367.0, 0.0, 3541440.0), Vec3(0.0, 3541440.0, -3296660.0))
  }

  /** Multiples of the quaternion after the first and after the second pass. */
  predicate FirstIs(u: Quat) { u == Quat(175.0, 0.0, 0.0, 551.0) }
  predicate SecondIs(u: Quat) { u == Quat(2559375.0, 900900.0, -3030500.0, 6991639.0) }

  lemma Multiples() returns (u: Quat, v: Quat)
    ensures FirstIs(u) && SecondIs(v)
  {
    u, v := Quat(175.0, 0.0, 0.0, 551.0), Quat(2559375.0, 900900.0, -3030500.0, 6991639.0);
  }

  lemma FirstTurn(A: Mat3, o: real, d: real, h: real, w: real, sqrt: real -> real)
    requires IsSqrt(sqrt) && h == 0.28 && w == 0.96 && o == 3541440.0 && d == -3296660.0
    requires Pivot(A) == Some(XAxis) && OffEntry(A, XAxis) == o && Spread(A, XAxis) == d
    ensures NormSq(InPlace(UNIT, AxisQuat(XAxis, h, w))) > 0.0
    ensures Step(A, UNIT, sqrt) == Normalise(InPlace(UNIT, AxisQuat(XAxis, h, w)), sqrt)
  {
    RotatedByUnit(A);
    var c, s := 0.8432, -0.5376;
    FirstNumbers(o, d, h, w, c, s);
    PassIs(A, UNIT, XAxis, c, s, h, w, sqrt);
  }

  lemma FirstNumbers(o: real, d: real, h: real, w: real, c: real, s: real)
    requires o == 3541440.0 && d == -3296660.0 && h == 0.28 && w == 0.96 && c == 0.8432 && s == -0.5376
    ensures ClearsEntry(o, d, c, s) && h * h + w * w == 1.0 && c == w * w - h * h && s == -2.0 * h * w
  {}

  lemma FirstPivot(A: Mat3, a: real)
    requires Growing(A, a)
    ensures Pivot(A) == Some(XAxis) && OffEntry(A, XAxis) == 3541440.0 && Spread(A, XAxis) == -3296660.0
  {}

  lemma FirstUpdate(u: Quat, h: real, w: real, k: real)
    requires FirstIs(u) && h == 0.28 && w == 0.96 && k == 0.0016
    ensures InPlace(UNIT, AxisQuat(XAxis, h, w)) == Stretch(k, u) && NormSq(u) == 334226.0
  {
    UnitUpdate(XAxis, h, w);
  }

  lemma AfterFirst(A: Mat3, a: real, u: Quat, sqrt: real -> real)
    requires IsSqrt(sqrt) && Growing(A, a) && FirstIs(u)
    ensures NormSq(u) == 334226.0 && Step(A, UNIT, sqrt) == Normalise(u, sqrt)
  {
    var h, w, k := 0.28, 0.96, 0.0016;
    FirstPivot(A, a);
    FirstTurn(A, OffEntry(A, XAxis), Spread(A, XAxis), h, w, sqrt);
    FirstUpdate(u, h, w, k);
    NormaliseFactor(k, u, sqrt);
  }

  /** The matrix of the first quaternion, and what the second pass starts from, up to a factor. */
  predicate FirstTurnIs(M: Mat3) {
    M == Mat3(Vec3(334226.0, 0.0, 0.0), Vec3(0.0, 272976.0, -192850.0), Vec3(0.0, 192850.0, 272976.0))
  }

  lemma FirstMatrix(u: Quat)
    requires FirstIs(u)
    ensures FirstTurnIs(QuatToMat(u))
  {}

  predicate SecondStart(E: Mat3) {
    && E.r0.y == 41819423365111392.0 && E.r0.z == -29544266880464700.0 && E.r1.z == -41364014348146560.0
    && E.r1.y - E.r0.x == 11102204415245812.0
  }

  lemma StartOfSecond(A: Mat3, a: real, u: Quat)
    requires Growing(A, a) && FirstIs(u)
    ensures Symmetric(A) && SecondStart(Rotated(A, u))
  {
    FirstMatrix(u);
    StartEntries(A, a, QuatToMat(u));
  }

  lemma StartEntries(A: Mat3, a: real, M: Mat3)
    requires Growing(A, a) && FirstTurnIs(M)
    ensures SecondStart(Conjugate(A, M))
  {
    var b := FirstEntryTurned(a);
    FirstHalf(A, a, M, b);
    SecondHalf(M, Mul(A, M), b);
  }

  lemma FirstEntryTurned(a: real) returns (b: real)
    requires FirstEntryIs(a)
    ensures b == 334226.0 * a && 334226.0 * b == 239158347666112188.0
  {
    b := 334226.0 * a;
  }

  predicate HalfTurned(N: Mat3, b: real) {
    && N.r0 == Vec3(b, 125123190192.0, -88396075950.0)
    && N.r1 == Vec3(153198168942.0, 682966704000.0, 966728125440.0)
    && N.r2 == Vec3(0.0, 330967244440.0, -1582875764160.0)
  }

  lemma FirstHalf(A: Mat3, a: real, M: Mat3, b: real)
    requires Shape(A, a) && FirstTurnIs(M) && b == 334226.0 * a
    ensures HalfTurned(Mul(A, M), b)
  {
    RowTurned(A.r0, M, a, 458367.0, 0.0, b, 125123190192.0, -88396075950.0);
    RowTurned(A.r1, M, 458367.0, 0.0, 3541440.0, 153198168942.0, 682966704000.0, 966728125440.0);
    RowTurned(A.r2, M, 0.0, 3541440.0, -3296660.0, 0.0, 330967244440.0, -1582875764160.0);
  }

  lemma RowTurned(v: Vec3, M: Mat3, x: real, y: real, z: real, x': real, y': real, z': real)
    requires FirstTurnIs(M) && v == Vec3(x, y, z) && x' == 334226.0 * x
    requires y' == 272976.0 * y + 192850.0 * z && z' == 272976.0 * z - 192850.0 * y
    ensures RowMul(v, M) == Vec3(x', y', z')
  {}

  lemma SecondHalf(M: Mat3, N: Mat3, b: real)
    requires FirstTurnIs(M) && HalfTurned(N, b) && 334226.0 * b == 239158347666112188.0
    ensures SecondStart(Mul(Transpose(M), N))
  {}

  /** A factor changes neither the pivot nor the turn that clears it. */
  lemma ScaledPivot(k: real, E: Mat3, c: real, s: real)
    requires k > 0.0 && SecondStart(E) && ClearsEntry(41819423365111392.0, 11102204415245812.0, c, s)
    ensures var D := Scale(k, E);
      Pivot(D) == Some(ZAxis) && ClearsEntry(OffEntry(D, ZAxis), Spread(D, ZAxis), c, s)
  {
    var o, d := 41819423365111392.0, 11102204415245812.0;
    MulPositive(k, o);
    MulPositive(Times(k, d), Times(k, o));
    assert Times(k, d) == Spread(Scale(k, E), ZAxis);
    assert k * ((c * c - s * s) * o) == k * (c * s * d);
  }

  lemma SecondNumbers(h: real, w: real, c: real, s: real)
    requires h == -0.352 && w == 0.936 && c == 0.752192 && s == 0.658944
    ensures ClearsEntry(41819423365111392.0, 11102204415245812.0, c, s)
    ensures h * h + w * w == 1.0 && c == w * w - h * h && s == -2.0 * h * w
  {}

  lemma SecondUpdate(u: Quat, v: Quat, h: real, w: real, k: real)
    requires FirstIs(u) && SecondIs(v) && h == -0.352 && w == 0.936 && k == 0.000064
    ensures InPlace(u, AxisQuat(ZAxis, h, w)) == Stretch(k, v) && NormSq(v) == 65428967356946.0
  {
    SplitInPlace(u, ZAxis, h, w);
  }

  /** After the second pass. */
  lemma AfterSecond(A: Mat3, a: real, u: Quat, v: Quat, sqrt: real -> real)
    requires IsSqrt(sqrt) && Growing(A, a) && FirstIs(u) && SecondIs(v)
    ensures NormSq(u) == 334226.0 && NormSq(v) == 65428967356946.0
    ensures NormSq(Normalise(u, sqrt)) == 1.0 && Step(A, Normalise(u, sqrt), sqrt) == Normalise(v, sqrt)
    ensures Pivot(Rotated(A, Normalise(u, sqrt))) == Some(ZAxis)
  {
    var h, w, c, s, k := -0.352, 0.936, 0.752192, 0.658944, 0.000064;
    AfterFirst(A, a, u, sqrt);
    NormaliseUnit(u, sqrt);
    var factor := RotatedNormalised(A, u, 334226.0, sqrt);
    StartOfSecond(A, a, u);
    SecondNumbers(h, w, c, s);
    ScaledPivot(factor, Rotated(A, u), c, s);
    var q := Normalise(u, sqrt);
    PassIs(A, q, ZAxis, c, s, h, w, sqrt);
    SecondUpdate(u, v, h, w, k);
    SecondNormalised(u, v, q, ZAxis, h, w, k, sqrt);
  }

  lemma SecondNormalised(u: Quat, v: Quat, q: Quat, axis: Axis, h: real, w: real, k: real, sqrt: real -> real)
    requires IsSqrt(sqrt) && NormSq(u) > 0.0 && NormSq(v) > 0.0 && q == Normalise(u, sqrt) && k > 0.0
    requires InPlace(u, AxisQuat(axis, h, w)) == Stretch(k, v)
    ensures NormSq(InPlace(q, AxisQuat(axis, h, w))) > 0.0
    ensures Normalise(InPlace(q, AxisQuat(axis, h, w)), sqrt) == Normalise(v, sqrt)
  {
    NormaliseUnit(u, sqrt);
    LengthPositive(NormSq(u), sqrt);
    var l := 1.0 / sqrt(NormSq(u));
    UpdateStretched(l, u, axis, h, w);
    NormaliseFactor(k, v, sqrt);
    NormaliseFactor(l, Stretch(k, v), sqrt);
  }

  // ----- the sums off the diagonal

  lemma SecondColumns(v: Quat, M: Mat3)
    requires SecondIs(v) && M == QuatToMat(v)
    ensures M.r0.y == 46987805854000.0 && M.r1.y == 33960306075696.0 && M.r2.y == 30328097231250.0
    ensures M.r0.z == -2914836724800.0 && M.r1.z == -41248807031250.0 && M.r2.z == 50704924955696.0
  {}

  lemma EndEntry(A: Mat3, a: real, v: Quat)
    requires Growing(A, a) && SecondIs(v)
    ensures Rotated(A, v).r1.z <= -4620000000000000000000000000000000.0
  {
    var M := QuatToMat(v);
    SecondColumns(v, M);
    var N := Mul(A, M);
    EndColumn(A, a, M, N);
    EndNumbers(a, N.r0.z);
    assert Rotated(A, v).r1.z == M.r0.y * N.r0.z + M.r1.y * N.r1.z + M.r2.y * N.r2.z;
  }

  lemma EndColumn(A: Mat3, a: real, M: Mat3, N: Mat3)
    requires Shape(A, a) && N == Mul(A, M)
    requires M.r0.z == -2914836724800.0 && M.r1.z == -41248807031250.0 && M.r2.z == 50704924955696.0
    ensures N.r0.z == -2914836724800.0 * a - 18907091932492968750.0
    ensures N.r1.z == 178232384470063640640.0 && N.r2.z == -313237073077194775360.0
  {}

  lemma EndNumbers(a: real, x: real)
    requires FirstEntryIs(a) && x == -2914836724800.0 * a - 18907091932492968750.0
    ensures 46987805854000.0 * x + 33960306075696.0 * 178232384470063640640.0
          + 30328097231250.0 * -313237073077194775360.0 <= -4620000000000000000000000000000000.0
  {}

  lemma OffAfterFirst(A: Mat3, u: Quat, sqrt: real -> real)
    requires IsSqrt(sqrt) && Symmetric(A) && NormSq(u) == 334226.0 && SecondStart(Rotated(A, u))
    ensures Off(Rotated(A, Normalise(u, sqrt))) <= 694430276658.0
  {
    var k := RotatedNormalised(A, u, 334226.0, sqrt);
    ConjugateSymmetric(A, QuatToMat(u));
    OffOfScaled(k, Rotated(A, u));
  }

  lemma OffOfScaled(k: real, E: Mat3)
    requires Symmetric(E) && SecondStart(E) && k * (334226.0 * 334226.0) == 1.0
    ensures Off(Scale(k, E)) <= 694430276658.0
  {
    OffScaled(k, E);
    OffOfStart(E);
    ScaledOff(k, Off(E));
  }

  lemma OffOfStart(E: Mat3)
    requires Symmetric(E) && SecondStart(E)
    ensures Off(E) == 8665419118176444965336311508202528.0
  {}

  lemma ScaledOff(k: real, off: real)
    requires k * (334226.0 * 334226.0) == 1.0 && off == 8665419118176444965336311508202528.0
    ensures k * k * off <= 694430276658.0
  {
    assert k == 1.0 / 111707019076.0;
  }

  lemma OffAfterSecond(A: Mat3, v: Quat, sqrt: real -> real)
    requires IsSqrt(sqrt) && Symmetric(A) && NormSq(v) == 65428967356946.0
    requires Rotated(A, v).r1.z <= -4620000000000000000000000000000000.0
    ensures Off(Rotated(A, Normalise(v, sqrt))) >= 2300000000000.0
  {
    var k := RotatedNormalised(A, v, 65428967356946.0, sqrt);
    ConjugateSymmetric(A, QuatToMat(Normalise(v, sqrt)));
    var D := Rotated(A, Normalise(v, sqrt));
    ScaledEntry(k, Rotated(A, v).r1.z);
    LargeEntry(D);
  }

  lemma ScaledEntry(k: real, e: real)
    requires k > 0.0 && k * (65428967356946.0 * 65428967356946.0) == 1.0 && e <= -4620000000000000000000000000000000.0
    ensures Times(k, e) <= -1079000.0
  {
    MulOrder(k, e, -4620000000000000000000000000000000.0);
  }

  lemma LargeEntry(D: Mat3)
    requires Symmetric(D) && D.r1.z <= -1079000.0
    ensures Off(D) >= 2300000000000.0
  {
    SquareOrder(1079000.0, -D.r1.z);
    SqNonnegative(D.r0.y);
    SqNonnegative(D.r0.z);
  }

  /** The first pass pivots on x and the second on z, and the second leaves more than three times what the first
      left. */
  lemma SecondPassGrows(A: Mat3, a: real, sqrt: real -> real)
    requires IsSqrt(sqrt) && Growing(A, a)
    ensures Symmetric(A) && NormSq(Step(A, UNIT, sqrt)) == 1.0
    ensures Pivot(A) == Some(XAxis) && Pivot(Rotated(A, Step(A, UNIT, sqrt))) == Some(ZAxis)
    ensures Off(Rotated(A, Step(A, Step(A, UNIT, sqrt), sqrt))) > 3.0 * Off(Rotated(A, Step(A, UNIT, sqrt)))
  {
    FirstPivot(A, a);
    var u, v := TwoPasses(A, a, sqrt);
    OffAfterFirst(A, u, sqrt);
    OffAfterSecond(A, v, sqrt);
  }

  lemma TwoPasses(A: Mat3, a: real, sqrt: real -> real) returns (u: Quat, v: Quat)
    requires IsSqrt(sqrt) && Growing(A, a)
    ensures Symmetric(A) && NormSq(u) == 334226.0 && NormSq(v) == 65428967356946.0
    ensures Step(A, UNIT, sqrt) == Normalise(u, sqrt) && NormSq(Normalise(u, sqrt)) == 1.0
    ensures Step(A, Normalise(u, sqrt), sqrt) == Normalise(v, sqrt)
    ensures Pivot(Rotated(A, Normalise(u, sqrt))) == Some(ZAxis)
    ensures SecondStart(Rotated(A, u)) && Rotated(A, v).r1.z <= -4620000000000000000000000000000000.0
  {
    u, v := Multiples();
    StartOfSecond(A, a, u);
    AfterFirst(A, a, u, sqrt);
    AfterSecond(A, a, u, v, sqrt);
    EndEntry(A, a, v);
  }
}
