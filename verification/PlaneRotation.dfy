/** What a rotation about one axis does to a symmetric matrix, entry by entry. */
module PlaneRotation {
  import opened Matrix3
  import opened Quaternion
  import opened JacobiStep

  /** A symmetric matrix seen from an axis: d0, d1 and o are the entries of the plane turned, d2 is on the axis, and e0
      and e1 couple the plane to the axis. */
  datatype Plane = Plane(d0: real, d1: real, o: real, e0: real, e1: real, d2: real)

  function ToPlane(D: Mat3, axis: Axis): Plane {
    match axis
    case XAxis => Plane(D.r1.y, D.r2.z, D.r1.z, D.r1.x, D.r2.x, D.r0.x)
    case YAxis => Plane(D.r2.z, D.r0.x, D.r0.z, D.r2.y, D.r0.y, D.r1.y)
    case ZAxis => Plane(D.r0.x, D.r1.y, D.r0.y, D.r0.z, D.r1.z, D.r2.z)
  }

  // One index turned: the column entries (a, b) of the plane become (C a - S b, S a + C b).
  function Low(a: real, b: real, C: real, S: real): real { C * a - S * b }
  function High(a: real, b: real, C: real, S: real): real { S * a + C * b }

  function TurnPlane(p: Plane, C: real, S: real): Plane {
    Plane(
      Low(Low(p.d0, p.o, C, S), Low(p.o, p.d1, C, S), C, S),
      High(High(p.d0, p.o, C, S), High(p.o, p.d1, C, S), C, S),
      High(Low(p.d0, p.o, C, S), Low(p.o, p.d1, C, S), C, S),
      Low(p.e0, p.e1, C, S),
      High(p.e0, p.e1, C, S),
      p.d2)
  }

  function TurnMatrix(axis: Axis, C: real, S: real): Mat3 {
    match axis
    case XAxis => Mat3(Vec3(1.0, 0.0, 0.0), Vec3(0.0, C, S), Vec3(0.0, -S, C))
    case YAxis => Mat3(Vec3(C, 0.0, -S), Vec3(0.0, 1.0, 0.0), Vec3(S, 0.0, C))
    case ZAxis => Mat3(Vec3(C, S, 0.0), Vec3(-S, C, 0.0), Vec3(0.0, 0.0, 1.0))
  }

  /** The cosine and sine of the rotation whose half angle has cosine w and sine -h. */
  function TurnCos(h: real, w: real): real { w * w - h * h }
  function TurnSin(h: real, w: real): real { -2.0 * h * w }

  lemma AxisQuatTurns(axis: Axis, h: real, w: real)
    requires h * h + w * w == 1.0
    ensures QuatToMat(AxisQuat(axis, h, w)) == TurnMatrix(axis, TurnCos(h, w), TurnSin(h, w))
  {
    AxisEntries(h, 0.0, 0.0, w);
  }

  lemma AxisEntries(h: real, a: real, b: real, w: real)
    requires h * h + w * w == 1.0 && a == 0.0 && b == 0.0
    ensures Diag(h, a, b, w) == 1.0 && Diag(a, b, h, w) == TurnCos(h, w) == Diag(a, h, b, w)
    ensures Diag(b, h, a, w) == TurnCos(h, w) == Diag(b, a, h, w)
    ensures Minus(h, a, b, w) == 0.0 == Plus(h, a, b, w) == Minus(b, h, a, w) == Plus(b, h, a, w)
    ensures Minus(a, b, h, w) == TurnSin(h, w) && Plus(a, b, h, w) == -TurnSin(h, w)
  {}

  lemma RowTurnZ(v: Vec3, C: real, S: real)
    ensures RowMul(v, TurnMatrix(ZAxis, C, S)) == Vec3(Low(v.x, v.y, C, S), High(v.x, v.y, C, S), v.z)
  {}
  lemma RowTurnX(v: Vec3, C: real, S: real)
    ensures RowMul(v, TurnMatrix(XAxis, C, S)) == Vec3(v.x, Low(v.y, v.z, C, S), High(v.y, v.z, C, S))
  {}
  lemma RowTurnY(v: Vec3, C: real, S: real)
    ensures RowMul(v, TurnMatrix(YAxis, C, S)) == Vec3(High(v.z, v.x, C, S), v.y, Low(v.z, v.x, C, S))
  {}

  lemma ConjugateTurns(D: Mat3, axis: Axis, C: real, S: real)
    requires Symmetric(D)
    ensures ToPlane(Conjugate(D, TurnMatrix(axis, C, S)), axis) == TurnPlane(ToPlane(D, axis), C, S)
  {
    var J := TurnMatrix(axis, C, S);
    var M := Mul(D, J);
    ConjugateSymmetric(D, J);
    TransposeMul(Transpose(J), M);
    var T := Transpose(M);
    assert Conjugate(D, J) == Mul(T, J);
    match axis
    case XAxis =>
      RowTurnX(D.r0, C, S); RowTurnX(D.r1, C, S); RowTurnX(D.r2, C, S);
      RowTurnX(T.r0, C, S); RowTurnX(T.r1, C, S); RowTurnX(T.r2, C, S);
    case YAxis =>
      RowTurnY(D.r0, C, S); RowTurnY(D.r1, C, S); RowTurnY(D.r2, C, S);
      RowTurnY(T.r0, C, S); RowTurnY(T.r1, C, S); RowTurnY(T.r2, C, S);
    case ZAxis =>
      RowTurnZ(D.r0, C, S); RowTurnZ(D.r1, C, S); RowTurnZ(D.r2, C, S);
      RowTurnZ(T.r0, C, S); RowTurnZ(T.r1, C, S); RowTurnZ(T.r2, C, S);
  }

  /** The pivot entry after a turn, from the entry and the spread before it. */
  function TurnedEntry(o: real, d: real, C: real, S: real): real { (C * C - S * S) * o - C * S * d }

  /** The spread after a turn. */
  function TurnedSpread(o: real, d: real, C: real, S: real): real { (C * C - S * S) * d + 4.0 * (C * S) * o }

  function Energy(o: real, d: real): real { 4.0 * o * o + d * d }

  function PlaneSpread(p: Plane): real { p.d1 - p.d0 }

  function Coupling(p: Plane): real { p.e0 * p.e0 + p.e1 * p.e1 }

  /** The pivot entry in closed form, and the two sums of squares a turn keeps. */
  lemma TurnFacts(p: Plane, C: real, S: real)
    requires C * C + S * S == 1.0
    ensures var t := TurnPlane(p, C, S);
      && t.o == TurnedEntry(p.o, PlaneSpread(p), C, S)
      && Energy(t.o, PlaneSpread(t)) == Energy(p.o, PlaneSpread(p))
      && Coupling(t) == Coupling(p)
  {
    var t := TurnPlane(p, C, S);
    PlaneEntries(p.d0, p.d1, p.o, C, S, t.d0, t.d1, t.o);
    DoubleTurn(C, S, C * C - S * S, C * S);
    PlaneInvariant(PlaneSpread(p), p.o, C * C - S * S, C * S, PlaneSpread(t), t.o);
    CouplingInvariant(p.e0, p.e1, C, S, t.e0, t.e1);
  }

  lemma DoubleTurn(C: real, S: real, c2: real, cs: real)
    requires C * C + S * S == 1.0 && c2 == C * C - S * S && cs == C * S
    ensures c2 * c2 + 4.0 * cs * cs == 1.0
  {
    assert c2 * c2 + 4.0 * cs * cs == (C * C + S * S) * (C * C + S * S);
  }

  lemma PlaneEntries(d0: real, d1: real, o: real, C: real, S: real, t0: real, t1: real, to: real)
    requires t0 == Low(Low(d0, o, C, S), Low(o, d1, C, S), C, S)
    requires t1 == High(High(d0, o, C, S), High(o, d1, C, S), C, S)
    requires to == High(Low(d0, o, C, S), Low(o, d1, C, S), C, S)
    ensures to == TurnedEntry(o, d1 - d0, C, S)
    ensures t1 - t0 == TurnedSpread(o, d1 - d0, C, S)
  {}

  /** (c2, cs) are the cosine and half the sine of the double angle. */
  lemma PlaneInvariant(d: real, o: real, c2: real, cs: real, td: real, to: real)
    requires c2 * c2 + 4.0 * cs * cs == 1.0
    requires to == c2 * o - cs * d && td == c2 * d + 4.0 * cs * o
    ensures Energy(to, td) == Energy(o, d)
  {
    assert 4.0 * to * to + td * td == (c2 * c2 + 4.0 * cs * cs) * (4.0 * o * o + d * d);
  }

  lemma CouplingInvariant(e0: real, e1: real, C: real, S: real, t0: real, t1: real)
    requires C * C + S * S == 1.0 && t0 == Low(e0, e1, C, S) && t1 == High(e0, e1, C, S)
    ensures t0 * t0 + t1 * t1 == e0 * e0 + e1 * e1
  {
    assert t0 * t0 + t1 * t1 == (C * C + S * S) * (e0 * e0 + e1 * e1);
  }
}
