/** Runs on matrices whose diagonal entries lie well apart compared with what is off the diagonal: every pass
    contracts, whatever the quaternion has become. */
module SettledRun {
  import opened Reals
  import opened Matrix3
  import opened Quaternion
  import opened JacobiStep
  import opened SymDiagonalize3
  import opened DiagonaliseResults
  import opened MatrixDistance
  import opened NearPass

  /** The diagonal entries lie apart, for a gap m: n is the size of the matrix and r the size of what is off the
      diagonal. */
  ghost predicate Apart(D: Mat3, m: real, n: real, r: real) {
    forall axis: Axis :: Times(m, Abs(Spread(D, axis))) >= m * m + 40.0 * Times(n, r)
  }

  /** Such a spread is large for its pivot. */
  lemma ApartIsLarge(D: Mat3, axis: Axis, m: real, n: real, r: real)
    requires Symmetric(D) && m > 0.0 && n >= 0.0 && r >= 0.0 && n * n == SumSq(D) && r * r == Off(D)
    requires Apart(D, m, n, r)
    ensures LargeSpreadFor(D, axis) && Abs(Spread(D, axis)) >= m
  {
    var s := Abs(Spread(D, axis));
    assert Times(m, s) >= m * m + 40.0 * Times(n, r);
    MulNonnegative(n, r);
    CancelOrder(m, m, s);
    GapSquare(m, s, Times(n, r));
    TwiceEntry(D, axis);
    SpreadSquare(Spread(D, axis), s);
    LargeScalars(Sq(s), n, r, Sq(OffEntry(D, axis)));
  }

  lemma SpreadSquare(d: real, s: real)
    requires s == Abs(d)
    ensures Sq(s) == Sq(d)
  {}

  /** m s >= m^2 + c for some m means s^2 >= 4 c. */
  lemma GapSquare(m: real, s: real, nr: real)
    requires m > 0.0 && s >= m && Times(m, s) >= m * m + 40.0 * nr
    ensures Sq(s) >= 160.0 * nr
  {
    SqNonnegative(s - 2.0 * m);
    assert Sq(s - 2.0 * m) == Sq(s) - 4.0 * Times(m, s) + 4.0 * (m * m);
  }

  lemma LargeScalars(d: real, n: real, r: real, o: real)
    requires n >= 0.0 && r >= 0.0 && d >= 160.0 * Times(n, r) && 2.0 * o <= r * r
    ensures Sq(d) >= 64.0 * Times(o, n * n)
  {
    MulNonnegative(n, r);
    SquareOrder(160.0 * Times(n, r), d);
    SqNonnegative(n);
    SqNonnegative(r);
    MulOrder(Sq(n), o, Sq(r));
    MulNonnegative(Sq(n), Sq(r));
    assert Sq(160.0 * Times(n, r)) == 25600.0 * (Sq(n) * Sq(r));
  }

  /** One pass: what is off the diagonal shrinks, and the diagonal entries stay apart. */
  lemma SettledStep(A: Mat3, q: Quat, m: real, n: real, r: real, sqrt: real -> real) returns (r': real)
    requires Symmetric(A) && IsSqrt(sqrt) && NormSq(q) == 1.0 && Pivot(Rotated(A, q)).Some?
    requires m > 0.0 && n >= 0.0 && r >= 0.0 && n * n == SumSq(A) && r * r == Off(Rotated(A, q))
    requires Apart(Rotated(A, q), m, n, r)
    ensures var D' := Rotated(A, Step(A, q, sqrt));
      && Off(D') <= 5.0 / 6.0 * Off(Rotated(A, q)) && r' >= 0.0 && r' * r' == Off(D') && Apart(D', m, n, r')
  {
    var D, D' := Rotated(A, q), Rotated(A, Step(A, q, sqrt));
    var pivot := Pivot(D).value;
    SameSquares(A, q);
    ConjugateSymmetric(A, QuatToMat(q));
    ApartIsLarge(D, pivot, m, n, r);
    NearStep(A, q, pivot, sqrt);
    OffNonnegative(D');
    assert Root(sqrt(Off(D')), Off(D'));
    r' := sqrt(Off(D'));
    RootShrinks(r, r');
    forall axis: Axis ensures Times(m, Abs(Spread(D', axis))) >= m * m + 40.0 * Times(n, r') {
      assert SpreadMoves(D, D', pivot, axis);
      StillApart(m, n, r, r', Spread(D, axis), Spread(D', axis), Spread(D, pivot));
    }
  }

  lemma OffNonnegative(D: Mat3)
    ensures Off(D) >= 0.0
  {
    SqNonnegative(D.r0.y); SqNonnegative(D.r0.z); SqNonnegative(D.r1.x);
    SqNonnegative(D.r1.z); SqNonnegative(D.r2.x); SqNonnegative(D.r2.y);
  }

  lemma RootShrinks(r: real, r': real)
    requires r >= 0.0 && r' >= 0.0 && r' * r' <= 5.0 / 6.0 * (r * r)
    ensures r' <= 0.915 * r
  {
    assert (0.915 * r) * (0.915 * r) == 0.837225 * (r * r);
    assert r * r >= 0.0;
    SquareOrder(r', 0.915 * r);
  }

  lemma StillApart(m: real, n: real, r: real, r': real, s: real, s': real, d: real)
    requires m > 0.0 && n >= 0.0 && r >= 0.0 && r' <= 0.915 * r && Abs(d) >= m
    requires Times(m, Abs(s)) >= m * m + 40.0 * Times(n, r)
    requires Times(Sq(s' - s), Sq(d)) <= 11.56 * Times(r * r, n * n)
    ensures Times(m, Abs(s')) >= m * m + 40.0 * Times(n, r')
  {
    var move := Abs(s' - s);
    MoveBelow(move, s' - s, Abs(d), d, n, r);
    MulOrder(n, r', 0.915 * r);
    ApartLeft(m, Abs(s), Abs(s'), move, Abs(d), Times(n, r), Times(n, r'));
  }

  lemma ApartLeft(m: real, s: real, s': real, move: real, d: real, nr: real, nr': real)
    requires 0.0 < m <= d && move >= 0.0 && s' >= s - move && move * d <= 3.4 * nr && nr' <= 0.915 * nr
    requires Times(m, s) >= m * m + 40.0 * nr
    ensures Times(m, s') >= m * m + 40.0 * nr'
  {
    MulOrder(move, m, d);
    MulOrder(m, s - move, s');
    assert m * (s - move) == Times(m, s) - move * m;
  }

  lemma MoveBelow(move: real, change: real, s: real, d: real, n: real, r: real)
    requires move == Abs(change) && s == Abs(d) && n >= 0.0 && r >= 0.0
    requires Times(Sq(change), Sq(d)) <= 11.56 * Times(r * r, n * n)
    ensures move * s <= 3.4 * Times(n, r)
  {
    MulNonnegative(n, r);
    MulNonnegative(move, s);
    SquareMoves(move, change, s, d, n, r);
    SquareOrder(move * s, 3.4 * Times(n, r));
  }

  lemma SquareMoves(move: real, change: real, s: real, d: real, n: real, r: real)
    requires move == Abs(change) && s == Abs(d)
    ensures (move * s) * (move * s) == Times(Sq(change), Sq(d))
    ensures (3.4 * Times(n, r)) * (3.4 * Times(n, r)) == 11.56 * Times(r * r, n * n)
  {
    assert Sq(move) == Sq(change) && Sq(s) == Sq(d);
    assert (move * s) * (move * s) == Sq(move) * Sq(s);
  }

  /** A run of passes ends without a pivot, or every pass has left at most five sixths. */
  lemma {:induction false} SettledPasses(A: Mat3, q: Quat, k: nat, m: real, n: real, r: real, sqrt: real -> real)
    requires Symmetric(A) && IsSqrt(sqrt) && NormSq(q) == 1.0
    requires m > 0.0 && n >= 0.0 && r >= 0.0 && n * n == SumSq(A) && r * r == Off(Rotated(A, q))
    requires Apart(Rotated(A, q), m, n, r)
    ensures var D := Rotated(A, Run(A, q, k, sqrt));
      && Off(D) <= Off(Rotated(A, q))
      && (Pivot(D).None? || Off(D) <= Times(Power(5.0 / 6.0, k), Off(Rotated(A, q))))
    decreases k
  {
    if k != 0 && Pivot(Rotated(A, q)).Some? {
      var next := Step(A, q, sqrt);
      StepUnit(A, q, sqrt);
      var r' := SettledStep(A, q, m, n, r, sqrt);
      SettledPasses(A, next, k - 1, m, n, r', sqrt);
      OffNonnegative(Rotated(A, q));
      PowerNonnegative(5.0 / 6.0, k - 1);
      if Pivot(Rotated(A, Run(A, q, k, sqrt))).Some? {
        ScalePower(5.0 / 6.0, Power(5.0 / 6.0, k - 1), Power(5.0 / 6.0, k), Off(Rotated(A, next)), Off(Rotated(A, q)),
          Off(Rotated(A, Run(A, q, k, sqrt))));
      }
    }
  }

  /** Every difference of diagonal entries is large: its square is at least 160 times the size of the matrix times the
      size of what is off the diagonal. */
  ghost predicate WellApart(A: Mat3, sqrt: real -> real) {
    forall axis: Axis :: Sq(Spread(A, axis)) >= 160.0 * Times(sqrt(SumSq(A)), sqrt(Off(A)))
  }

  lemma NoPivot(A: Mat3)
    requires Symmetric(A) && Off(A) == 0.0
    ensures Pivot(A).None?
  {
    PivotFacts(A);
    if Pivot(A).Some? {
      TwiceEntry(A, Pivot(A).value);
      SquarePositive(OffEntry(A, Pivot(A).value), Sq(OffEntry(A, Pivot(A).value)));
    }
  }

  lemma OffInSquares(A: Mat3)
    ensures Off(A) <= SumSq(A)
  {
    SqNonnegative(A.r0.x);
    SqNonnegative(A.r1.y);
    SqNonnegative(A.r2.z);
  }

  /** Half of the smallest difference is a gap. */
  lemma HalfGap(A: Mat3, n: real, r: real) returns (m: real)
    requires n >= 0.0 && r >= 0.0 && r * r > 0.0 && r * r <= n * n
    requires forall axis: Axis :: Sq(Spread(A, axis)) >= 160.0 * Times(n, r)
    ensures m > 0.0 && Apart(A, m, n, r)
  {
    var x, y, z := Abs(Spread(A, XAxis)), Abs(Spread(A, YAxis)), Abs(Spread(A, ZAxis));
    var least := if x <= y && x <= z then x else if y <= z then y else z;
    m := least / 2.0;
    SquareOrder(r, n);
    assert r != 0.0;
    MulPositive(n, r);
    SpreadSquare(Spread(A, XAxis), x);
    SpreadSquare(Spread(A, YAxis), y);
    SpreadSquare(Spread(A, ZAxis), z);
    assert Sq(least) >= 160.0 * Times(n, r);
    forall axis: Axis ensures Times(m, Abs(Spread(A, axis))) >= m * m + 40.0 * Times(n, r) {
      assert Abs(Spread(A, axis)) >= least;
      GapFrom(m, least, Abs(Spread(A, axis)), Times(n, r));
    }
  }

  lemma GapFrom(m: real, least: real, s: real, nr: real)
    requires m == least / 2.0 && 0.0 <= least <= s && Sq(least) >= 160.0 * nr
    ensures Times(m, s) >= m * m + 40.0 * nr
  {
    assert least == 2.0 * m && Sq(least) == 4.0 * (m * m);
    MulOrder(m, 2.0 * m, s);
  }

  /** A symmetric matrix whose diagonal entries are well apart: however its off-diagonal entries couple the three
      directions, n passes leave at most (5/6)^n of the off-diagonal sum, unless the loop has met a tie and stopped. */
  lemma SettledContracts(A: Mat3, k: nat, sqrt: real -> real)
    requires Symmetric(A) && IsSqrt(sqrt) && WellApart(A, sqrt)
    ensures var D := Rotated(A, Run(A, UNIT, k, sqrt));
      && Off(D) <= Off(A) && (Pivot(D).None? || Off(D) <= Times(Power(5.0 / 6.0, k), Off(A)))
  {
    RotatedByUnit(A);
    OffNonnegative(A);
    SumSqNonnegative(A);
    if Off(A) == 0.0 {
      NoPivot(A);
    } else {
      var n, r := sqrt(SumSq(A)), sqrt(Off(A));
      assert Root(n, SumSq(A)) && Root(r, Off(A));
      OffInSquares(A);
      var m := HalfGap(A, n, r);
      SettledPasses(A, UNIT, k, m, n, r, sqrt);
    }
  }
}
