/** The Reynolds stress of the edge algorithm: decompose the normalised stress, sort and perturb its eigenvalues, put it
    together again and give it its kinetic energy back. */
module StressPerturbation {
  import opened Reals
  import opened Matrix3
  import opened Quaternion
  import opened JacobiStep
  import opened SymDiagonalize3
  import opened Reconstruction

  // ----- quadratic forms

  function Quad(M: Mat3, v: Vec3): real { Dot(v, ColMul(M, v)) }

  ghost predicate PositiveSemidefinite(M: Mat3) { forall v: Vec3 :: Quad(M, v) >= 0.0 }

  function AddDiagonal(M: Mat3, k: real): Mat3 {
    Mat3(M.r0.(x := M.r0.x + k), M.r1.(y := M.r1.y + k), M.r2.(z := M.r2.z + k))
  }

  function WithDiagonal(D: Mat3, d: Vec3): Mat3 {
    Mat3(D.r0.(x := d.x), D.r1.(y := d.y), D.r2.(z := d.z))
  }

  lemma QuadAddDiagonal(M: Mat3, k: real, v: Vec3)
    ensures Quad(AddDiagonal(M, k), v) == Quad(M, v) + k * Dot(v, v)
  {
    AddedTerms(k, v.x, v.y, v.z, ColMul(M, v).x, ColMul(M, v).y, ColMul(M, v).z);
    AddedEntry(M.r0.x, k, v.x);
    AddedEntry(M.r1.y, k, v.y);
    AddedEntry(M.r2.z, k, v.z);
  }

  lemma AddedEntry(a: real, k: real, x: real)
    ensures (a + k) * x == a * x + k * x
  {}

  lemma AddedTerms(k: real, x: real, y: real, z: real, a: real, b: real, c: real)
    ensures x * (a + k * x) + y * (b + k * y) + z * (c + k * z) == x * a + y * b + z * c + k * (x * x + y * y + z * z)
  {}

  lemma QuadScale(M: Mat3, k: real, v: Vec3)
    ensures Quad(Scale(k, M), v) == Times(k, Quad(M, v))
  {
    var w := ColMul(M, v);
    DotScale(k, M.r0, v); DotScale(k, M.r1, v); DotScale(k, M.r2, v);
    DotScale(k, w, v);
    DotComm(v, w);
    DotComm(v, ScaleRow(k, w));
  }

  lemma ColMulMul(A: Mat3, B: Mat3, v: Vec3)
    ensures ColMul(Mul(A, B), v) == ColMul(A, ColMul(B, v))
  {
    RowMatrixColumn(A.r0, B, v);
    RowMatrixColumn(A.r1, B, v);
    RowMatrixColumn(A.r2, B, v);
  }

  lemma DotTranspose(Q: Mat3, u: Vec3, v: Vec3)
    ensures Dot(u, ColMul(Q, v)) == Dot(ColMul(Transpose(Q), u), v)
  {
    RowMatrixColumn(u, Q, v);
    DotComm(u, Transpose(Q).r0); DotComm(u, Transpose(Q).r1); DotComm(u, Transpose(Q).r2);
  }

  /** The form of Q D Q-transposed at v is the form of D at v seen in the columns of Q. */
  lemma QuadConjugate(Q: Mat3, D: Mat3, v: Vec3)
    ensures Quad(Mul(Mul(Q, D), Transpose(Q)), v) == Quad(D, ColMul(Transpose(Q), v))
  {
    var T := Transpose(Q);
    ColMulMul(Mul(Q, D), T, v);
    ColMulMul(Q, D, ColMul(T, v));
    DotTranspose(Q, v, ColMul(D, ColMul(T, v)));
  }

  lemma LengthKept(Q: Mat3, v: Vec3)
    requires Orthogonal(Q)
    ensures Dot(ColMul(Transpose(Q), v), ColMul(Transpose(Q), v)) == Dot(v, v)
    ensures ColMul(Transpose(Q), ColMul(Q, v)) == v
  {
    var T := Transpose(Q);
    DotTranspose(Q, v, ColMul(T, v));
    ColMulMul(Q, T, v);
    ColMulMul(T, Q, v);
    IdentityColumn(v);
  }

  lemma IdentityColumn(v: Vec3)
    ensures ColMul(IDENTITY, v) == v
  {}

  /** In an orthogonal frame a stress is positive semidefinite exactly when its decomposition is. */
  lemma ConjugatePositive(Q: Mat3, D: Mat3, k: real)
    requires Orthogonal(Q)
    ensures PositiveSemidefinite(AddDiagonal(Mul(Mul(Q, D), Transpose(Q)), k))
      <==> PositiveSemidefinite(AddDiagonal(D, k))
  {
    var T := Transpose(Q);
    var R := Mul(Mul(Q, D), T);
    forall v: Vec3 ensures Quad(AddDiagonal(R, k), v) == Quad(AddDiagonal(D, k), ColMul(T, v)) {
      QuadConjugate(Q, D, v);
      QuadAddDiagonal(R, k, v);
      QuadAddDiagonal(D, k, ColMul(T, v));
      LengthKept(Q, v);
    }
    if PositiveSemidefinite(AddDiagonal(R, k)) {
      forall v: Vec3 ensures Quad(AddDiagonal(D, k), v) >= 0.0 {
        LengthKept(Q, v);
        assert Quad(AddDiagonal(R, k), ColMul(Q, v)) >= 0.0;
      }
    }
  }

  // ----- diagonally dominant forms

  /** Each diagonal entry is at least the sum of the magnitudes beside it. */
  predicate Dominant(M: Mat3) {
    && M.r0.x >= Abs(M.r0.y) + Abs(M.r0.z)
    && M.r1.y >= Abs(M.r0.y) + Abs(M.r1.z)
    && M.r2.z >= Abs(M.r0.z) + Abs(M.r1.z)
  }

  lemma DominantPositive(M: Mat3)
    requires Symmetric(M) && Dominant(M)
    ensures PositiveSemidefinite(M)
  {
    forall v: Vec3 ensures Quad(M, v) >= 0.0 {
      DominantQuad(M.r0.x, M.r1.y, M.r2.z, M.r0.y, M.r0.z, M.r1.z, v.x, v.y, v.z);
      QuadEntries(M, v);
    }
  }

  lemma QuadEntries(M: Mat3, v: Vec3)
    requires Symmetric(M)
    ensures Quad(M, v) == Times(M.r0.x, Sq(v.x)) + Times(M.r1.y, Sq(v.y)) + Times(M.r2.z, Sq(v.z))
      + 2.0 * Times(M.r0.y, v.x * v.y) + 2.0 * Times(M.r0.z, v.x * v.z) + 2.0 * Times(M.r1.z, v.y * v.z)
  {}

  lemma DominantQuad(a: real, b: real, c: real, p: real, q: real, r: real, x: real, y: real, z: real)
    requires a >= Abs(p) + Abs(q) && b >= Abs(p) + Abs(r) && c >= Abs(q) + Abs(r)
    ensures Times(a, Sq(x)) + Times(b, Sq(y)) + Times(c, Sq(z))
      + 2.0 * Times(p, x * y) + 2.0 * Times(q, x * z) + 2.0 * Times(r, y * z) >= 0.0
  {
    DiagonalTerm(a, p, q, x);
    DiagonalTerm(b, p, r, y);
    DiagonalTerm(c, q, r, z);
    CrossTerm(p, x, y);
    CrossTerm(q, x, z);
    CrossTerm(r, y, z);
  }

  lemma DiagonalTerm(a: real, p: real, q: real, x: real)
    requires a >= Abs(p) + Abs(q)
    ensures Times(a, Sq(x)) >= Times(Abs(p), Sq(x)) + Times(Abs(q), Sq(x))
  {
    SqNonnegative(x);
    MulOrder(Sq(x), Abs(p) + Abs(q), a);
  }

  lemma CrossTerm(p: real, x: real, y: real)
    ensures Times(Abs(p), Sq(x)) + Times(Abs(p), Sq(y)) + 2.0 * Times(p, x * y) >= 0.0
  {
    if p >= 0.0 {
      SqNonnegative(x + y);
      MulOrder(p, 0.0, Sq(x + y));
      assert p * Sq(x + y) == p * Sq(x) + p * Sq(y) + 2.0 * (p * (x * y));
    } else {
      SqNonnegative(x - y);
      MulOrder(-p, 0.0, Sq(x - y));
      assert (-p) * Sq(x - y) == (-p) * Sq(x) + (-p) * Sq(y) + 2.0 * (p * (x * y));
    }
  }

  // ----- sorting and perturbing the eigenvalues

  /** The three corners of the barycentric map eigenvalues can be biased towards; any other choice means the last. */
  function Corner(biasTowards: int): (c: seq<real>)
    ensures |c| == 3 && c[0] + c[1] + c[2] == 0.0 && c[0] >= c[1] >= c[2] >= -1.0 / 3.0
  {
    if biasTowards == 1 then [2.0 / 3.0, -1.0 / 3.0, -1.0 / 3.0]
    else if biasTowards == 2 then [1.0 / 6.0, 1.0 / 6.0, -1.0 / 3.0]
    else [0.0, 0.0, 0.0]
  }

  predicate IsPermutation(m: seq<nat>) {
    |m| == 3 && (forall i :: 0 <= i < 3 ==> m[i] < 3) && (forall i, j :: 0 <= i < j < 3 ==> m[i] != m[j])
  }

  /** Entry i of the diagonal. */
  function DiagonalAt(D: Mat3, i: nat): real
    requires i < 3
  {
    if i == 0 then D.r0.x else if i == 1 then D.r1.y else D.r2.z
  }

  predicate Descending(D: Mat3, m: seq<nat>)
    requires IsPermutation(m)
  {
    DiagonalAt(D, m[0]) >= DiagonalAt(D, m[1]) >= DiagonalAt(D, m[2])
  }

  /** Where m sends i from. */
  function RankOf(m: seq<nat>, i: nat): (k: nat)
    requires IsPermutation(m) && i < 3
    ensures k < 3 && m[k] == i
  {
    Onto(m, i);
    if m[0] == i then 0 else if m[1] == i then 1 else 2
  }

  lemma Onto(m: seq<nat>, i: nat)
    requires IsPermutation(m) && i < 3
    ensures m[0] == i || m[1] == i || m[2] == i
  {
    assert m[0] < 3 && m[1] < 3 && m[2] < 3;
  }

  function Faded(delta: real, value: real): real { (1.0 - delta) * value }

  function Blend(delta: real, value: real, target: real): real { (1.0 - delta) * value + delta * target }

  /** D with every diagonal entry blended towards the corner of its rank. */
  function Perturbed(D: Mat3, m: seq<nat>, corner: seq<real>, delta: real): Mat3
    requires IsPermutation(m) && |corner| == 3
  {
    WithDiagonal(D, Vec3(
      Blend(delta, D.r0.x, corner[RankOf(m, 0)]),
      Blend(delta, D.r1.y, corner[RankOf(m, 1)]),
      Blend(delta, D.r2.z, corner[RankOf(m, 2)])))
  }

  /** values are the diagonal in the order of m, the first i of them the largest, high to low. */
  ghost predicate SortedUpTo(m: seq<nat>, values: seq<real>, diagonal: seq<real>, i: nat) {
    && IsPermutation(m) && |values| == 3 && |diagonal| == 3
    && (forall x :: 0 <= x < 3 ==> values[x] == diagonal[m[x]])
    && (forall x, y :: 0 <= x < i && x <= y < 3 ==> values[x] >= values[y])
  }

  /** Where rows with equal entries go: behind each other in the order of their numbers, except that rows 0 and 1 behind
      row 2 come in reverse. */
  predicate TiesOrdered(D: Mat3, m: seq<nat>)
    requires IsPermutation(m)
  {
    && (DiagonalAt(D, m[0]) == DiagonalAt(D, m[1]) ==> m[0] < m[1])
    && (DiagonalAt(D, m[0]) == DiagonalAt(D, m[2]) ==> m[0] < m[2])
    && (DiagonalAt(D, m[1]) == DiagonalAt(D, m[2]) ==> (m[1] < m[2] <==> m[0] != 2))
  }

  /** Order and ties together leave one row map. */
  lemma RowsUnique(D: Mat3, m: seq<nat>, m': seq<nat>)
    requires IsPermutation(m) && IsPermutation(m') && Descending(D, m) && Descending(D, m')
    requires TiesOrdered(D, m) && TiesOrdered(D, m')
    ensures m == m'
  {
    Onto(m, m'[0]);
    Onto(m, m'[1]);
    assert m[0] == m'[0];
    assert m[1] == m'[1];
  }

  /** The same while the first i rows are sorted: the rest are still in the order the swaps leave. */
  predicate TiesUpTo(m: seq<nat>, diagonal: seq<real>, i: nat) {
    && IsPermutation(m) && |diagonal| == 3 && (i == 0 ==> m == [0, 1, 2])
    && (i >= 1 ==> forall x :: 1 <= x < 3 && diagonal[m[0]] == diagonal[m[x]] ==> m[0] < m[x])
    && (i == 1 ==> (m[1] < m[2] <==> m[0] != 2))
    && (i >= 2 ==> diagonal[m[1]] == diagonal[m[2]] ==> (m[1] < m[2] <==> m[0] != 2))
  }

  lemma SwapKeepsTies(m: seq<nat>, values: seq<real>, diagonal: seq<real>, i: nat, j: nat)
    requires i <= j < 3 && SortedUpTo(m, values, diagonal, i) && TiesUpTo(m, diagonal, i)
    requires forall y :: i <= y < 3 ==> values[j] >= values[y]
    requires forall y :: i <= y < j ==> values[j] > values[y]
    ensures TiesUpTo(m[i := m[j]][j := m[i]], diagonal, i + 1)
  {
    var n := m[i := m[j]][j := m[i]];
    assert values[0] == diagonal[m[0]] && values[1] == diagonal[m[1]] && values[2] == diagonal[m[2]];
    assert m[0] < 3 && m[1] < 3 && m[2] < 3 && m[0] != m[1] && m[0] != m[2] && m[1] != m[2];
    assert n[0] < 3 && n[1] < 3 && n[2] < 3;
  }

  lemma SwapKeepsOrder(m: seq<nat>, values: seq<real>, diagonal: seq<real>, i: nat, j: nat)
    requires i <= j < 3 && SortedUpTo(m, values, diagonal, i)
    requires forall y :: i <= y < 3 ==> values[j] >= values[y]
    ensures SortedUpTo(m[i := m[j]][j := m[i]], values[i := values[j]][j := values[i]], diagonal, i + 1)
  {}

  /** The eigenvalue perturbation's state: where the sorted eigenvalues live in D, the corner, and the weight. */
  class Perturber {
    const rowMap: array<nat>
    const corner: seq<real>
    const deltaB: real

    ghost predicate Valid()
      reads this
    {
      rowMap.Length == 3 && exists bias :: corner == Corner(bias)
    }

    constructor (biasTowards: int, delta: real)
      ensures Valid() && corner == Corner(biasTowards) && deltaB == delta && fresh(rowMap)
    {
      rowMap := new nat[3];
      corner := Corner(biasTowards);
      deltaB := delta;
    }

    /** Selection sort of the diagonal, high to low, recording rows. */
    method Sort(D: array2<real>)
      requires Valid() && Is3x3(D)
      modifies rowMap
      ensures IsPermutation(rowMap[..]) && Descending(View(D), rowMap[..]) && TiesOrdered(View(D), rowMap[..])
    {
      var data := new real[3];
      data[0], data[1], data[2] := D[0, 0], D[1, 1], D[2, 2];
      rowMap[0], rowMap[1], rowMap[2] := 0, 1, 2;
      assert rowMap[..] == [0, 1, 2];
      SortRows(data, [D[0, 0], D[1, 1], D[2, 2]]);
    }

    method SortRows(data: array<real>, ghost diagonal: seq<real>)
      requires Valid() && data.Length == 3 && SortedUpTo(rowMap[..], data[..], diagonal, 0)
      requires TiesUpTo(rowMap[..], diagonal, 0)
      modifies rowMap, data
      ensures SortedUpTo(rowMap[..], data[..], diagonal, 3) && TiesUpTo(rowMap[..], diagonal, 3)
    {
      for i := 0 to 3
        invariant SortedUpTo(rowMap[..], data[..], diagonal, i) && TiesUpTo(rowMap[..], diagonal, i)
      {
        var j := LargestFrom(data, i);
        ghost var m, values := rowMap[..], data[..];
        var tmp, tmpI := data[i], rowMap[i];
        data[i] := data[j];
        data[j] := tmp;
        rowMap[i] := rowMap[j];
        rowMap[j] := tmpI;
        assert rowMap[..] == m[i := m[j]][j := m[i]];
        assert data[..] == values[i := values[j]][j := values[i]];
        SwapKeepsOrder(m, values, diagonal, i, j);
        SwapKeepsTies(m, values, diagonal, i, j);
      }
    }

    method LargestFrom(data: array<real>, i: nat) returns (j: nat)
      requires data.Length == 3 && i < 3
      ensures i <= j < 3 && forall y :: i <= y < 3 ==> data[j] >= data[y]
      ensures forall y :: i <= y < j ==> data[j] > data[y]
    {
      j := i;
      for k := i to 3
        invariant i <= j < 3
        invariant j <= k && forall y :: i <= y < k ==> data[j] >= data[y]
        invariant forall y :: i <= y < j ==> data[j] > data[y]
      {
        if data[j] < data[k] { j := k; }
      }
    }

    /** Move each sorted eigenvalue towards its corner; nothing off the diagonal moves. */
    method Perturb(D: array2<real>)
      requires Valid() && Is3x3(D) && IsPermutation(rowMap[..])
      modifies D
      ensures View(D) == Perturbed(old(View(D)), rowMap[..], corner, deltaB)
    {
      assert forall k :: 0 <= k < 3 ==> rowMap[..][k] == rowMap[k];
      var l1, l2, l3 := D[rowMap[0], rowMap[0]], D[rowMap[1], rowMap[1]], D[rowMap[2], rowMap[2]];
      D[rowMap[0], rowMap[0]] := Blend(deltaB, l1, corner[0]);
      D[rowMap[1], rowMap[1]] := Blend(deltaB, l2, corner[1]);
      D[rowMap[2], rowMap[2]] := Blend(deltaB, l3, corner[2]);
    }
  }

  // ----- what the perturbation keeps

  /** The trace shrinks by 1 - delta: the corners add up to nothing. */
  lemma PerturbedTrace(D: Mat3, m: seq<nat>, bias: int, delta: real)
    requires IsPermutation(m)
    ensures Trace(Perturbed(D, m, Corner(bias), delta)) == Faded(delta, Trace(D))
  {
    var c := Corner(bias);
    var x, y, z := c[RankOf(m, 0)], c[RankOf(m, 1)], c[RankOf(m, 2)];
    RanksCover(m);
    assert x + y + z == 0.0;
    BlendSum(delta, D.r0.x, D.r1.y, D.r2.z, x, y, z);
  }

  lemma RanksCover(m: seq<nat>)
    requires IsPermutation(m)
    ensures var i, j, k := RankOf(m, 0), RankOf(m, 1), RankOf(m, 2); i != j && i != k && j != k
  {}

  lemma BlendSum(delta: real, a: real, b: real, c: real, x: real, y: real, z: real)
    requires x + y + z == 0.0
    ensures Blend(delta, a, x) + Blend(delta, b, y) + Blend(delta, c, z) == Faded(delta, a + b + c)
  {
    assert delta * x + delta * y + delta * z == delta * (x + y + z);
  }

  /** For a weight between 0 and 1 the eigenvalues keep their order. */
  lemma PerturbedDescending(D: Mat3, m: seq<nat>, bias: int, delta: real)
    requires IsPermutation(m) && Descending(D, m) && 0.0 <= delta <= 1.0
    ensures Descending(Perturbed(D, m, Corner(bias), delta), m)
  {
    var c := Corner(bias);
    BlendOrder(delta, DiagonalAt(D, m[1]), DiagonalAt(D, m[0]), c[1], c[0]);
    BlendOrder(delta, DiagonalAt(D, m[2]), DiagonalAt(D, m[1]), c[2], c[1]);
    PerturbedAt(D, m, c, delta, 0);
    PerturbedAt(D, m, c, delta, 1);
    PerturbedAt(D, m, c, delta, 2);
  }

  lemma PerturbedAt(D: Mat3, m: seq<nat>, c: seq<real>, delta: real, k: nat)
    requires IsPermutation(m) && |c| == 3 && k < 3
    ensures DiagonalAt(Perturbed(D, m, c, delta), m[k]) == Blend(delta, DiagonalAt(D, m[k]), c[k])
  {
    assert RankOf(m, m[k]) == k;
  }

  lemma BlendOrder(delta: real, a: real, b: real, x: real, y: real)
    requires 0.0 <= delta <= 1.0 && a <= b && x <= y
    ensures Blend(delta, a, x) <= Blend(delta, b, y)
  {
    MulOrder(1.0 - delta, a, b);
    MulOrder(delta, x, y);
    assert (1.0 - delta) * a <= (1.0 - delta) * b;
  }

  // ----- the whole pipeline

  /** The perturbed stress of a normalised stress b. */
  function Stress(b: Mat3, m: seq<nat>, corner: seq<real>, delta: real, ke: real, sqrt: real -> real): Mat3
    requires IsSqrt(sqrt) && IsPermutation(m) && |corner| == 3
  {
    var q := Final(b, sqrt);
    Rebuilt(QuatToMat(q), Perturbed(Rotated(b, q), m, corner, delta), ke)
  }

  function Rebuilt(Q: Mat3, P: Mat3, ke: real): Mat3 {
    Scale(2.0 * ke, AddDiagonal(Mul(Mul(Q, P), Transpose(Q)), 1.0 / 3.0))
  }

  const KE_FLOOR := 0.0000000000000001

  function PerturbedKe(turbKe: real, perturbTurbKe: real): (ke: real)
    ensures ke > 0.0
  {
    Max(turbKe * (1.0 + perturbTurbKe), KE_FLOOR)
  }

  method PerturbStress(p: Perturber, b: array2<real>, Q: array2<real>, D: array2<real>, R: array2<real>,
                       turbKe: real, perturbTurbKe: real, sqrt: real -> real)
    requires p.Valid() && Is3x3(b) && Is3x3(Q) && Is3x3(D) && Is3x3(R) && IsSqrt(sqrt) && Symmetric(View(b))
    requires b != Q && b != D && b != R && Q != D && Q != R && D != R
    modifies p.rowMap, b, Q, D, R
    ensures IsPermutation(p.rowMap[..])
    ensures Descending(Rotated(old(View(b)), Final(old(View(b)), sqrt)), p.rowMap[..])
    ensures TiesOrdered(Rotated(old(View(b)), Final(old(View(b)), sqrt)), p.rowMap[..])
    ensures View(R) == Stress(old(View(b)), p.rowMap[..], p.corner, p.deltaB, PerturbedKe(turbKe, perturbTurbKe), sqrt)
    ensures Trace(old(View(b))) == 0.0 ==> Trace(View(R)) == TwiceEnergy(turbKe * (1.0 + perturbTurbKe))
  {
    ghost var bias :| p.corner == Corner(bias);
    ghost var was := View(b);
    DecomposeAndPerturb(p, b, Q, D, sqrt);
    RebuildStress(D, Q, b, R, PerturbedKe(turbKe, perturbTurbKe));
    StressTrace(was, p.rowMap[..], bias, p.deltaB, PerturbedKe(turbKe, perturbTurbKe), sqrt);
    EnergyIs(turbKe, perturbTurbKe);
  }

  /** Twice the kinetic energy asked for, or twice the floor of 1e-16 below that. */
  function TwiceEnergy(asked: real): real { if asked >= 0.0000000000000001 then 2.0 * asked else 0.0000000000000002 }

  lemma EnergyIs(turbKe: real, perturbTurbKe: real)
    ensures 2.0 * PerturbedKe(turbKe, perturbTurbKe) == TwiceEnergy(turbKe * (1.0 + perturbTurbKe))
  {}

  /** A trace-free stress gets exactly the perturbed kinetic energy asked for if and only if that is at least 1e-16. */
  lemma EnergyKeptIff(b: Mat3, m: seq<nat>, bias: int, delta: real, turbKe: real, perturbTurbKe: real,
      sqrt: real -> real)
    requires IsSqrt(sqrt) && Symmetric(b) && IsPermutation(m) && Trace(b) == 0.0
    ensures var asked, ke := turbKe * (1.0 + perturbTurbKe), PerturbedKe(turbKe, perturbTurbKe);
      Trace(Stress(b, m, Corner(bias), delta, ke, sqrt)) == 2.0 * asked <==> asked >= 0.0000000000000001
  {
    StressTrace(b, m, bias, delta, PerturbedKe(turbKe, perturbTurbKe), sqrt);
    EnergyIs(turbKe, perturbTurbKe);
  }

  method RebuildStress(D: array2<real>, Q: array2<real>, b: array2<real>, R: array2<real>, ke: real)
    requires Is3x3(b) && Is3x3(Q) && Is3x3(D) && Is3x3(R) && b != Q && b != D && b != R && Q != R && D != R
    modifies b, R
    ensures View(R) == Rebuilt(View(Q), View(D), ke)
  {
    Reconstruct(D, Q, b, 3);
    StoreStress(b, R, ke);
  }

  method DecomposeAndPerturb(p: Perturber, b: array2<real>, Q: array2<real>, D: array2<real>, sqrt: real -> real)
    requires p.Valid() && Is3x3(b) && Is3x3(Q) && Is3x3(D) && IsSqrt(sqrt) && Symmetric(View(b))
    requires b != Q && b != D && Q != D
    modifies p.rowMap, Q, D
    ensures IsPermutation(p.rowMap[..])
    ensures Descending(Rotated(View(b), Final(View(b), sqrt)), p.rowMap[..])
    ensures TiesOrdered(Rotated(View(b), Final(View(b), sqrt)), p.rowMap[..])
    ensures View(Q) == QuatToMat(Final(View(b), sqrt))
    ensures View(D) == Perturbed(Rotated(View(b), Final(View(b), sqrt)), p.rowMap[..], p.corner, p.deltaB)
  {
    SymDiagonalize(b, Q, D, sqrt);
    p.Sort(D);
    p.Perturb(D);
  }

  method StoreStress(b: array2<real>, R: array2<real>, ke: real)
    requires Is3x3(b) && Is3x3(R) && b != R
    modifies R
    ensures View(R) == Scale(2.0 * ke, AddDiagonal(View(b), 1.0 / 3.0))
  {
    for i := 0 to 3
      invariant forall r, c :: 0 <= r < i && 0 <= c < 3 ==> R[r, c] == StressEntry(b[r, c], r == c, ke)
    {
      for j := 0 to 3
        invariant forall r, c :: 0 <= r < i && 0 <= c < 3 ==> R[r, c] == StressEntry(b[r, c], r == c, ke)
        invariant forall c :: 0 <= c < j ==> R[i, c] == StressEntry(b[i, c], i == c, ke)
      {
        R[i, j] := StressEntry(b[i, j], i == j, ke);
      }
    }
    StressRows(b[0, 0], b[0, 1], b[0, 2], ke);
    StressRows(b[1, 1], b[1, 0], b[1, 2], ke);
    StressRows(b[2, 2], b[2, 0], b[2, 1], ke);
  }

  function StressEntry(b: real, onDiagonal: bool, ke: real): real {
    var fac := if onDiagonal then 1.0 / 3.0 else 0.0;
    (b + fac) * 2.0 * ke
  }

  lemma StressRows(a: real, b: real, c: real, ke: real)
    ensures StressEntry(a, true, ke) == Times(2.0 * ke, a + 1.0 / 3.0)
    ensures StressEntry(b, false, ke) == Times(2.0 * ke, b) && StressEntry(c, false, ke) == Times(2.0 * ke, c)
  {}

  /** A trace-free stress keeps exactly twice the kinetic energy; in general the trace left over is (1 - delta) tr b. */
  lemma StressTrace(b: Mat3, m: seq<nat>, bias: int, delta: real, ke: real, sqrt: real -> real)
    requires IsSqrt(sqrt) && Symmetric(b) && IsPermutation(m)
    ensures Trace(Stress(b, m, Corner(bias), delta, ke, sqrt)) == StressTraceOf(ke, Faded(delta, Trace(b)))
    ensures Trace(b) == 0.0 ==> Trace(Stress(b, m, Corner(bias), delta, ke, sqrt)) == 2.0 * ke
  {
    FinalExact(b, sqrt);
    var q := Final(b, sqrt);
    PerturbedTrace(Rotated(b, q), m, bias, delta);
    RebuiltTrace(QuatToMat(q), Perturbed(Rotated(b, q), m, Corner(bias), delta), ke);
    TraceFree(delta, ke);
  }

  /** Twice the kinetic energy for a trace-free stress. */
  function StressTraceOf(ke: real, trace: real): real { 2.0 * ke * (trace + 1.0) }

  lemma TraceFree(delta: real, ke: real)
    ensures StressTraceOf(ke, Faded(delta, 0.0)) == 2.0 * ke
  {}

  lemma RebuiltTrace(Q: Mat3, P: Mat3, ke: real)
    requires Orthogonal(Q)
    ensures Trace(Rebuilt(Q, P, ke)) == StressTraceOf(ke, Trace(P))
  {
    ProductTrace(Q, P);
    ScaledTrace(2.0 * ke, Mul(Mul(Q, P), Transpose(Q)));
  }

  lemma ProductTrace(Q: Mat3, P: Mat3)
    requires Orthogonal(Q)
    ensures Trace(Mul(Mul(Q, P), Transpose(Q))) == Trace(P)
  {
    var T := Transpose(Q);
    TraceCyclic(Mul(Q, P), T);
    MulAssoc(T, Q, P);
    MulIdentity(P);
  }

  lemma ScaledTrace(k: real, M: Mat3)
    ensures Trace(Scale(k, AddDiagonal(M, 1.0 / 3.0))) == k * (Trace(M) + 1.0)
  {}

  /** The perturbed stress is positive semidefinite exactly when the perturbed D, shifted by 1/3, is. */
  lemma StressPositiveIff(b: Mat3, m: seq<nat>, corner: seq<real>, delta: real, ke: real, sqrt: real -> real)
    requires IsSqrt(sqrt) && Symmetric(b) && IsPermutation(m) && |corner| == 3 && ke > 0.0
    ensures PositiveSemidefinite(Stress(b, m, corner, delta, ke, sqrt))
       <==> PositiveSemidefinite(AddDiagonal(Perturbed(Rotated(b, Final(b, sqrt)), m, corner, delta), 1.0 / 3.0))
  {
    FinalExact(b, sqrt);
    var q := Final(b, sqrt);
    RebuiltPositiveIff(QuatToMat(q), Perturbed(Rotated(b, q), m, corner, delta), ke);
  }

  lemma RebuiltPositiveIff(Q: Mat3, P: Mat3, ke: real)
    requires Orthogonal(Q) && ke > 0.0
    ensures PositiveSemidefinite(Rebuilt(Q, P, ke)) <==> PositiveSemidefinite(AddDiagonal(P, 1.0 / 3.0))
  {
    ConjugatePositive(Q, P, 1.0 / 3.0);
    ScalePositive(2.0 * ke, AddDiagonal(Mul(Mul(Q, P), Transpose(Q)), 1.0 / 3.0));
  }

  lemma ScalePositive(k: real, M: Mat3)
    requires k > 0.0
    ensures PositiveSemidefinite(Scale(k, M)) <==> PositiveSemidefinite(M)
  {
    forall v: Vec3 ensures Quad(Scale(k, M), v) >= 0.0 <==> Quad(M, v) >= 0.0 {
      QuadScale(M, k, v);
      SignOfScaled(k, Quad(M, v));
    }
  }

  lemma SignOfScaled(k: real, x: real)
    requires k > 0.0
    ensures Times(k, x) >= 0.0 <==> x >= 0.0
  {
    if x > 0.0 { MulPositive(k, x); } else if x < 0.0 { MulPositive(k, -x); }
  }

  /** When D is not diagonal, it is enough that what is left beside each perturbed eigenvalue is dominated by its
      distance from -1/3. */
  lemma StressDominated(b: Mat3, m: seq<nat>, corner: seq<real>, delta: real, ke: real, sqrt: real -> real)
    requires IsSqrt(sqrt) && Symmetric(b) && IsPermutation(m) && |corner| == 3 && ke > 0.0
    requires Dominant(AddDiagonal(Perturbed(Rotated(b, Final(b, sqrt)), m, corner, delta), 1.0 / 3.0))
    ensures PositiveSemidefinite(Stress(b, m, corner, delta, ke, sqrt))
  {
    FinalExact(b, sqrt);
    var P := AddDiagonal(Perturbed(Rotated(b, Final(b, sqrt)), m, corner, delta), 1.0 / 3.0);
    DominantPositive(P);
    StressPositiveIff(b, m, corner, delta, ke, sqrt);
  }
}
