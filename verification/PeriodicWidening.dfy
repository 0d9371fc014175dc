/** Reorganising a periodic plane in place: nx by ny values become (nx+1) by (ny+1) with the first row and column
    repeated at the far edges. The three velocity components go through the same copies; one of them is modelled. */
module PeriodicWidening {
  import opened Arithmetic

  /** One row of the wide plane, starting at `off`: the source row from `source` on, closed by its first value. */
  ghost predicate WideRow(s: seq<real>, off: nat, was: seq<real>, source: nat, nx: nat) {
    && nx > 0 && off + nx < |s| && source + nx <= |was| && s[off + nx] == was[source]
    && forall k :: off <= k < off + nx ==> s[k] == was[k - off + source]
  }

  /** The copies of one row, last cell first. The target starts no earlier than the source, so no cell is overwritten
      before it is read. */
  method WidenRow(a: array<real>, iOff1: nat, iOff2: nat, nx: nat)
    requires nx > 0 && iOff1 <= iOff2 && iOff2 + nx < a.Length
    modifies a
    ensures WideRow(a[..], iOff2, old(a[..]), iOff1, nx)
    ensures forall k :: 0 <= k < a.Length && !(iOff2 <= k <= iOff2 + nx) ==> a[k] == old(a[k])
  {
    a[iOff2 + nx] := a[iOff1];
    var i := nx - 1;
    while i >= 0
      invariant -1 <= i < nx
      invariant forall k :: iOff2 + i < k < iOff2 + nx ==> a[k] == old(a[k - iOff2 + iOff1])
      invariant a[iOff2 + nx] == old(a[iOff1])
      invariant forall k :: 0 <= k < a.Length && !(iOff2 + i < k <= iOff2 + nx) ==> a[k] == old(a[k])
    {
      a[iOff2 + i] := a[iOff1 + i];
      i := i - 1;
    }
  }

  lemma NextRow(w: nat, j: nat)
    ensures (j + 1) * w == j * w + w
  {}

  /** Where row r of the wide plane comes from. */
  function SourceRow(r: nat, nx: nat, ny: nat): nat { if r == ny then 0 else r * nx }

  /** Rows j to ny are wide; the sources of the rows before j are untouched. */
  ghost predicate WideFrom(s: seq<real>, was: seq<real>, nx: nat, ny: nat, j: nat) {
    && |s| == |was| && (forall r :: j <= r <= ny ==> WideRow(s, r * (nx + 1), was, SourceRow(r, nx, ny), nx))
    && forall k :: 0 <= k < j * nx && k < |s| ==> s[k] == was[k]
  }

  /** Widening row j below the wide ones. */
  lemma RowWidened(now: seq<real>, next: seq<real>, was: seq<real>, nx: nat, ny: nat, j: nat)
    requires nx > 0 && j < ny && WideFrom(now, was, nx, ny, j + 1) && |next| == |now|
    requires WideRow(next, j * (nx + 1), now, j * nx, nx)
    requires forall k :: 0 <= k < |now| && !(j * (nx + 1) <= k <= j * (nx + 1) + nx) ==> next[k] == now[k]
    ensures WideFrom(next, was, nx, ny, j)
  {
    NextRow(nx, j);
    Wider(j, nx);
    RowMoved(next, now, was, j * (nx + 1), j * nx, nx);
    forall r | j < r <= ny ensures WideRow(next, r * (nx + 1), was, SourceRow(r, nx, ny), nx) {
      RowsApart(nx + 1, j, r, j * (nx + 1), r * (nx + 1));
      RowKept(now, next, was, r * (nx + 1), SourceRow(r, nx, ny), nx);
    }
  }

  lemma RowsApart(w: nat, j: nat, r: nat, low: nat, high: nat)
    requires j < r && low == j * w && high == r * w
    ensures low + w <= high
  {
    NextRow(w, j);
    TimesOrder(w, j + 1, r);
  }

  lemma RowMoved(next: seq<real>, now: seq<real>, was: seq<real>, off: nat, source: nat, nx: nat)
    requires |now| == |was| && WideRow(next, off, now, source, nx)
    requires forall k :: 0 <= k < source + nx ==> now[k] == was[k]
    ensures WideRow(next, off, was, source, nx)
  {}

  lemma RowKept(now: seq<real>, next: seq<real>, was: seq<real>, off: nat, source: nat, nx: nat)
    requires WideRow(now, off, was, source, nx) && |next| == |now|
    requires forall k :: off <= k <= off + nx ==> next[k] == now[k]
    ensures WideRow(next, off, was, source, nx)
  {}

  lemma Wider(j: nat, nx: nat)
    ensures j * (nx + 1) == j * nx + j
  {}

  /** Row ny first, then the rows from ny-1 down to 0. */
  method WidenPlane(a: array<real>, nx: nat, ny: nat)
    requires nx > 0 && ny > 0 && a.Length == (ny + 1) * (nx + 1)
    modifies a
    ensures WideFrom(a[..], old(a[..]), nx, ny, 0)
  {
    ghost var was := a[..];
    NextRow(nx + 1, ny);
    var last := ny * (nx + 1);
    WidenRow(a, 0, last, nx);
    Wider(ny, nx);
    assert WideFrom(a[..], was, nx, ny, ny);
    var j := ny - 1;
    while j >= 0
      invariant -1 <= j < ny && WideFrom(a[..], was, nx, ny, j + 1)
    {
      ghost var now := a[..];
      Wider(j, nx);
      RowFits(j, ny, nx);
      WidenRow(a, j * nx, j * (nx + 1), nx);
      RowWidened(now, a[..], was, nx, ny, j);
      j := j - 1;
    }
  }

  lemma RowFits(j: nat, ny: nat, nx: nat)
    requires j < ny
    ensures j * (nx + 1) + nx < (ny + 1) * (nx + 1)
  {
    NextRow(nx + 1, j);
    TimesOrder(nx + 1, j + 1, ny + 1);
  }

  /** Every point of the wide plane holds the value of its periodic image. */
  lemma Periodic(s: seq<real>, was: seq<real>, nx: nat, ny: nat, i: nat, j: nat)
    requires nx > 0 && ny > 0 && WideFrom(s, was, nx, ny, 0) && i <= nx && j <= ny
    ensures j * (nx + 1) + i < |s| && 0 <= (j % ny) * nx + i % nx < |was|
    ensures s[j * (nx + 1) + i] == was[(j % ny) * nx + i % nx]
  {
    assert WideRow(s, j * (nx + 1), was, SourceRow(j, nx, ny), nx);
    Wrap(i, nx);
    Wrap(j, ny);
  }

  lemma Wrap(i: nat, n: nat)
    requires n > 0 && i <= n
    ensures i % n == if i == n then 0 else i
  {}
}
