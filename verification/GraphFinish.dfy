/** Finishing a local graph: one row per degree of freedom, then the unused cells cut away. */
module GraphFinish {
  import opened Arithmetic
  import opened GraphRows
  import opened LocalGraph
  import opened Offsets

  ghost predicate RowAt(cells: seq<int>, ptrs: seq<nat>, r: nat, row: seq<int>) {
    r + 1 < |ptrs| && ptrs[r + 1] == ptrs[r] + |row| && ptrs[r + 1] <= |cells| && cells[ptrs[r]..ptrs[r + 1]] == row
  }

  /** The cells between consecutive pointers are the given rows. */
  ghost predicate RowsAre(cells: seq<int>, ptrs: seq<nat>, rows: seq<seq<int>>) {
    && |ptrs| == |rows| + 1 && ptrs[0] == 0 && ptrs[|rows|] == |cells|
    && forall r {:trigger RowAt(cells, ptrs, r, rows[r])} :: 0 <= r < |rows| ==> RowAt(cells, ptrs, r, rows[r])
  }

  /** The first row of the node a row belongs to. */
  function Lead(r: nat, numDof: nat): nat
    requires numDof > 0
  {
    r - r % numDof
  }

  lemma LeadInGroup(i: nat, numDof: nat, d: nat)
    requires numDof > 0 && i % numDof == 0 && d < numDof
    ensures Lead(i + d, numDof) == i && (i + numDof) % numDof == 0
  {
    AddToMultiple(i, numDof, d);
    NextMultiple(i, numDof);
  }

  /** All rows of a node have one length. */
  ghost predicate EvenGroups(rows: seq<seq<int>>, numDof: nat) {
    && numDof > 0 && |rows| % numDof == 0
    && forall r :: 0 <= r < |rows| ==> |rows[r]| == |rows[Lead(r, numDof)]|
  }

  /** Each node's first row repeated over all its rows. */
  ghost function Spread(rows: seq<seq<int>>, numDof: nat): seq<seq<int>>
    requires numDof > 0
  {
    seq(|rows|, r requires 0 <= r < |rows| => rows[Lead(r, numDof)])
  }

  method CopyCells(cells: array<int>, from: nat, to: nat, n: nat)
    requires from + n <= to && to + n <= cells.Length
    modifies cells
    ensures cells[..] == old(cells[..to]) + old(cells[from..from + n]) + old(cells[to + n..])
  {
    for j := 0 to n
      invariant forall k :: 0 <= k < cells.Length && !(to <= k < to + j) ==> cells[k] == old(cells[k])
      invariant forall k :: to <= k < to + j ==> cells[k] == old(cells[from + (k - to)])
    {
      cells[to + j] := cells[from + j];
    }
  }

  /** Copying row i over an equally long row q. */
  lemma CopiedRow(before: seq<int>, after: seq<int>, ptrs: seq<nat>, rows: seq<seq<int>>, i: nat, q: nat)
    requires RowsAre(before, ptrs, rows) && i < |rows| && q < |rows| && |rows[q]| == |rows[i]|
    requires RowAt(before, ptrs, i, rows[i]) && RowAt(before, ptrs, q, rows[q])
    requires after == before[..ptrs[q]] + rows[i] + before[ptrs[q + 1]..]
    ensures RowsAre(after, ptrs, rows[q := rows[i]])
  {
    var lo, hi := ptrs[q], ptrs[q + 1];
    var copied := rows[q := rows[i]];
    assert after[..lo] == before[..lo] && after[hi..] == before[hi..] && after[lo..hi] == rows[i];
    forall r | 0 <= r < |rows| ensures RowAt(after, ptrs, r, copied[r]) {
      assert RowAt(before, ptrs, r, rows[r]);
      if r != q {
        RowsDisjoint(before, ptrs, rows, q, r);
        OtherSlice(before, after, lo, hi, ptrs[r], ptrs[r + 1]);
      }
    }
  }

  lemma RowsDisjoint(cells: seq<int>, ptrs: seq<nat>, rows: seq<seq<int>>, q: nat, r: nat)
    requires RowsAre(cells, ptrs, rows) && q < |rows| && r < |rows| && q != r
    ensures ptrs[r + 1] <= ptrs[q] || ptrs[q + 1] <= ptrs[r]
  {
    if q < r { PtrsOrdered(cells, ptrs, rows, q + 1, r); } else { PtrsOrdered(cells, ptrs, rows, r + 1, q); }
  }

  lemma {:induction false} PtrsOrdered(cells: seq<int>, ptrs: seq<nat>, rows: seq<seq<int>>, a: nat, b: nat)
    requires RowsAre(cells, ptrs, rows) && a <= b <= |rows|
    ensures ptrs[a] <= ptrs[b]
    decreases b - a
  {
    if a < b {
      assert RowAt(cells, ptrs, a, rows[a]);
      PtrsOrdered(cells, ptrs, rows, a + 1, b);
    }
  }

  /** Within a node the rows lie one row length apart. */
  lemma {:induction false} GroupPointer(cells: seq<int>, ptrs: seq<nat>, rows: seq<seq<int>>, i: nat, d: nat, n: nat)
    requires RowsAre(cells, ptrs, rows) && i + d <= |rows| && forall r :: i <= r < i + d ==> |rows[r]| == n
    ensures ptrs[i] + n * d == ptrs[i + d]
    decreases d
  {
    if d > 0 {
      GroupPointer(cells, ptrs, rows, i, d - 1, n);
      assert RowAt(cells, ptrs, i + d - 1, rows[i + d - 1]);
      assert n * d == n * (d - 1) + n;
    }
  }

  /** row_d: the row d rows after row i, found by its distance from row i. */
  method RowStart(ptrs: seq<nat>, i: nat, d: nat, n: nat, ghost cells: seq<int>, ghost rows: seq<seq<int>>)
      returns (to: nat)
    requires RowsAre(cells, ptrs, rows) && i + d < |rows| && forall r :: i <= r < i + d ==> |rows[r]| == n
    ensures to == ptrs[i + d]
  {
    GroupPointer(cells, ptrs, rows, i, d, n);
    to := ptrs[i] + n * d;
  }

  method CopyOver(cells: array<int>, ptrs: seq<nat>, i: nat, d: nat, n: nat, ghost rows: seq<seq<int>>)
    requires RowsAre(cells[..], ptrs, rows) && 0 < d && i + d < |rows| && forall r :: i <= r <= i + d ==> |rows[r]| == n
    modifies cells
    ensures RowsAre(cells[..], ptrs, rows[i + d := rows[i]])
  {
    ghost var before := cells[..];
    var to := RowStart(ptrs, i, d, n, before, rows);
    PtrsOrdered(before, ptrs, rows, i + 1, i + d);
    assert RowAt(before, ptrs, i, rows[i]) && RowAt(before, ptrs, i + d, rows[i + d]);
    CopyCells(cells, ptrs[i], to, n);
    CopiedRow(before, cells[..], ptrs, rows, i, i + d);
  }

  /** The copies made for one node: d from 1. */
  method FillNode(cells: array<int>, ptrs: seq<nat>, i: nat, rowLen: nat, numDof: nat, ghost rows: seq<seq<int>>)
    returns (ghost filled: seq<seq<int>>)
    requires RowsAre(cells[..], ptrs, rows) && numDof > 0 && i + numDof <= |rows|
    requires forall r :: i <= r < i + numDof ==> |rows[r]| == rowLen
    modifies cells
    ensures RowsAre(cells[..], ptrs, filled) && |filled| == |rows|
    ensures forall r :: 0 <= r < |rows| ==> filled[r] == if i <= r < i + numDof then rows[i] else rows[r]
  {
    filled := rows;
    for d := 1 to numDof
      invariant RowsAre(cells[..], ptrs, filled) && |filled| == |rows|
      invariant forall r :: 0 <= r < |rows| ==> filled[r] == if i <= r < i + d then rows[i] else rows[r]
    {
      CopyOver(cells, ptrs, i, d, rowLen, filled);
      filled := filled[i + d := filled[i]];
    }
  }

  /** fill_in_extra_dof_rows_per_node: every row of a node gets the columns of the node's first row. */
  method FillExtraDofRows(cells: array<int>, ptrs: seq<nat>, numDof: nat, ghost rows: seq<seq<int>>)
    requires RowsAre(cells[..], ptrs, rows) && EvenGroups(rows, numDof)
    modifies cells
    ensures RowsAre(cells[..], ptrs, Spread(rows, numDof))
  {
    if numDof == 1 {
      assert Spread(rows, numDof) == rows;
      return;
    }
    ghost var now := rows;
    var i := 0;
    while i < |ptrs| - 1
      invariant RowsAre(cells[..], ptrs, now) && SpreadUpTo(rows, now, i, numDof)
    {
      OneGroup(rows, now, i, numDof);
      assert RowAt(cells[..], ptrs, i, now[i]);
      now := FillNode(cells, ptrs, i, ptrs[i + 1] - ptrs[i], numDof, now);
      NextSpread(rows, now, i, numDof);
      i := i + numDof;
    }
    assert now == Spread(rows, numDof);
  }

  /** The nodes before row i are done, the others as they were. */
  ghost predicate SpreadUpTo(rows: seq<seq<int>>, now: seq<seq<int>>, i: nat, numDof: nat) {
    && numDof > 0 && i % numDof == 0 && i <= |rows| == |now|
    && forall r :: 0 <= r < |rows| ==> now[r] == if r < i then rows[Lead(r, numDof)] else rows[r]
  }

  lemma OneGroup(rows: seq<seq<int>>, now: seq<seq<int>>, i: nat, numDof: nat)
    requires EvenGroups(rows, numDof) && SpreadUpTo(rows, now, i, numDof) && i < |rows|
    ensures i + numDof <= |rows| && forall r :: i <= r < i + numDof ==> |now[r]| == |now[i]|
  {
    MultiplesApart(i, |rows|, numDof);
    forall r | i <= r < i + numDof ensures |now[r]| == |now[i]| {
      LeadInGroup(i, numDof, r - i);
    }
  }

  lemma NextSpread(rows: seq<seq<int>>, filled: seq<seq<int>>, i: nat, numDof: nat)
    requires numDof > 0 && i % numDof == 0 && i + numDof <= |rows| == |filled|
    requires forall r :: 0 <= r < |rows| ==>
               filled[r] == (if i <= r < i + numDof then rows[i] else if r < i then rows[Lead(r, numDof)] else rows[r])
    ensures SpreadUpTo(rows, filled, i + numDof, numDof)
  {
    LeadInGroup(i, numDof, 0);
    forall r | i <= r < i + numDof ensures Lead(r, numDof) == i {
      LeadInGroup(i, numDof, r - i);
    }
  }

  /** One past the last used cell, or 0. */
  function LastUsed(row: seq<int>): (n: nat)
    ensures n <= |row| && (n > 0 ==> row[n - 1] != INVALID) && forall k :: n <= k < |row| ==> row[k] == INVALID
  {
    if row == [] then 0
    else if row[|row| - 1] != INVALID then |row| else LastUsed(row[..|row| - 1])
  }

  /** A row with no used cell keeps the length it had. */
  function KeptLength(row: seq<int>): nat { if LastUsed(row) == 0 then |row| else LastUsed(row) }

  function KeptLengths(rows: seq<seq<int>>): seq<nat> { seq(|rows|, r requires 0 <= r < |rows| => KeptLength(rows[r])) }

  function Kept(row: seq<int>): seq<int> { row[..KeptLength(row)] }

  function KeptRows(rows: seq<seq<int>>): seq<seq<int>> { seq(|rows|, r requires 0 <= r < |rows| => Kept(rows[r])) }

  /** The scan of one row from its end. */
  method ScanRow(cells: array<int>, lo: nat, rowLen: nat) returns (n: nat)
    requires lo + rowLen <= cells.Length
    ensures n == KeptLength(cells[lo..lo + rowLen])
  {
    n := rowLen;
    ghost var row := cells[lo..lo + rowLen];
    var j := rowLen;
    while j > 0
      invariant 0 <= j <= rowLen && LastUsed(row) == LastUsed(row[..j])
    {
      j := j - 1;
      assert row[..j + 1][..j] == row[..j] && row[..j + 1][j] == cells[lo + j];
      if cells[lo + j] != INVALID {
        n := j + 1;
        return;
      }
    }
  }

  method ScanRowOf(cells: array<int>, ptrs: seq<nat>, i: nat, ghost rows: seq<seq<int>>) returns (n: nat)
    requires RowsAre(cells[..], ptrs, rows) && i < |rows|
    ensures n == KeptLength(rows[i])
  {
    assert RowAt(cells[..], ptrs, i, rows[i]);
    n := ScanRow(cells, ptrs[i], ptrs[i + 1] - ptrs[i]);
  }

  /** The first loop of remove_invalid_indices. */
  method ScanRows(cells: array<int>, ptrs: seq<nat>, rowLengths: array<nat>, ghost rows: seq<seq<int>>)
    returns (newNnz: nat)
    requires RowsAre(cells[..], ptrs, rows) && rowLengths.Length == |rows|
    modifies rowLengths
    ensures rowLengths[..] == KeptLengths(rows) && newNnz == PrefixSum(KeptLengths(rows), |rows|)
  {
    newNnz := 0;
    ghost var src := cells[..];
    for i := 0 to rowLengths.Length
      invariant cells[..] == src && newNnz == PrefixSum(KeptLengths(rows), i)
      invariant forall r :: 0 <= r < i ==> rowLengths[r] == KeptLength(rows[r])
    {
      rowLengths[i] := ScanRowOf(cells, ptrs, i, rows);
      newNnz := newNnz + rowLengths[i];
      NextSum(KeptLengths(rows), i);
    }
  }

  lemma NextSum(lens: seq<nat>, i: nat)
    requires i < |lens|
    ensures PrefixSum(lens, i + 1) == PrefixSum(lens, i) + lens[i]
  {}

  method CopyTo(dst: array<int>, at: nat, src: array<int>, from: nat, n: nat)
    requires dst != src && at + n <= dst.Length && from + n <= src.Length
    modifies dst
    ensures dst[..] == old(dst[..at]) + src[from..from + n] + old(dst[at + n..])
  {
    for j := 0 to n
      invariant forall k :: 0 <= k < dst.Length && !(at <= k < at + j) ==> dst[k] == old(dst[k])
      invariant forall k :: at <= k < at + j ==> dst[k] == src[from + (k - at)]
    {
      dst[at + j] := src[from + j];
    }
  }

  /** The first i rows lie one after another, with lengths lens. */
  ghost predicate Packed(cells: seq<int>, lens: seq<nat>, rows: seq<seq<int>>, i: nat) {
    && i <= |rows| == |lens| && PrefixSum(lens, |lens|) == |cells|
    && forall r :: 0 <= r < i ==> PackedRow(cells, lens, r, rows[r])
  }

  ghost predicate PackedRow(cells: seq<int>, lens: seq<nat>, r: nat, row: seq<int>) {
    && r < |lens| && |row| == lens[r] && PrefixSum(lens, r + 1) <= |cells|
    && cells[PrefixSum(lens, r)..PrefixSum(lens, r + 1)] == row
  }

  lemma PackNext(before: seq<int>, after: seq<int>, lens: seq<nat>, rows: seq<seq<int>>, i: nat, lo: nat, hi: nat)
    requires Packed(before, lens, rows, i) && i < |rows| && |rows[i]| == lens[i]
    requires lo == PrefixSum(lens, i) && hi == PrefixSum(lens, i + 1) && hi <= |before|
    requires after == before[..lo] + rows[i] + before[hi..]
    ensures Packed(after, lens, rows, i + 1)
  {
    forall r | 0 <= r < i + 1 ensures PackedRow(after, lens, r, rows[r]) {
      if r < i {
        assert PackedRow(before, lens, r, rows[r]);
        PrefixSumOrder(lens, r + 1, i);
        assert after[..lo] == before[..lo];
        OtherSlice(before, after, lo, hi, PrefixSum(lens, r), PrefixSum(lens, r + 1));
      }
    }
  }

  ghost predicate BeginsWith(cells: seq<int>, ptrs: seq<nat>, lens: seq<nat>, r: nat, part: seq<int>) {
    r < |ptrs| && r < |lens| && lens[r] == |part| && ptrs[r] + |part| <= |cells|
        && cells[ptrs[r]..ptrs[r] + |part|] == part
  }

  /** The inner copying loop: the next row goes behind the packed ones. */
  method PackOne(newCols: array<int>, index: nat, cells: array<int>, ptrs: seq<nat>, lens: seq<nat>, i: nat,
                 ghost kept: seq<seq<int>>) returns (next: nat)
    requires newCols != cells && Packed(newCols[..], lens, kept, i) && i < |kept|
    requires index == PrefixSum(lens, i) && BeginsWith(cells[..], ptrs, lens, i, kept[i])
    modifies newCols
    ensures Packed(newCols[..], lens, kept, i + 1) && next == PrefixSum(lens, i + 1)
  {
    ghost var before := newCols[..];
    PrefixSumOrder(lens, i + 1, |lens|);
    next := index + lens[i];
    CopyTo(newCols, index, cells, ptrs[i], lens[i]);
    PackNext(before, newCols[..], lens, kept, i, index, next);
  }

  /** The copying loops of remove_invalid_indices: the first rowLens[i] cells of each row, packed. */
  method PackRows(cells: array<int>, ptrs: seq<nat>, rowLens: seq<nat>, newNnz: nat, ghost kept: seq<seq<int>>)
    returns (newCols: array<int>)
    requires |rowLens| == |kept| && newNnz == PrefixSum(rowLens, |rowLens|)
    requires forall r :: 0 <= r < |kept| ==> BeginsWith(cells[..], ptrs, rowLens, r, kept[r])
    ensures fresh(newCols) && Packed(newCols[..], rowLens, kept, |kept|)
  {
    ghost var source := cells[..];
    newCols := new int[newNnz];
    var index := 0;
    for i := 0 to |rowLens|
      invariant newCols != cells && fresh(newCols) && cells[..] == source
      invariant index == PrefixSum(rowLens, i) && Packed(newCols[..], rowLens, kept, i)
    {
      assert BeginsWith(source, ptrs, rowLens, i, kept[i]);
      index := PackOne(newCols, index, cells, ptrs, rowLens, i, kept);
    }
  }

  lemma KeptBegins(cells: seq<int>, ptrs: seq<nat>, rows: seq<seq<int>>)
    requires RowsAre(cells, ptrs, rows)
    ensures var kept := KeptRows(rows);
      forall r :: 0 <= r < |kept| ==> BeginsWith(cells, ptrs, KeptLengths(rows), r, kept[r])
  {
    var kept := KeptRows(rows);
    forall r | 0 <= r < |kept| ensures BeginsWith(cells, ptrs, KeptLengths(rows), r, kept[r]) {
      assert RowAt(cells, ptrs, r, rows[r]);
    }
  }

  /** Rows that keep their total length keep their lengths. */
  lemma {:induction false} NothingToCut(rows: seq<seq<int>>, ptrs: seq<nat>, cells: seq<int>, i: nat)
    requires RowsAre(cells, ptrs, rows) && i <= |rows|
    ensures PrefixSum(KeptLengths(rows), i) <= ptrs[i]
    ensures PrefixSum(KeptLengths(rows), i) == ptrs[i] ==> forall r :: 0 <= r < i ==> Kept(rows[r]) == rows[r]
    decreases i
  {
    if i > 0 {
      NothingToCut(rows, ptrs, cells, i - 1);
      assert RowAt(cells, ptrs, i - 1, rows[i - 1]);
    }
  }

  /** remove_invalid_indices: every row is cut after its last used cell, except that a row with none is kept whole. */
  method RemoveInvalidIndices(csg: LocalGraphArrays, rowLengths: array<nat>, ghost rows: seq<seq<int>>)
    requires RowsAre(csg.colIndices[..], csg.rowPointers[..], rows)
    requires csg.rowPointers != rowLengths && rowLengths.Length == |rows|
    modifies csg`colIndices, csg.rowPointers, rowLengths
    ensures csg.rowPointers == old(csg.rowPointers) && rowLengths[..] == KeptLengths(rows)
    ensures RowsAre(csg.colIndices[..], csg.rowPointers[..], KeptRows(rows))
  {
    var nnz := csg.rowPointers[rowLengths.Length];
    var newNnz := ScanRows(csg.colIndices, csg.rowPointers[..], rowLengths, rows);
    NothingToCut(rows, csg.rowPointers[..], csg.colIndices[..], |rows|);
    if newNnz < nnz {
      KeptBegins(csg.colIndices[..], csg.rowPointers[..], rows);
      var newCols := PackRows(csg.colIndices, csg.rowPointers[..], rowLengths[..], newNnz, KeptRows(rows));
      csg.colIndices := newCols;
      var total := ComputeRowPointers(csg.rowPointers, rowLengths[..]);
      PackedRows(newCols[..], csg.rowPointers[..], KeptLengths(rows), KeptRows(rows));
    } else {
      assert KeptRows(rows) == rows;
    }
  }

  lemma PackedRows(cells: seq<int>, ptrs: seq<nat>, lens: seq<nat>, rows: seq<seq<int>>)
    requires Packed(cells, lens, rows, |rows|) && |ptrs| == |rows| + 1
    requires forall i :: 0 <= i <= |rows| ==> ptrs[i] == PrefixSum(lens, i)
    ensures RowsAre(cells, ptrs, rows)
  {
    forall r | 0 <= r < |rows| ensures RowAt(cells, ptrs, r, rows[r]) {
      assert PackedRow(cells, lens, r, rows[r]);
    }
  }

  /** What is kept of a graph row is exactly its blocks if and only if it has a block or has no cells. */
  lemma KeptExactIff(row: seq<int>, S: set<int>, numDof: nat)
    requires numDof > 0 && GoodStarts(S, numDof) && RowHolds(row, S, numDof)
    ensures Kept(row) == Canonical(S, numDof) <==> S != {} || row == []
  {
    var c := Canonical(S, numDof);
    CanonicalFacts(S, numDof);
    CanonicalLength(S, numDof);
    if S == {} {
      assert row == [] || row[0] == INVALID;
      assert LastUsed(row) == 0;
    } else {
      TimesOrder(numDof, 1, |S|);
      assert row[..|c|][|c| - 1] == c[|c| - 1] && c[|c| - 1] in c;
      assert LastUsed(row) == |c|;
    }
  }

  /** The rows of a graph under construction. */
  ghost function RowsOf(g: LocalGraphArrays): seq<seq<int>>
    requires g.Shape()
    reads g, g.rowPointers, g.colIndices
  {
    seq(|g.starts|, r requires 0 <= r < |g.starts| && g.Shape() reads g, g.rowPointers, g.colIndices => g.Row(r))
  }

  lemma GraphRowsAre(g: LocalGraphArrays, rows: seq<seq<int>>)
    requires g.Shape() && rows == RowsOf(g)
    ensures RowsAre(g.colIndices[..], g.rowPointers[..], rows)
  {
    forall r | 0 <= r < |rows| ensures RowAt(g.colIndices[..], g.rowPointers[..], r, rows[r]) {
      assert rows[r] == g.Row(r);
    }
  }

  /** A finished row: the blocks of its starts, or only unused cells where nothing was asked for. */
  ghost predicate FinishedRow(row: seq<int>, S: set<int>, rowLen: nat, numDof: nat) {
    if S == {} then |row| == rowLen && RowEmpty(row) else row == Canonical(S, numDof)
  }

  ghost predicate Finished(rows: seq<seq<int>>, calls: seq<Call>, lens: seq<nat>, numDof: nat) {
    && numDof > 0 && |rows| == |lens|
    && forall r :: 0 <= r < |rows| ==> FinishedRow(rows[r], Requested(calls, Lead(r, numDof)), lens[r], numDof)
  }

  ghost predicate EvenLengths(lens: seq<nat>, numDof: nat) {
    && numDof > 0 && |lens| % numDof == 0
    && forall r :: 0 <= r < |lens| ==> lens[r] == lens[Lead(r, numDof)]
  }

  /** From the rows of the inserted blocks to the finished rows. */
  lemma FinishRows(rows: seq<seq<int>>, starts: seq<set<int>>, calls: seq<Call>, lens: seq<nat>, numDof: nat)
    requires EvenLengths(lens, numDof) && |rows| == |starts| == |lens|
    requires AllFit(NoStarts(|lens|), calls, lens, numDof) && Grown(NoStarts(|lens|), starts, calls)
    requires forall r :: 0 <= r < |rows| ==> |rows[r]| == lens[r] && RowHolds(rows[r], starts[r], numDof)
    ensures EvenGroups(rows, numDof) && Finished(KeptRows(Spread(rows, numDof)), calls, lens, numDof)
  {
    var done := KeptRows(Spread(rows, numDof));
    forall r | 0 <= r < |done|
      ensures FinishedRow(done[r], Requested(calls, Lead(r, numDof)), lens[r], numDof)
    {
      var lead := Lead(r, numDof);
      assert done[r] == Kept(rows[lead]);
      assert starts[lead] == {} + Requested(calls, lead);
      assert Fits(NoStarts(|lens|)[lead] + Requested(calls, lead), lens[lead], numDof);
      KeptRow(rows[lead], starts[lead], numDof);
    }
  }

  lemma KeptRow(row: seq<int>, S: set<int>, numDof: nat)
    requires numDof > 0 && GoodStarts(S, numDof) && RowHolds(row, S, numDof)
    ensures FinishedRow(Kept(row), S, |row|, numDof)
  {
    KeptExactIff(row, S, numDof);
  }

  /** Construction of the owned graph: allocate, insert the connections, repeat per degree of freedom, cut. */
  method BuildOwnedGraph(rowLengths: array<nat>, calls: seq<Call>, numDof: nat)
    returns (csg: LocalGraphArrays, ghost rows: seq<seq<int>>)
    requires EvenLengths(rowLengths[..], numDof)
    requires AllFit(NoStarts(rowLengths.Length), calls, rowLengths[..], numDof)
    modifies rowLengths
    ensures fresh(csg) && RowsAre(csg.colIndices[..], csg.rowPointers[..], rows)
    ensures Finished(rows, calls, old(rowLengths[..]), numDof)
  {
    ghost var lens := rowLengths[..];
    csg := new LocalGraphArrays(rowLengths[..]);
    assert csg.starts == NoStarts(|lens|);
    ghost var inserted := InsertConnections(csg, calls, numDof, lens);
    FillExtraDofRows(csg.colIndices, csg.rowPointers[..], numDof, inserted);
    rows := KeptRows(Spread(inserted, numDof));
    RemoveInvalidIndices(csg, rowLengths, Spread(inserted, numDof));
  }

  method InsertConnections(csg: LocalGraphArrays, calls: seq<Call>, numDof: nat, ghost lens: seq<nat>)
    returns (ghost inserted: seq<seq<int>>)
    requires csg.Valid(numDof) && csg.HasLengths(lens) && csg.starts == NoStarts(|lens|) && EvenLengths(lens, numDof)
    requires AllFit(NoStarts(|lens|), calls, lens, numDof)
    modifies csg`starts, csg.colIndices
    ensures RowsAre(csg.colIndices[..], csg.rowPointers[..], inserted) && EvenGroups(inserted, numDof)
    ensures Finished(KeptRows(Spread(inserted, numDof)), calls, lens, numDof)
  {
    ghost var outside := csg.InsertRun(calls, numDof, lens);
    inserted := RowsOf(csg);
    GraphRowsAre(csg, inserted);
    forall r | 0 <= r < |inserted| ensures |inserted[r]| == lens[r] && RowHolds(inserted[r], csg.starts[r], numDof) {
      assert inserted[r] == csg.Row(r);
    }
    FinishRows(inserted, csg.starts, calls, lens, numDof);
  }
}
