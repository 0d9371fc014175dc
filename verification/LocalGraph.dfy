/** LocalGraphArrays: the row pointers and column indices of a local graph, filled row by row. */
module LocalGraph {
  import opened Arithmetic
  import opened GraphRows
  import opened Offsets

  /** The largest LocalOrdinal marks an unused cell. */
  const INVALID := 0x7fff_ffff

  /** compute_row_pointers: exclusive prefix sums, with the total at the end. */
  method ComputeRowPointers(rowPtrs: array<nat>, rowLens: seq<nat>) returns (nnz: nat)
    requires rowPtrs.Length == |rowLens| + 1
    modifies rowPtrs
    ensures nnz == PrefixSum(rowLens, |rowLens|)
    ensures forall i :: 0 <= i <= |rowLens| ==> rowPtrs[i] == PrefixSum(rowLens, i)
  {
    nnz := 0;
    for i := 0 to |rowLens|
      invariant nnz == PrefixSum(rowLens, i)
      invariant forall k :: 0 <= k < i ==> rowPtrs[k] == PrefixSum(rowLens, k)
    {
      rowPtrs[i] := nnz;
      nnz := nnz + rowLens[i];
    }
    rowPtrs[|rowLens|] := nnz;
  }

  /** The cells hold c, then only unused cells. */
  ghost predicate Holds(cells: seq<int>, c: seq<int>) {
    |c| <= |cells| && cells[..|c|] == c && forall k :: |c| <= k < |cells| ==> cells[k] == INVALID
  }

  /** A row's cells hold the canonical row of the starts, then only unused cells. */
  ghost predicate RowHolds(cells: seq<int>, S: set<int>, numDof: nat) { Holds(cells, Canonical(S, numDof)) }

  /** The starts are valid ordinals whose blocks stay below INVALID and do not overlap. */
  ghost predicate GoodStarts(S: set<int>, numDof: nat) {
    Separated(S, numDof) && forall a :: a in S ==> 0 <= a && a + numDof <= INVALID
  }

  /** In terms of the 32-bit ordinals: a single block is good exactly if it starts at no negative number and ends before
      the largest of them. */
  lemma SingleGoodIff(a: int, numDof: nat)
    ensures GoodStarts({a}, numDof) <==> 0 <= a && a + numDof <= 2147483647
  {
    assert a in {a};
  }

  ghost function ToSet(s: seq<int>): set<int> { set x | x in s }

  /** One call of insertIndices. */
  datatype Call = Call(localRow: nat, inds: seq<int>)

  /** What a run of calls asks for in a row. */
  ghost function Requested(calls: seq<Call>, row: nat): set<int> {
    if calls == [] then {}
    else
      var last := calls[|calls| - 1];
      Requested(calls[..|calls| - 1], row) + (if last.localRow == row then ToSet(last.inds) else {})
  }

  /** Only what is asked for matters, not the order of the calls, their grouping or repetitions. */
  lemma {:induction false} RequestedMembers(calls: seq<Call>, row: nat)
    ensures forall x :: x in Requested(calls, row) <==>
                        exists i :: 0 <= i < |calls| && calls[i].localRow == row && x in calls[i].inds
  {
    if calls != [] {
      var n := |calls| - 1;
      RequestedMembers(calls[..n], row);
      forall x ensures x in Requested(calls, row) <==>
                       exists i :: 0 <= i < |calls| && calls[i].localRow == row && x in calls[i].inds {
        if i :| 0 <= i < |calls| && calls[i].localRow == row && x in calls[i].inds {
          assert i == n || (i < n && calls[..n][i] == calls[i]);
        }
        if x in Requested(calls[..n], row) {
          var i :| 0 <= i < n && calls[..n][i].localRow == row && x in calls[..n][i].inds;
          assert calls[i] == calls[..n][i];
        }
      }
    }
  }

  lemma RequestedPart(calls: seq<Call>, n: nat, row: nat)
    requires n <= |calls|
    ensures Requested(calls[..n], row) <= Requested(calls, row)
  {
    RequestedMembers(calls[..n], row);
    RequestedMembers(calls, row);
    forall x | x in Requested(calls[..n], row) ensures x in Requested(calls, row) {
      var i :| 0 <= i < n && calls[..n][i].localRow == row && x in calls[..n][i].inds;
      assert calls[i] == calls[..n][i];
    }
  }

  /** The starts are good ones and a row of the given length has room for them. */
  ghost predicate Fits(S: set<int>, rowLen: nat, numDof: nat) {
    GoodStarts(S, numDof) && |S| * numDof <= rowLen
  }

  ghost predicate AllFit(starts: seq<set<int>>, calls: seq<Call>, lens: seq<nat>, numDof: nat) {
    && |lens| == |starts|
    && (forall i :: 0 <= i < |calls| ==> calls[i].localRow < |starts|)
    && (forall r :: 0 <= r < |starts| ==> Fits(starts[r] + Requested(calls, r), lens[r], numDof))
  }

  /** Each row has gained exactly what the calls asked for. */
  ghost predicate Grown(was: seq<set<int>>, now: seq<set<int>>, calls: seq<Call>) {
    |now| == |was| && forall r :: 0 <= r < |was| ==> now[r] == was[r] + Requested(calls, r)
  }

  lemma NextCall(was: seq<set<int>>, now: seq<set<int>>, calls: seq<Call>, i: nat, lens: seq<nat>, numDof: nat)
    requires i < |calls| && AllFit(was, calls, lens, numDof) && Grown(was, now, calls[..i])
    ensures var row, grown := calls[i].localRow, now[calls[i].localRow] + ToSet(calls[i].inds);
      Fits(grown, lens[row], numDof) && Grown(was, now[row := grown], calls[..i + 1])
  {
    var row, grown := calls[i].localRow, now[calls[i].localRow] + ToSet(calls[i].inds);
    assert calls[..i + 1][..i] == calls[..i] && calls[..i + 1][i] == calls[i];
    RequestedPart(calls, i + 1, row);
    assert grown == was[row] + Requested(calls[..i + 1], row);
    SubsetSize(was[row] + Requested(calls, row), grown);
    TimesOrder(numDof, |grown|, |was[row] + Requested(calls, row)|);
  }

  /** Two valid graphs with the same row pointers and the same starts have the same column indices. */
  lemma SameStartsSameColumns(g: LocalGraphArrays, h: LocalGraphArrays, numDof: nat)
    requires g.Valid(numDof) && h.Valid(numDof) && g.starts == h.starts && g.rowPointers[..] == h.rowPointers[..]
    ensures g.colIndices[..] == h.colIndices[..]
  {
    assert forall r :: 0 <= r <= |g.starts| ==> g.rowPointers[..][r] == h.rowPointers[..][r];
    assert g.colIndices.Length == h.colIndices.Length;
    forall k | 0 <= k < g.colIndices.Length ensures g.colIndices[k] == h.colIndices[k] {
      var r := g.RowWith(k, |g.starts|);
      SameRow(g.Row(r), h.Row(r), g.starts[r], numDof);
      assert g.Row(r)[k - g.rowPointers[r]] == h.Row(r)[k - g.rowPointers[r]];
    }
  }

  /** x is asked for in the row by some call. */
  ghost predicate Asks(calls: seq<Call>, row: nat, x: int) {
    exists i :: 0 <= i < |calls| && calls[i].localRow == row && x in calls[i].inds
  }

  /** The two runs ask for the same: in any order, grouped in any way, however often. */
  ghost predicate SameRequests(calls: seq<Call>, others: seq<Call>) {
    forall row: nat, x: int :: Asks(calls, row, x) <==> Asks(others, row, x)
  }

  lemma SameRequested(calls: seq<Call>, others: seq<Call>, row: nat)
    requires SameRequests(calls, others)
    ensures Requested(calls, row) == Requested(others, row)
  {
    RequestedMembers(calls, row);
    RequestedMembers(others, row);
    forall x ensures x in Requested(calls, row) <==> x in Requested(others, row) {
      assert Asks(calls, row, x) <==> Asks(others, row, x);
    }
  }

  ghost function AllRequested(calls: seq<Call>, n: nat): seq<set<int>> {
    seq(n, r requires 0 <= r < n => Requested(calls, r))
  }

  ghost function Pointers(lens: seq<nat>): seq<nat> {
    seq(|lens| + 1, r requires 0 <= r <= |lens| => PrefixSum(lens, r))
  }

  ghost function NoStarts(n: nat): seq<set<int>> { seq(n, _ => {}) }

  lemma SameAllRequested(calls: seq<Call>, others: seq<Call>, n: nat)
    requires SameRequests(calls, others)
    ensures AllRequested(calls, n) == AllRequested(others, n)
  {
    forall r | 0 <= r < n ensures AllRequested(calls, n)[r] == AllRequested(others, n)[r] {
      SameRequested(calls, others, r);
    }
  }

  /** A fresh graph after a run of calls. */
  method GraphOf(rowLengths: seq<nat>, calls: seq<Call>, numDof: nat) returns (g: LocalGraphArrays)
    requires numDof > 0 && AllFit(NoStarts(|rowLengths|), calls, rowLengths, numDof)
    ensures fresh(g) && fresh(g.rowPointers) && fresh(g.colIndices) && g.Valid(numDof)
    ensures g.starts == AllRequested(calls, |rowLengths|) && g.rowPointers[..] == Pointers(rowLengths)
  {
    g := FreshGraph(rowLengths, numDof);
    ghost var outside := g.InsertRun(calls, numDof, rowLengths);
    GrownFromNothing(g.starts, calls, |rowLengths|);
  }

  method FreshGraph(rowLengths: seq<nat>, numDof: nat) returns (g: LocalGraphArrays)
    ensures fresh(g) && fresh(g.rowPointers) && fresh(g.colIndices) && g.Valid(numDof)
    ensures g.starts == NoStarts(|rowLengths|) && g.HasLengths(rowLengths) && g.rowPointers[..] == Pointers(rowLengths)
  {
    g := new LocalGraphArrays(rowLengths);
    assert g.Valid(numDof) && g.starts == NoStarts(|rowLengths|);
    LengthsGiven(g, rowLengths);
    PointersGiven(g, rowLengths);
  }

  lemma PointersGiven(g: LocalGraphArrays, lens: seq<nat>)
    requires g.Shape() && g.HasLengths(lens)
    ensures g.rowPointers[..] == Pointers(lens)
  {
    forall r | 0 <= r <= |lens| ensures g.rowPointers[..][r] == Pointers(lens)[r] {
      g.PointerIs(lens, r);
    }
  }

  lemma GrownFromNothing(starts: seq<set<int>>, calls: seq<Call>, n: nat)
    requires Grown(NoStarts(n), starts, calls)
    ensures starts == AllRequested(calls, n)
  {
    forall r | 0 <= r < n ensures starts[r] == AllRequested(calls, n)[r] {
      assert NoStarts(n)[r] + Requested(calls, r) == Requested(calls, r);
    }
  }

  lemma LengthsGiven(g: LocalGraphArrays, lens: seq<nat>)
    requires g.Shape() && |g.starts| == |lens| && forall r :: 0 <= r < |lens| ==> |g.Row(r)| == lens[r]
    ensures g.HasLengths(lens)
  {
    forall r | 0 <= r < |lens| ensures g.rowPointers[r + 1] == g.rowPointers[r] + lens[r] {
      assert |g.Row(r)| == lens[r];
    }
  }

  /** Two runs that ask for the same leave two graphs that hold what was asked for and have identical arrays. */
  method SameRequestsSameColumns(rowLengths: seq<nat>, calls: seq<Call>, others: seq<Call>, numDof: nat)
    returns (g: LocalGraphArrays, h: LocalGraphArrays)
    requires numDof > 0 && SameRequests(calls, others)
    requires AllFit(NoStarts(|rowLengths|), calls, rowLengths, numDof)
    requires AllFit(NoStarts(|rowLengths|), others, rowLengths, numDof)
    ensures g.Valid(numDof) && g.starts == AllRequested(calls, |rowLengths|)
    ensures h.Valid(numDof) && h.starts == AllRequested(others, |rowLengths|)
    ensures g.rowPointers[..] == h.rowPointers[..] == Pointers(rowLengths)
    ensures g.colIndices[..] == h.colIndices[..]
  {
    g := GraphOf(rowLengths, calls, numDof);
    h := GraphOf(rowLengths, others, numDof);
    SameAllRequested(calls, others, |rowLengths|);
    SameStartsSameColumns(g, h, numDof);
  }

  /** The cells the shift of insert reads, in order, for its targets from the row's end down to the cell after
      insertPoint. */
  ghost function ShiftReads(numDof: nat, insertPoint: nat, rowEnd: nat): seq<int>
    requires insertPoint < rowEnd
  {
    seq(rowEnd - 1 - insertPoint, i => rowEnd - 1 - i - numDof)
  }

  /** They all lie in the array exactly when the block is no longer than the array up to insertPoint. */
  lemma ShiftReadsInsideIff(numDof: nat, insertPoint: nat, rowEnd: nat)
    requires numDof > 0 && insertPoint + numDof <= rowEnd
    ensures (forall i :: 0 <= i < |ShiftReads(numDof, insertPoint, rowEnd)| ==>
        ShiftReads(numDof, insertPoint, rowEnd)[i] >= 0) <==> numDof <= insertPoint + 1
  {
    var cells := ShiftReads(numDof, insertPoint, rowEnd);
    if numDof > insertPoint + 1 {
      assert cells[|cells| - 1] == insertPoint + 1 - numDof;
    }
  }

  /** x is below every start of the row, so it becomes the first. */
  ghost predicate FirstOfRow(S: set<int>, x: int) { forall a :: a in S ==> x < a }

  /** Of the starts given, one is below every start the row has. */
  ghost predicate NewFirst(S: set<int>, given: set<int>) { exists x :: x in given && FirstOfRow(S, x) }

  /** Adding the given starts to a row that begins at lo reads from before the array. */
  ghost predicate ReadsBefore(lo: nat, S: set<int>, given: set<int>, numDof: nat) {
    lo + 1 < numDof && NewFirst(S, given)
  }

  /** So does a run of calls, in some row. */
  ghost predicate RunReadsBefore(pointers: seq<nat>, was: seq<set<int>>, calls: seq<Call>, numDof: nat)
    requires |pointers| >= |was|
  {
    exists r :: 0 <= r < |was| && ReadsBefore(pointers[r], was[r], Requested(calls, r), numDof)
  }

  /** Adding starts in two parts. */
  lemma NewFirstUnion(S: set<int>, given: set<int>, more: set<int>)
    ensures NewFirst(S, given + more) <==> NewFirst(S, given) || NewFirst(S + given, more)
  {
    if NewFirst(S, given + more) && !NewFirst(S, given) {
      var y :| y in given + more && FirstOfRow(S, y);
      assert y in more && FirstOfRow(S + given, y) by {
        forall a | a in given ensures y < a {
          assert !FirstOfRow(S, a);
        }
      }
    }
    if NewFirst(S, given) {
      var y :| y in given && FirstOfRow(S, y);
      assert y in given + more;
    } else if NewFirst(S + given, more) {
      var y :| y in more && FirstOfRow(S + given, y);
      assert y in given + more && FirstOfRow(S, y);
    }
  }

  lemma NewFirstOne(S: set<int>, x: int)
    ensures NewFirst(S, {x}) <==> FirstOfRow(S, x)
  {
    assert x in {x};
  }

  lemma NextCallReads(pointers: seq<nat>, was: seq<set<int>>, now: seq<set<int>>, calls: seq<Call>, i: nat, numDof: nat)
    requires |pointers| >= |was| && i < |calls| && calls[i].localRow < |was| && Grown(was, now, calls[..i])
    ensures RunReadsBefore(pointers, was, calls[..i + 1], numDof) <==>
      || RunReadsBefore(pointers, was, calls[..i], numDof)
      || ReadsBefore(pointers[calls[i].localRow], now[calls[i].localRow], ToSet(calls[i].inds), numDof)
  {
    var row, first, next := calls[i].localRow, calls[..i], calls[..i + 1];
    assert next[..i] == first && next[i] == calls[i];
    forall r | 0 <= r < |was| && r != row ensures Requested(next, r) == Requested(first, r) {}
    assert Requested(next, row) == Requested(first, row) + ToSet(calls[i].inds);
    NewFirstUnion(was[row], Requested(first, row), ToSet(calls[i].inds));
    if r :| 0 <= r < |was| && ReadsBefore(pointers[r], was[r], Requested(first, r), numDof) {
      assert ReadsBefore(pointers[r], was[r], Requested(next, r), numDof);
    }
    if r :| 0 <= r < |was| && ReadsBefore(pointers[r], was[r], Requested(next, r), numDof) {
      assert r != row ==> ReadsBefore(pointers[r], was[r], Requested(first, r), numDof);
    }
  }

  /** Where a start goes: at the beginning of the row if it is the first, and at least a block further otherwise. */
  lemma LowerBoundPlace(S: set<int>, numDof: nat, x: int, p: nat)
    requires numDof > 0 && GoodStarts(S + {x}, numDof) && x !in S && IsLowerBound(Canonical(S, numDof), x, p)
    ensures if FirstOfRow(S, x) then p == 0 else p >= numDof
  {
    var c := Canonical(S, numDof);
    SeparatedSubset(S + {x}, S, numDof);
    CanonicalFacts(S, numDof);
    if FirstOfRow(S, x) {
      assert c == [] || c[0] in c;
    } else {
      var a :| a in S && a <= x;
      BlockBelow(S, numDof, x, a, p);
    }
  }

  lemma PlaceReads(lo: nat, S: set<int>, numDof: nat, x: int, at: nat)
    requires numDof > 0 && GoodStarts(S + {x}, numDof) && lo <= at && IsLowerBound(Canonical(S, numDof), x, at - lo)
    ensures ReadsBefore(lo, S, {x}, numDof) <==> x !in S && numDof > at + 1
  {
    NewFirstOne(S, x);
    if x !in S {
      LowerBoundPlace(S, numDof, x, at - lo);
    }
  }

  /** A block below x lies below the lower bound of x. */
  lemma BlockBelow(S: set<int>, numDof: nat, x: int, a: int, p: nat)
    requires numDof > 0 && GoodStarts(S + {x}, numDof) && x !in S && a in S && a < x
    requires IsLowerBound(Canonical(S, numDof), x, p)
    ensures p >= numDof
  {
    assert x in S + {x} && a in S + {x};
    var k := BlockAt(S, numDof, a, numDof - 1);
  }

  /** Entry j of a block of the row has at least j entries before it. */
  lemma {:induction false} BlockAt(S: set<int>, numDof: nat, a: int, j: nat) returns (k: nat)
    requires Separated(S, numDof) && a in S && j < numDof
    ensures j <= k < |Canonical(S, numDof)| && Canonical(S, numDof)[k] == a + j
  {
    var c := Canonical(S, numDof);
    CanonicalFacts(S, numDof);
    assert a + j in c;
    k :| 0 <= k < |c| && c[k] == a + j;
    if j > 0 {
      var i := BlockAt(S, numDof, a, j - 1);
    }
  }

  /** The first block of the first row, with two degrees of freedom or more, is such an input. */
  method FirstBlockReadsBefore(rowLengths: seq<nat>, x: int, numDof: nat) returns (ghost outside: bool)
    requires numDof >= 2 && |rowLengths| > 0 && rowLengths[0] >= numDof && 0 <= x && x + numDof <= 2147483647
    ensures outside
  {
    var g := FreshGraph(rowLengths, numDof);
    assert ToSet([x]) == {x} && {} + {x} == {x};
    NewFirstOne({}, x);
    outside := g.InsertIndices(0, [x], numDof);
  }

  lemma SameRow(a: seq<int>, b: seq<int>, S: set<int>, numDof: nat)
    requires |a| == |b| && RowHolds(a, S, numDof) && RowHolds(b, S, numDof)
    ensures a == b
  {
    var c := Canonical(S, numDof);
    forall k | 0 <= k < |a| ensures a[k] == b[k] {
      if k < |c| { assert a[..|c|][k] == b[..|c|][k]; }
    }
  }

  class LocalGraphArrays {
    var rowPointers: array<nat>
    var colIndices: array<int>
    /** The block starts inserted into each row so far. */
    ghost var starts: seq<set<int>>

    ghost predicate Shape()
      reads this, rowPointers
    {
      && rowPointers.Length == |starts| + 1 && rowPointers[0] == 0 && rowPointers[|starts|] == colIndices.Length
      && (forall r :: 0 <= r < |starts| ==> rowPointers[r] <= rowPointers[r + 1])
      && (forall r :: 0 <= r <= |starts| ==> rowPointers[r] <= colIndices.Length)
    }

    ghost function Row(r: nat): seq<int>
      requires Shape() && r < |starts|
      reads this, rowPointers, colIndices
    {
      colIndices[rowPointers[r]..rowPointers[r + 1]]
    }

    /** Every row is the increasing list of its blocks followed only by INVALID. */
    ghost predicate Valid(numDof: nat)
      reads this, rowPointers, colIndices
    {
      && Shape()
      && forall r :: 0 <= r < |starts| ==> GoodStarts(starts[r], numDof) && RowHolds(Row(r), starts[r], numDof)
    }

    constructor (rowLengths: seq<nat>)
      ensures forall numDof :: Valid(numDof)
      ensures |starts| == |rowLengths| && (forall r :: 0 <= r < |starts| ==> starts[r] == {})
      ensures forall r :: 0 <= r < |starts| ==> |Row(r)| == rowLengths[r]
      ensures fresh(rowPointers) && fresh(colIndices)
    {
      var ptrs := new nat[|rowLengths| + 1];
      var nnz := ComputeRowPointers(ptrs, rowLengths);
      PrefixSumsOrdered(rowLengths);
      var cols := new int[nnz](_ => INVALID);
      rowPointers, colIndices := ptrs, cols;
      starts := seq(|rowLengths|, _ => {});
      new;
      forall r | 0 <= r < |starts| ensures RowEmpty(Row(r)) {}
    }

    method GetRowLength(localRow: nat) returns (n: nat)
      requires Shape() && localRow < |starts|
      ensures n == |Row(localRow)|
    {
      n := rowPointers[localRow + 1] - rowPointers[localRow];
    }

    /** std::find for the first unused cell of a row. */
    method FindInvalid(lo: nat, hi: nat) returns (p: nat)
      requires lo <= hi <= colIndices.Length
      ensures lo <= p <= hi && (forall k :: lo <= k < p ==> colIndices[k] != INVALID)
        && (p < hi ==> colIndices[p] == INVALID)
    {
      p := lo;
      while p < hi && colIndices[p] != INVALID
        invariant lo <= p <= hi && forall k :: lo <= k < p ==> colIndices[k] != INVALID
      {
        p := p + 1;
      }
    }

    /** std::lower_bound on an increasing range. */
    method LowerBound(lo: nat, hi: nat, x: int) returns (p: nat)
      requires lo <= hi <= colIndices.Length && StrictlyIncreasing(colIndices[lo..hi])
      ensures lo <= p <= hi && IsLowerBound(colIndices[lo..hi], x, p - lo)
    {
      ghost var s := colIndices[lo..hi];
      var first, last := lo, hi;
      while first < last
        invariant lo <= first <= last <= hi
        invariant forall i :: 0 <= i < first - lo ==> s[i] < x
        invariant forall i :: last - lo <= i < |s| ==> s[i] >= x
      {
        var mid := (first + last) / 2;
        assert s[mid - lo] == colIndices[mid];
        if colIndices[mid] < x {
          forall i | 0 <= i < mid + 1 - lo ensures s[i] < x {
            assert i == mid - lo || s[i] < s[mid - lo];
          }
          first := mid + 1;
        } else {
          forall i | mid - lo <= i < |s| ensures s[i] >= x {
            assert i == mid - lo || s[mid - lo] < s[i];
          }
          last := mid;
        }
      }
      p := first;
    }

    /** Make room at insertPoint by moving cells up numDof places, down to the cell after insertPoint as in the source;
        a copy from before the start of the array, whose target the block overwrites, is recorded and left out. */
    method MoveUp(numDof: nat, insertPoint: nat, rowEnd: nat) returns (ghost outside: bool)
      requires numDof > 0 && insertPoint + numDof <= rowEnd <= colIndices.Length
      modifies colIndices
      ensures outside <==> numDof > insertPoint + 1
      ensures forall k :: 0 <= k < insertPoint || rowEnd <= k < colIndices.Length ==>
                colIndices[k] == old(colIndices[k])
      ensures forall k :: insertPoint + numDof <= k < rowEnd ==> colIndices[k] == old(colIndices[k - numDof])
    {
      outside := false;
      var ptr := rowEnd - 1;
      while ptr != insertPoint
        invariant insertPoint <= ptr < rowEnd && (outside <==> ptr + 1 < numDof && ptr + 1 < rowEnd)
        invariant forall k :: 0 <= k <= ptr || rowEnd <= k < colIndices.Length ==> colIndices[k] == old(colIndices[k])
        invariant forall k :: ptr < k < rowEnd && k >= numDof ==> colIndices[k] == old(colIndices[k - numDof])
      {
        if ptr >= numDof {
          colIndices[ptr] := colIndices[ptr - numDof];
        } else {
          outside := true;
        }
        ptr := ptr - 1;
      }
    }

    method WriteBlock(ind: int, numDof: nat, insertPoint: nat)
      requires insertPoint + numDof <= colIndices.Length
      modifies colIndices
      ensures forall k :: insertPoint <= k < insertPoint + numDof ==> colIndices[k] == ind + (k - insertPoint)
      ensures forall k :: 0 <= k < insertPoint || insertPoint + numDof <= k < colIndices.Length ==>
                colIndices[k] == old(colIndices[k])
    {
      for i := 0 to numDof
        invariant forall k :: insertPoint <= k < insertPoint + i ==> colIndices[k] == ind + (k - insertPoint)
        invariant forall k :: 0 <= k < insertPoint || insertPoint + i <= k < colIndices.Length ==>
                    colIndices[k] == old(colIndices[k])
      {
        colIndices[insertPoint + i] := ind + i;
      }
    }

    /** insert: the cells from insertPoint on move up and the block takes their place. */
    method Insert(ind: int, numDof: nat, insertPoint: nat, rowEnd: nat) returns (ghost outside: bool)
      requires numDof > 0 && insertPoint + numDof <= rowEnd <= colIndices.Length
      modifies colIndices
      ensures outside <==> numDof > insertPoint + 1
      ensures colIndices[..] == old(colIndices[..insertPoint]) + BlockOf(ind, numDof)
                              + old(colIndices[insertPoint..rowEnd - numDof]) + old(colIndices[rowEnd..])
    {
      ghost var before := colIndices[..];
      outside := MoveUp(numDof, insertPoint, rowEnd);
      WriteBlock(ind, numDof, insertPoint);
      Spliced(before, colIndices[..], BlockOf(ind, numDof), insertPoint, rowEnd);
    }

    /** One turn of the loop of insertIndices: x joins the starts of the row between lo and hi. The room for the larger
        row is what keeps the look at insertPoint inside the row when that is also the end of the used cells. The shift
        reads from before the array exactly when a new start becomes the first of a row that near the array's start. */
    method InsertOne(lo: nat, hi: nat, rowEnd: nat, x: int, numDof: nat, ghost S: set<int>)
      returns (newEnd: nat, ghost outside: bool)
      requires numDof > 0 && GoodStarts(S + {x}, numDof)
      requires HoldsBetween(colIndices[..], lo, hi, S, numDof)
      requires rowEnd == UsedEnd(lo, S, numDof) && UsedEnd(lo, S + {x}, numDof) <= hi
      modifies colIndices
      ensures HoldsBetween(colIndices[..], lo, hi, S + {x}, numDof) && newEnd == UsedEnd(lo, S + {x}, numDof)
      ensures SameOutside(old(colIndices[..]), colIndices[..], lo, hi)
      ensures outside <==> ReadsBefore(lo, S, {x}, numDof)
    {
      UsedSlice(colIndices[..], lo, hi, S, x, numDof);
      var insertPoint := LowerBound(lo, rowEnd, x);
      WhereToInsert(colIndices[..], lo, hi, S, numDof, x, insertPoint);
      PlaceReads(lo, S, numDof, x, insertPoint);
      if insertPoint <= rowEnd && colIndices[insertPoint] != x {
        outside := InsertNew(lo, hi, rowEnd, insertPoint, x, numDof, S);
        newEnd := rowEnd + numDof;
      } else {
        assert S + {x} == S;
        newEnd, outside := rowEnd, false;
      }
    }

    method InsertNew(lo: nat, hi: nat, rowEnd: nat, insertPoint: nat, x: int, numDof: nat, ghost S: set<int>)
      returns (ghost outside: bool)
      requires numDof > 0 && GoodStarts(S + {x}, numDof) && x !in S
      requires HoldsBetween(colIndices[..], lo, hi, S, numDof)
      requires rowEnd == UsedEnd(lo, S, numDof) && rowEnd + numDof <= hi && lo <= insertPoint <= rowEnd
      requires IsLowerBound(Canonical(S, numDof), x, insertPoint - lo)
      modifies colIndices
      ensures HoldsBetween(colIndices[..], lo, hi, S + {x}, numDof)
      ensures SameOutside(old(colIndices[..]), colIndices[..], lo, hi)
      ensures outside <==> numDof > insertPoint + 1
    {
      ghost var before := colIndices[..];
      CanonicalInsert(S, numDof, x, insertPoint - lo);
      outside := Insert(x, numDof, insertPoint, rowEnd + numDof);
      InsertedRow(before, colIndices[..], lo, hi, S, numDof, x, insertPoint);
    }

    /** The loop of insertIndices over one row. */
    method InsertAll(lo: nat, hi: nat, inds: seq<int>, numDof: nat, ghost S0: set<int>) returns (ghost outside: bool)
      requires numDof > 0 && GoodStarts(S0 + ToSet(inds), numDof)
      requires HoldsBetween(colIndices[..], lo, hi, S0, numDof) && |S0 + ToSet(inds)| * numDof <= hi - lo
      modifies colIndices
      ensures HoldsBetween(colIndices[..], lo, hi, S0 + ToSet(inds), numDof)
      ensures SameOutside(old(colIndices[..]), colIndices[..], lo, hi)
      ensures outside <==> ReadsBefore(lo, S0, ToSet(inds), numDof)
    {
      outside := false;
      ghost var S := S0;
      RoomFor(S0 + ToSet(inds), S0, numDof);
      var rowEnd := FindInvalid(lo, hi);
      UsedCells(colIndices[..], lo, hi, S0, numDof, rowEnd);
      for i := 0 to |inds|
        invariant S == S0 + ToSet(inds[..i])
        invariant HoldsBetween(colIndices[..], lo, hi, S, numDof) && rowEnd == UsedEnd(lo, S, numDof)
        invariant SameOutside(old(colIndices[..]), colIndices[..], lo, hi)
        invariant outside <==> ReadsBefore(lo, S0, ToSet(inds[..i]), numDof)
      {
        NextStart(inds, i);
        NewFirstUnion(S0, ToSet(inds[..i]), {inds[i]});
        RoomFor(S0 + ToSet(inds), S + {inds[i]}, numDof);
        ghost var before;
        rowEnd, before := InsertOne(lo, hi, rowEnd, inds[i], numDof, S);
        outside := outside || before;
        S := S + {inds[i]};
      }
      assert inds[..|inds|] == inds;
    }

    /** insertIndices: the row's starts grow by the given ones, whatever their order and however often each occurs. It
        reads from before the array exactly when one of them is below all of a row that near the array's start. */
    method InsertIndices(localRow: nat, inds: seq<int>, numDof: nat) returns (ghost outside: bool)
      requires numDof > 0 && Valid(numDof) && localRow < |starts|
      requires GoodStarts(starts[localRow] + ToSet(inds), numDof)
      requires |starts[localRow] + ToSet(inds)| * numDof <= |Row(localRow)|
      modifies this`starts, colIndices
      ensures Valid(numDof) && starts == old(starts)[localRow := old(starts[localRow]) + ToSet(inds)]
      ensures forall r :: 0 <= r < |starts| && r != localRow ==> Row(r) == old(Row(r))
      ensures outside <==> ReadsBefore(rowPointers[localRow], old(starts[localRow]), ToSet(inds), numDof)
    {
      var rowLen := GetRowLength(localRow);
      var lo := rowPointers[localRow];
      var hi := lo + rowLen;
      ghost var S0, before := starts[localRow], colIndices[..];
      outside := InsertAll(lo, hi, inds, numDof, S0);
      starts := starts[localRow := S0 + ToSet(inds)];
      forall r | 0 <= r < |starts| && r != localRow ensures Row(r) == old(Row(r)) {
        RowsApart(localRow, r);
        OtherSlice(before, colIndices[..], lo, hi, rowPointers[r], rowPointers[r + 1]);
      }
    }

    method InsertCall(call: Call, numDof: nat, ghost lens: seq<nat>) returns (ghost outside: bool)
      requires numDof > 0 && Valid(numDof) && HasLengths(lens) && call.localRow < |starts|
      requires Fits(starts[call.localRow] + ToSet(call.inds), lens[call.localRow], numDof)
      modifies this`starts, colIndices
      ensures Valid(numDof) && HasLengths(lens)
      ensures starts == old(starts)[call.localRow := old(starts[call.localRow]) + ToSet(call.inds)]
      ensures outside <==>
        ReadsBefore(rowPointers[call.localRow], old(starts[call.localRow]), ToSet(call.inds), numDof)
    {
      outside := InsertIndices(call.localRow, call.inds, numDof);
    }

    /** A run of calls: each row ends up with every start any call asked for in it. */
    method InsertRun(calls: seq<Call>, numDof: nat, ghost lens: seq<nat>) returns (ghost outside: bool)
      requires numDof > 0 && Valid(numDof) && HasLengths(lens) && AllFit(starts, calls, lens, numDof)
      modifies this`starts, colIndices
      ensures Valid(numDof) && HasLengths(lens) && Grown(old(starts), starts, calls)
      ensures outside <==> RunReadsBefore(rowPointers[..], old(starts), calls, numDof)
    {
      ghost var was, pointers := starts, rowPointers[..];
      outside := false;
      for i := 0 to |calls|
        invariant Valid(numDof) && HasLengths(lens) && Grown(was, starts, calls[..i])
        invariant rowPointers[..] == pointers && (outside <==> RunReadsBefore(pointers, was, calls[..i], numDof))
      {
        NextCall(was, starts, calls, i, lens, numDof);
        NextCallReads(pointers, was, starts, calls, i, numDof);
        ghost var before := InsertCall(calls[i], numDof, lens);
        outside := outside || before;
      }
      assert calls[..|calls|] == calls;
    }

    ghost predicate HasLengths(lens: seq<nat>)
      requires Shape()
      reads this, rowPointers
    {
      |lens| == |starts| && forall r :: 0 <= r < |starts| ==> rowPointers[r + 1] == rowPointers[r] + lens[r]
    }

    lemma {:induction false} PointerIs(lens: seq<nat>, r: nat)
      requires Shape() && HasLengths(lens) && r <= |lens|
      ensures rowPointers[r] == PrefixSum(lens, r)
    {
      if r > 0 { PointerIs(lens, r - 1); }
    }

    lemma RowsApart(r: nat, q: nat)
      requires Shape() && r < |starts| && q < |starts| && r != q
      ensures rowPointers[q + 1] <= rowPointers[r] || rowPointers[r + 1] <= rowPointers[q]
    {
      if r < q { PointersOrdered(r + 1, q); } else { PointersOrdered(q + 1, r); }
    }

    /** Every cell lies in a row. */
    lemma {:induction false} RowWith(k: nat, n: nat) returns (r: nat)
      requires Shape() && n <= |starts| && k < rowPointers[n]
      ensures r < n && rowPointers[r] <= k < rowPointers[r + 1]
      decreases n
    {
      if rowPointers[n - 1] <= k { r := n - 1; } else { r := RowWith(k, n - 1); }
    }

    lemma {:induction false} PointersOrdered(r: nat, q: nat)
      requires Shape() && r <= q <= |starts|
      ensures rowPointers[r] <= rowPointers[q]
      decreases q - r
    {
      if r < q { PointersOrdered(r + 1, q); }
    }
  }

  /** Between lo and hi the cells are a row for S. */
  ghost predicate HoldsBetween(cells: seq<int>, lo: nat, hi: nat, S: set<int>, numDof: nat) {
    lo <= hi <= |cells| && RowHolds(cells[lo..hi], S, numDof)
  }

  ghost function UsedEnd(lo: nat, S: set<int>, numDof: nat): nat { lo + |Canonical(S, numDof)| }

  ghost predicate SameOutside(before: seq<int>, after: seq<int>, lo: nat, hi: nat) {
    lo <= hi <= |before| == |after| && after[..lo] == before[..lo] && after[hi..] == before[hi..]
  }

  /** The used cells of a row are the canonical row, and they increase. */
  lemma UsedSlice(cells: seq<int>, lo: nat, hi: nat, S: set<int>, x: int, numDof: nat)
    requires HoldsBetween(cells, lo, hi, S, numDof) && GoodStarts(S + {x}, numDof)
    ensures lo <= UsedEnd(lo, S, numDof) <= hi && cells[lo..UsedEnd(lo, S, numDof)] == Canonical(S, numDof)
    ensures StrictlyIncreasing(Canonical(S, numDof))
  {
    SeparatedSubset(S + {x}, S, numDof);
    CanonicalFacts(S, numDof);
    var c := Canonical(S, numDof);
    assert cells[lo..lo + |c|] == cells[lo..hi][..|c|];
  }

  /** The first unused cell is where the row's blocks end. */
  lemma UsedCells(cells: seq<int>, lo: nat, hi: nat, S: set<int>, numDof: nat, p: nat)
    requires HoldsBetween(cells, lo, hi, S, numDof) && GoodStarts(S, numDof)
    requires lo <= p <= hi && (forall k :: lo <= k < p ==> cells[k] != INVALID) && (p < hi ==> cells[p] == INVALID)
    ensures p == UsedEnd(lo, S, numDof)
  {
    CanonicalFacts(S, numDof);
    var c, row := Canonical(S, numDof), cells[lo..hi];
    assert forall k :: 0 <= k < |row| ==> row[k] == cells[lo + k];
    forall k | 0 <= k < |c| ensures row[k] != INVALID {
      assert row[..|c|][k] == c[k] && c[k] in c;
    }
    assert |c| < |row| ==> row[|c|] == cells[lo + |c|];
    assert p < hi ==> row[p - lo] == cells[p];
  }

  /** In a row with room, the lower bound is a cell of the row, and it holds x exactly if x is a start already. */
  lemma WhereToInsert(cells: seq<int>, lo: nat, hi: nat, S: set<int>, numDof: nat, x: int, at: nat)
    requires numDof > 0 && GoodStarts(S + {x}, numDof) && HoldsBetween(cells, lo, hi, S, numDof)
    requires lo <= at && IsLowerBound(Canonical(S, numDof), x, at - lo) && UsedEnd(lo, S + {x}, numDof) <= hi
    ensures at < hi && (cells[at] == x <==> x in S)
    ensures x !in S ==> UsedEnd(lo, S + {x}, numDof) == UsedEnd(lo, S, numDof) + numDof
  {
    assert x in S + {x};
    if x in S {
      StartFound(cells, lo, hi, S, numDof, x, at);
    } else {
      StartMissing(cells, lo, hi, S, numDof, x, at);
    }
  }

  lemma StartFound(cells: seq<int>, lo: nat, hi: nat, S: set<int>, numDof: nat, x: int, at: nat)
    requires numDof > 0 && GoodStarts(S + {x}, numDof) && HoldsBetween(cells, lo, hi, S, numDof) && x in S
    requires lo <= at && IsLowerBound(Canonical(S, numDof), x, at - lo)
    ensures at < hi && cells[at] == x
  {
    SeparatedSubset(S + {x}, S, numDof);
    FindsPresent(S, numDof, x, at - lo);
    CellOf(cells, lo, hi, Canonical(S, numDof), at - lo);
  }

  lemma StartMissing(cells: seq<int>, lo: nat, hi: nat, S: set<int>, numDof: nat, x: int, at: nat)
    requires numDof > 0 && GoodStarts(S + {x}, numDof) && HoldsBetween(cells, lo, hi, S, numDof) && x !in S
    requires lo <= at && IsLowerBound(Canonical(S, numDof), x, at - lo) && UsedEnd(lo, S + {x}, numDof) <= hi
    ensures at < hi && cells[at] != x
    ensures UsedEnd(lo, S + {x}, numDof) == UsedEnd(lo, S, numDof) + numDof
  {
    LongerRow(lo, S, numDof, x, at);
    MissesAbsent(S, numDof, x);
    CellOf(cells, lo, hi, Canonical(S, numDof), at - lo);
  }

  lemma LongerRow(lo: nat, S: set<int>, numDof: nat, x: int, at: nat)
    requires numDof > 0 && GoodStarts(S + {x}, numDof) && x !in S
    requires lo <= at && IsLowerBound(Canonical(S, numDof), x, at - lo)
    ensures UsedEnd(lo, S + {x}, numDof) == UsedEnd(lo, S, numDof) + numDof && x + numDof <= INVALID
  {
    assert x in S + {x};
    CanonicalInsert(S, numDof, x, at - lo);
  }

  /** The cell at place p of a row. */
  lemma CellOf(cells: seq<int>, lo: nat, hi: nat, c: seq<int>, p: nat)
    requires lo <= hi <= |cells| && Holds(cells[lo..hi], c) && p <= |c| && lo + p < hi
    ensures cells[lo + p] == (if p < |c| then c[p] else INVALID) && (p < |c| ==> c[p] in c)
  {
    assert cells[lo..hi][p] == cells[lo + p];
    assert p < |c| ==> cells[lo..hi][..|c|][p] == cells[lo..hi][p];
  }

  /** A splice, cell by cell. */
  lemma Spliced(before: seq<int>, after: seq<int>, block: seq<int>, at: nat, end: nat)
    requires |after| == |before| && at + |block| <= end <= |before|
    requires forall k :: 0 <= k < at || end <= k < |before| ==> after[k] == before[k]
    requires forall k :: at <= k < at + |block| ==> after[k] == block[k - at]
    requires forall k :: at + |block| <= k < end ==> after[k] == before[k - |block|]
    ensures after == before[..at] + block + before[at..end - |block|] + before[end..]
  {}

  /** Splicing the block of a new start in at its lower bound leaves a row for the larger set and touches nothing
      else. */
  lemma InsertedRow(before: seq<int>, after: seq<int>, lo: nat, hi: nat, S: set<int>, numDof: nat, x: int, at: nat)
    requires HoldsBetween(before, lo, hi, S, numDof) && lo <= at <= UsedEnd(lo, S, numDof)
    requires UsedEnd(lo, S, numDof) + numDof <= hi
    requires var c := Canonical(S, numDof);
      Canonical(S + {x}, numDof) == c[..at - lo] + BlockOf(x, numDof) + c[at - lo..]
    requires var end := UsedEnd(lo, S, numDof);
      after == before[..at] + BlockOf(x, numDof) + before[at..end] + before[end + numDof..]
    ensures HoldsBetween(after, lo, hi, S + {x}, numDof) && SameOutside(before, after, lo, hi)
  {
    SpliceRow(before, after, lo, hi, Canonical(S, numDof), BlockOf(x, numDof), at);
  }

  lemma SpliceRow(before: seq<int>, after: seq<int>, lo: nat, hi: nat, c: seq<int>, block: seq<int>, at: nat)
    requires lo <= hi <= |before| && Holds(before[lo..hi], c) && lo <= at <= lo + |c| && lo + |c| + |block| <= hi
    requires after == before[..at] + block + before[at..lo + |c|] + before[lo + |c| + |block|..]
    ensures SameOutside(before, after, lo, hi) && Holds(after[lo..hi], c[..at - lo] + block + c[at - lo..])
  {
    Splice(before, after, lo, hi, at, lo + |c|, block);
    SplicedRow(before[lo..hi], after[lo..hi], c, block, at - lo);
  }

  /** A splice inside a row, seen from the row and from outside it. */
  lemma Splice(before: seq<int>, after: seq<int>, lo: nat, hi: nat, at: nat, end: nat, block: seq<int>)
    requires lo <= at <= end && end + |block| <= hi <= |before|
    requires after == before[..at] + block + before[at..end] + before[end + |block|..]
    ensures SameOutside(before, after, lo, hi)
    ensures var row := before[lo..hi];
      after[lo..hi] == row[..at - lo] + block + row[at - lo..end - lo] + row[end - lo + |block|..]
  {
    var row := before[lo..hi];
    SubSlice(before, lo, hi, lo, at);
    SubSlice(before, lo, hi, at, end);
    SubSlice(before, lo, hi, end + |block|, hi);
  }

  lemma SubSlice(s: seq<int>, lo: nat, hi: nat, a: nat, b: nat)
    requires lo <= a <= b <= hi <= |s|
    ensures s[lo..hi][a - lo..b - lo] == s[a..b]
  {
    forall k | 0 <= k < b - a ensures s[lo..hi][a - lo..b - lo][k] == s[a..b][k] {
      assert s[lo..hi][a - lo..b - lo][k] == s[lo..hi][a - lo + k];
    }
  }

  lemma SplicedRow(row: seq<int>, spliced: seq<int>, c: seq<int>, block: seq<int>, p: nat)
    requires p <= |c| && |c| + |block| <= |row| && Holds(row, c)
    requires spliced == row[..p] + block + row[p..|c|] + row[|c| + |block|..]
    ensures Holds(spliced, c[..p] + block + c[p..])
  {
    assert row[..p] == c[..p] && row[p..|c|] == c[p..];
  }

  lemma OtherSlice(before: seq<int>, after: seq<int>, lo: nat, hi: nat, a: nat, b: nat)
    requires lo <= hi <= |before| == |after| && a <= b <= |before| && (b <= lo || hi <= a)
    requires after[..lo] == before[..lo] && after[hi..] == before[hi..]
    ensures after[a..b] == before[a..b]
  {
    forall k | a <= k < b ensures after[k] == before[k] {
      if k < lo {
        assert after[..lo][k] == before[..lo][k];
      } else {
        assert after[hi..][k - hi] == before[hi..][k - hi];
      }
    }
  }

  /** Room for the final row is room for every row on the way. */
  lemma RoomFor(all: set<int>, S: set<int>, numDof: nat)
    requires S <= all && GoodStarts(all, numDof)
    ensures GoodStarts(S, numDof) && |Canonical(S, numDof)| <= |all| * numDof
  {
    CanonicalLength(S, numDof);
    SubsetSize(all, S);
    TimesOrder(numDof, |S|, |all|);
  }

  lemma SubsetSize(all: set<int>, S: set<int>)
    requires S <= all
    ensures |S| <= |all|
  {
    assert all == S + (all - S);
  }

  lemma NextStart(inds: seq<int>, i: nat)
    requires i < |inds|
    ensures ToSet(inds[..i + 1]) == ToSet(inds[..i]) + {inds[i]} && ToSet(inds[..i + 1]) <= ToSet(inds)
  {
    assert inds[..i + 1] == inds[..i] + [inds[i]];
  }

  ghost predicate RowEmpty(cells: seq<int>) { forall k :: 0 <= k < |cells| ==> cells[k] == INVALID }
}
