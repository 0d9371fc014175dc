/** The canonical form of a graph row: the blocks of a set of block starts, in increasing order. */
module GraphRows {
  import opened Arithmetic

  function BlockOf(start: int, numDof: nat): seq<int> { seq(numDof, i => start + i) }

  ghost function MaxOf(S: set<int>): (m: int)
    requires S != {}
    ensures m in S && forall x :: x in S ==> x <= m
  {
    MaxExists(S);
    var m :| m in S && forall x :: x in S ==> x <= m;
    m
  }

  lemma Inhabited(S: set<int>)
    ensures S == {} || exists y :: y in S
  {
    if forall y :: y !in S { NoElements(S); }
  }

  lemma NoElements(S: set<int>)
    requires forall y :: y !in S
    ensures S == {}
  {
    forall y | y in S ensures false {}
  }

  lemma {:induction false} MaxExists(S: set<int>)
    requires S != {}
    ensures exists m :: m in S && forall x :: x in S ==> x <= m
    decreases |S|
  {
    Inhabited(S);
    var y :| y in S;
    var T := S - {y};
    if T != {} {
      MaxExists(T);
      var m :| m in T && forall x :: x in T ==> x <= m;
      var k := if m < y then y else m;
      assert k in S;
      forall x | x in S ensures x <= k {
        assert x == y || x in T;
      }
    } else {
      forall x | x in S ensures x <= y {
        assert x == y || x in T;
      }
    }
  }

  /** The row: block after block, smallest start first. */
  ghost function Canonical(S: set<int>, numDof: nat): seq<int>
    decreases |S|
  {
    if S == {} then []
    else
      var m := MaxOf(S);
      Canonical(S - {m}, numDof) + BlockOf(m, numDof)
  }

  /** No two blocks overlap; always so for a single degree of freedom, and for starts that are multiples of numDof. */
  ghost predicate Separated(S: set<int>, numDof: nat) {
    forall a, b :: a in S && b in S && a < b ==> a + numDof <= b
  }

  ghost predicate StrictlyIncreasing(s: seq<int>) {
    forall i, j :: 0 <= i < j < |s| ==> s[i] < s[j]
  }

  lemma {:induction false} AlignedSeparated(S: set<int>, numDof: nat)
    requires numDof > 0 && forall a :: a in S ==> a % numDof == 0
    ensures Separated(S, numDof)
  {
    forall a, b | a in S && b in S && a < b ensures a + numDof <= b {
      MultiplesApart(a, b, numDof);
    }
  }

  lemma {:induction false} CanonicalLength(S: set<int>, numDof: nat)
    ensures |Canonical(S, numDof)| == |S| * numDof
    decreases |S|
  {
    if S != {} {
      var m := MaxOf(S);
      CanonicalLength(S - {m}, numDof);
      assert |S| == |S - {m}| + 1;
      assert |S| * numDof == |S - {m}| * numDof + numDof;
    }
  }

  /** The entries are exactly the members of the blocks, and they increase. */
  lemma {:induction false} CanonicalFacts(S: set<int>, numDof: nat)
    requires Separated(S, numDof)
    ensures forall x :: x in Canonical(S, numDof) <==> exists a :: a in S && a <= x < a + numDof
    ensures StrictlyIncreasing(Canonical(S, numDof))
    decreases |S|
  {
    if S != {} {
      var m := MaxOf(S);
      var T := S - {m};
      CanonicalFacts(T, numDof);
      BlockAppended(S, m, Canonical(T, numDof), numDof);
      BlockFollows(S, m, Canonical(T, numDof), numDof);
    }
  }

  lemma BlockAppended(S: set<int>, m: int, head: seq<int>, numDof: nat)
    requires m in S && forall x :: x in head <==> exists a :: a in S - {m} && a <= x < a + numDof
    ensures forall x :: x in head + BlockOf(m, numDof) <==> exists a :: a in S && a <= x < a + numDof
  {
    var T, tail := S - {m}, BlockOf(m, numDof);
    forall x ensures x in head + tail <==> exists a :: a in S && a <= x < a + numDof {
      if x in head {
        var a :| a in T && a <= x < a + numDof;
        assert a in S;
      }
      if m <= x < m + numDof {
        assert tail[x - m] == x;
      }
      if a :| a in S && a <= x < a + numDof {
        assert a == m || a in T;
      }
    }
  }

  lemma BlockFollows(S: set<int>, m: int, head: seq<int>, numDof: nat)
    requires m in S && Separated(S, numDof) && (forall a :: a in S ==> a <= m) && StrictlyIncreasing(head)
    requires forall x :: x in head <==> exists a :: a in S - {m} && a <= x < a + numDof
    ensures StrictlyIncreasing(head + BlockOf(m, numDof))
  {
    forall i | 0 <= i < |head| ensures head[i] < m {
      assert head[i] in head;
      var a :| a in S - {m} && a <= head[i] < a + numDof;
      assert a < m;
    }
  }

  /** p splits s into the entries below x and the rest: what std::lower_bound returns on an increasing range. */
  ghost predicate IsLowerBound(s: seq<int>, x: int, p: nat) {
    p <= |s| && (forall i :: 0 <= i < p ==> s[i] < x) && (forall i :: p <= i < |s| ==> s[i] >= x)
  }

  /** A start that is there already is what the lower bound finds. */
  lemma FindsPresent(S: set<int>, numDof: nat, x: int, p: nat)
    requires numDof > 0 && Separated(S, numDof) && x in S && IsLowerBound(Canonical(S, numDof), x, p)
    ensures p < |Canonical(S, numDof)| && Canonical(S, numDof)[p] == x
  {
    CanonicalFacts(S, numDof);
    var c := Canonical(S, numDof);
    assert x in c by { assert x in S && x <= x < x + numDof; }
    var i :| 0 <= i < |c| && c[i] == x;
    assert p <= i && c[p] >= x == c[i];
  }

  /** A start that is not there is not found, neither as a start nor inside a block. */
  lemma MissesAbsent(S: set<int>, numDof: nat, x: int)
    requires numDof > 0 && Separated(S + {x}, numDof) && x !in S
    ensures x !in Canonical(S, numDof)
  {
    SeparatedSubset(S + {x}, S, numDof);
    CanonicalFacts(S, numDof);
    forall a | a in S ensures !(a <= x < a + numDof) {
      assert a in S + {x} && x in S + {x};
    }
  }

  lemma SeparatedSubset(S: set<int>, T: set<int>, numDof: nat)
    requires Separated(S, numDof) && T <= S
    ensures Separated(T, numDof)
  {}

  /** Inserting the block of a new start at its lower bound gives the row of the larger set. */
  lemma {:induction false} CanonicalInsert(S: set<int>, numDof: nat, x: int, p: nat)
    requires numDof > 0 && Separated(S + {x}, numDof) && x !in S && IsLowerBound(Canonical(S, numDof), x, p)
    ensures var c := Canonical(S, numDof); Canonical(S + {x}, numDof) == c[..p] + BlockOf(x, numDof) + c[p..]
    decreases |S|
  {
    if S == {} {
      assert S + {x} == {x} && {x} - {x} == {};
      assert MaxOf({x}) == x;
    } else {
      var m := MaxOf(S);
      if x > m {
        InsertAbove(S, numDof, x, p);
      } else {
        SplitAt(S, numDof, x, p);
        SeparatedSubset(S + {x}, S - {m} + {x}, numDof);
        CanonicalInsert(S - {m}, numDof, x, p);
        LargestStart(S + {x}, m);
        assert S + {x} - {m} == S - {m} + {x};
        InsertIntoHead(Canonical(S - {m}, numDof), BlockOf(m, numDof), BlockOf(x, numDof), p);
      }
    }
  }

  lemma InsertIntoHead(head: seq<int>, tail: seq<int>, block: seq<int>, p: nat)
    requires p <= |head|
    ensures head[..p] + block + head[p..] + tail == (head + tail)[..p] + block + (head + tail)[p..]
  {
    assert (head + tail)[..p] == head[..p] && (head + tail)[p..] == head[p..] + tail;
  }

  lemma InsertAbove(S: set<int>, numDof: nat, x: int, p: nat)
    requires numDof > 0 && Separated(S + {x}, numDof) && IsLowerBound(Canonical(S, numDof), x, p)
    requires forall a :: a in S ==> a < x
    ensures Canonical(S + {x}, numDof) == Canonical(S, numDof) + BlockOf(x, numDof) && p == |Canonical(S, numDof)|
  {
    var c := Canonical(S, numDof);
    assert p < |c| ==> c[p] >= x;
    LargestStart(S + {x}, x);
    assert S + {x} - {x} == S;
    BelowStart(S, numDof, x);
    forall i | 0 <= i < |c| ensures c[i] < x {
      assert c[i] in c;
    }
  }

  /** Below the largest start the lower bound lies in the row of the smaller starts. */
  lemma SplitAt(S: set<int>, numDof: nat, x: int, p: nat)
    requires numDof > 0 && S != {} && x <= MaxOf(S) && IsLowerBound(Canonical(S, numDof), x, p)
    ensures IsLowerBound(Canonical(S - {MaxOf(S)}, numDof), x, p)
  {
    var m := MaxOf(S);
    var c, head := Canonical(S, numDof), Canonical(S - {m}, numDof);
    assert c[|head|] == BlockOf(m, numDof)[0] == m;
    assert forall i :: 0 <= i < |head| ==> c[i] == head[i];
  }

  lemma LargestStart(S: set<int>, m: int)
    requires m in S && forall x :: x in S ==> x <= m
    ensures MaxOf(S) == m
  {}

  lemma BelowStart(S: set<int>, numDof: nat, x: int)
    requires numDof > 0 && Separated(S + {x}, numDof) && forall a :: a in S ==> a < x
    ensures forall y :: y in Canonical(S, numDof) ==> y < x
  {
    SeparatedSubset(S + {x}, S, numDof);
    CanonicalFacts(S, numDof);
    forall y | y in Canonical(S, numDof) ensures y < x {
      var a :| a in S && a <= y < a + numDof;
      assert a in S + {x} && x in S + {x};
    }
  }
}
