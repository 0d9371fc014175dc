/** The element and face pipelines: interleave a batch, run the kernels once on all lanes, extract, relax, apply. They
    apply exactly what a plain loop over the entities would. An entity's data is one vector, its views one after
    another. */
module SimdPipeline {
  import opened Arithmetic
  import opened Offsets
  import opened SimdGroups
  import opened SimdLanes

  datatype Local = Local(lhs: seq<real>, rhs: seq<real>)
  datatype Wide = Wide(lhs: seq<seq<real>>, rhs: seq<seq<real>>)

  /** What is handed to the coefficient applier for one entity. */
  datatype Application<Entity> = Application(entity: Entity, lhs: seq<real>, rhs: seq<real>)

  /** A kernel adds to the left- and right-hand sides, given the entity's data and face ordinal. */
  type Kernel = (Local, seq<real>, nat) -> Local
  type SimdKernel = (Wide, seq<seq<real>>, nat) -> Wide

  ghost predicate WideSized(w: Wide, n: nat, nn: nat, simdLen: nat) {
    Sized(w.lhs, nn, simdLen) && Sized(w.rhs, n, simdLen)
  }

  ghost function LaneOf(w: Wide, k: nat): Local
    requires forall i :: 0 <= i < |w.lhs| ==> k < |w.lhs[i]|
    requires forall i :: 0 <= i < |w.rhs| ==> k < |w.rhs[i]|
  {
    Local(Lane(w.lhs, k), Lane(w.rhs, k))
  }

  /** The SIMD kernel does in every lane what the kernel does. */
  ghost predicate LaneWise(simd: SimdKernel, kernel: Kernel, n: nat, nn: nat, dim: nat, simdLen: nat) {
    forall w: Wide, d: seq<seq<real>>, o: nat :: WideSized(w, n, nn, simdLen) && Sized(d, dim, simdLen) ==>
      && WideSized(simd(w, d, o), n, nn, simdLen)
      && forall k :: 0 <= k < simdLen ==> LaneOf(simd(w, d, o), k) == kernel(LaneOf(w, k), Lane(d, k), o)
  }

  /** The kernels one after another on one entity. */
  function RunKernels(kernels: seq<Kernel>, data: seq<real>, ordinal: nat, start: Local): Local {
    if kernels == [] then start
    else kernels[|kernels| - 1](RunKernels(kernels[..|kernels| - 1], data, ordinal, start), data, ordinal)
  }

  /** The kernels run once each and in order: a list after a list is the second on what the first left, and a single
      kernel is itself. */
  lemma {:induction false} KernelsInOrder(a: seq<Kernel>, b: seq<Kernel>, data: seq<real>, ordinal: nat, start: Local)
    ensures RunKernels(a + b, data, ordinal, start) == RunKernels(b, data, ordinal, RunKernels(a, data, ordinal, start))
    ensures |b| == 1 ==> RunKernels(b, data, ordinal, start) == b[0](start, data, ordinal)
    decreases |b|
  {
    if b == [] {
      assert a + b == a;
    } else {
      var n := |b| - 1;
      KernelsInOrder(a, b[..n], data, ordinal, start);
      assert (a + b)[..|a| + n] == a + b[..n] && (a + b)[|a| + n] == b[n];
    }
  }

  predicate OnDiagonal(n: nat, i: nat) { i % (n + 1) == 0 }

  /** The diagonal entries of an n by n matrix stored by rows lie n + 1 apart. */
  function Relaxed(lhs: seq<real>, n: nat, factor: real): seq<real>
    requires factor != 0.0
  {
    seq(|lhs|, i requires 0 <= i < |lhs| => if OnDiagonal(n, i) then lhs[i] / factor else lhs[i])
  }

  /** Entry (r, c) is divided exactly on the diagonal. */
  lemma RelaxedEntry(lhs: seq<real>, n: nat, factor: real, r: nat, c: nat)
    requires factor != 0.0 && r < n && c < n && |lhs| == n * n && r * n + c < |lhs|
    ensures Relaxed(lhs, n, factor)[r * n + c] == if r == c then lhs[r * n + c] / factor else lhs[r * n + c]
  {
    DiagonalIndex(n, r, c);
  }

  lemma DiagonalIndex(n: nat, r: nat, c: nat)
    requires r < n && c < n
    ensures (r * n + c) % (n + 1) == 0 <==> r == c
  {
    if c >= r {
      assert r * n + c == (n + 1) * r + (c - r);
      ModOf(n + 1, r, c - r);
    } else {
      assert r * n + c == (n + 1) * (r - 1) + (n + 1 + c - r);
      ModOf(n + 1, r - 1, n + 1 + c - r);
    }
  }

  /** lhs(ir, ir) /= diagRelaxFactor. */
  method RelaxDiagonal(lhs: array<real>, n: nat, factor: real)
    requires factor != 0.0 && lhs.Length == n * n
    modifies lhs
    ensures lhs[..] == Relaxed(old(lhs[..]), n, factor)
  {
    ghost var was, at := lhs[..], 0;
    for ir := 0 to n
      invariant at == ir * (n + 1)
      invariant forall i :: 0 <= i < lhs.Length ==>
                  lhs[i] == if i < at && OnDiagonal(n, i) then was[i] / factor else was[i]
    {
      DiagonalPlace(n, ir);
      lhs[ir * n + ir] := lhs[ir * n + ir] / factor;
      at := at + n + 1;
    }
    PastTheEnd(n);
  }

  lemma PastTheEnd(n: nat)
    ensures n * n <= n * (n + 1)
  {}

  lemma DiagonalPlace(n: nat, ir: nat)
    requires ir < n
    ensures ir * n + ir == ir * (n + 1) < n * n && OnDiagonal(n, ir * (n + 1))
    ensures (ir + 1) * (n + 1) == ir * (n + 1) + n + 1
    ensures forall i :: ir * (n + 1) < i < ir * (n + 1) + n + 1 ==> !OnDiagonal(n, i)
  {
    DiagonalBound(n, ir);
    OneGroupStart(ir, n + 1);
    assert forall i :: OnDiagonal(n, i) == GroupStart(n + 1, i);
  }

  lemma DiagonalBound(n: nat, ir: nat)
    requires ir < n
    ensures ir * n + ir == ir * (n + 1) < n * n && (ir + 1) * (n + 1) == ir * (n + 1) + n + 1
  {
    TimesOrder(n, ir + 1, n);
  }

  /** A solver algorithm: sizes, relaxation factor, the data gathered for an entity, and the kernels in both forms. */
  datatype Setup<!Entity> = Setup(n: nat, nn: nat, dim: nat, simdLen: nat, factor: real,
                                  data: Entity -> seq<real>, kernels: seq<Kernel>, simdKernels: seq<SimdKernel>)

  ghost predicate Good<Entity(!new)>(s: Setup<Entity>) {
    && s.simdLen > 0 && s.factor != 0.0 && s.nn == s.n * s.n && |s.simdKernels| == |s.kernels|
    && (forall e: Entity :: |s.data(e)| == s.dim)
    && forall i :: 0 <= i < |s.kernels| ==> LaneWise(s.simdKernels[i], s.kernels[i], s.n, s.nn, s.dim, s.simdLen)
  }

  /** What a plain loop would apply for one entity. */
  function Contribution<Entity>(s: Setup<Entity>, e: Entity, ordinal: nat): Application<Entity>
    requires s.factor != 0.0
  {
    var r := RunKernels(s.kernels, s.data(e), ordinal, Local(Zeros(s.nn), Zeros(s.n)));
    Application(e, Relaxed(r.lhs, s.n, s.factor), r.rhs)
  }

  /** The kernels on all lanes, from zero. */
  method RunSimdKernels<Entity(!new)>(s: Setup<Entity>, d: seq<seq<real>>, ordinal: nat) returns (w: Wide)
    requires Good(s) && Sized(d, s.dim, s.simdLen)
    ensures WideSized(w, s.n, s.nn, s.simdLen)
    ensures forall k :: 0 <= k < s.simdLen ==>
              LaneOf(w, k) == RunKernels(s.kernels, Lane(d, k), ordinal, Local(Zeros(s.nn), Zeros(s.n)))
  {
    w := Wide(seq(s.nn, _ => Zeros(s.simdLen)), seq(s.n, _ => Zeros(s.simdLen)));
    ghost var zero := Local(Zeros(s.nn), Zeros(s.n));
    forall k | 0 <= k < s.simdLen ensures LaneOf(w, k) == zero {
      assert Lane(w.lhs, k) == Zeros(s.nn) && Lane(w.rhs, k) == Zeros(s.n);
    }
    for i := 0 to |s.simdKernels|
      invariant WideSized(w, s.n, s.nn, s.simdLen)
      invariant forall k :: 0 <= k < s.simdLen ==> LaneOf(w, k) == RunKernels(s.kernels[..i], Lane(d, k), ordinal, zero)
    {
      assert LaneWise(s.simdKernels[i], s.kernels[i], s.n, s.nn, s.dim, s.simdLen);
      assert s.kernels[..i + 1][..i] == s.kernels[..i];
      w := s.simdKernels[i](w, d, ordinal);
    }
    assert s.kernels[..|s.kernels|] == s.kernels;
  }

  /** One lane out of the wide result, relaxed and ready to apply. */
  method TakeLane<Entity(!new)>(s: Setup<Entity>, e: Entity, w: Wide, k: nat, lhs: array<real>, rhs: array<real>)
    returns (a: Application<Entity>)
    requires Good(s) && WideSized(w, s.n, s.nn, s.simdLen) && k < s.simdLen
    requires lhs.Length == s.nn && rhs.Length == s.n && lhs != rhs
    modifies lhs, rhs
    ensures a == Application(e, Relaxed(LaneOf(w, k).lhs, s.n, s.factor), LaneOf(w, k).rhs)
  {
    ExtractLane(w.rhs, k, rhs);
    ExtractLane(w.lhs, k, lhs);
    RelaxDiagonal(lhs, s.n, s.factor);
    a := Application(e, lhs[..], rhs[..]);
  }

  function GatherData<Entity>(s: Setup<Entity>, batch: seq<Entity>): seq<seq<real>> {
    seq(|batch|, k requires 0 <= k < |batch| => s.data(batch[k]))
  }

  /** The applications for the first p entities of a bucket, each with its own ordinal, in bucket order. */
  ghost predicate AppliedUpTo<Entity>(s: Setup<Entity>, bucket: seq<Entity>, ordinals: seq<nat>,
                                      applied: seq<Application<Entity>>, p: nat) {
    && s.factor != 0.0 && |applied| == p <= |bucket| == |ordinals|
    && forall k :: 0 <= k < p ==> applied[k] == Contribution(s, bucket[k], ordinals[k])
  }

  /** One batch of at most simdLen entities that share a face ordinal. The buffers are left over from earlier
      batches. */
  method ProcessBatch<Entity(!new)>(s: Setup<Entity>, batch: seq<Entity>, ordinal: nat, prereq: array<seq<real>>,
                                    lhs: array<real>, rhs: array<real>) returns (out: seq<Application<Entity>>)
    requires Good(s) && |batch| <= s.simdLen && prereq.Length == s.dim && Sized(prereq[..], s.dim, s.simdLen)
    requires lhs.Length == s.nn && rhs.Length == s.n && lhs != rhs
    modifies prereq, lhs, rhs
    ensures Sized(prereq[..], s.dim, s.simdLen)
    ensures |out| == |batch| && forall k :: 0 <= k < |batch| ==> out[k] == Contribution(s, batch[k], ordinal)
  {
    Interleave(prereq, GatherData(s, batch), |batch|, s.simdLen);
    var w := RunSimdKernels(s, prereq[..], ordinal);
    out := [];
    for k := 0 to |batch|
      invariant Sized(prereq[..], s.dim, s.simdLen)
      invariant |out| == k && forall j :: 0 <= j < k ==> out[j] == Contribution(s, batch[j], ordinal)
    {
      var a := TakeLane(s, batch[k], w, k, lhs, rhs);
      out := out + [a];
    }
  }

  /** A processed batch continues the sequence of applications. */
  lemma AppendBatch<Entity>(s: Setup<Entity>, bucket: seq<Entity>, ordinals: seq<nat>,
      applied: seq<Application<Entity>>,
                            p: nat, n: nat, ordinal: nat, out: seq<Application<Entity>>)
    requires AppliedUpTo(s, bucket, ordinals, applied, p) && p + n <= |bucket| && |out| == n
    requires forall k :: p <= k < p + n ==> ordinals[k] == ordinal
    requires forall k :: 0 <= k < n ==> out[k] == Contribution(s, bucket[p..p + n][k], ordinal)
    ensures AppliedUpTo(s, bucket, ordinals, applied + out, p + n)
  {
    forall k | p <= k < p + n ensures (applied + out)[k] == Contribution(s, bucket[k], ordinals[k]) {
      assert bucket[p..p + n][k - p] == bucket[k] && (applied + out)[k] == out[k - p];
    }
  }

  /** The face algorithm over one bucket: the same applications, in the same order, as a loop over the faces that gives
      the kernels each face's own ordinal. */
  method RunFaces<Entity(!new)>(s: Setup<Entity>, bucket: seq<Entity>, ordinals: seq<nat>)
    returns (applied: seq<Application<Entity>>)
    requires Good(s) && |bucket| == |ordinals|
    ensures AppliedUpTo(s, bucket, ordinals, applied, |bucket|)
  {
    var sizes := BatchBucket(ordinals, s.simdLen);
    var prereq, lhs, rhs := new seq<real>[s.dim](_ => Zeros(s.simdLen)), new real[s.nn], new real[s.n];
    applied := [];
    var p := 0;
    for b := 0 to |sizes|
      invariant p == PrefixSum(sizes, b) && fresh(prereq) && fresh(lhs) && fresh(rhs)
      invariant Sized(prereq[..], s.dim, s.simdLen) && AppliedUpTo(s, bucket, ordinals, applied, p)
    {
      assert BatchAt(ordinals, s.simdLen, sizes, b);
      var out := ProcessBatch(s, bucket[p..p + sizes[b]], ordinals[p], prereq, lhs, rhs);
      AppendBatch(s, bucket, ordinals, applied, p, sizes[b], ordinals[p], out);
      applied := applied + out;
      p := p + sizes[b];
    }
  }

  /** The element algorithm over one bucket: the groups themselves are the batches. */
  method RunElements<Entity(!new)>(s: Setup<Entity>, bucket: seq<Entity>, ghost ordinals: seq<nat>)
    returns (applied: seq<Application<Entity>>)
    requires Good(s) && |bucket| == |ordinals| && forall k :: 0 <= k < |ordinals| ==> ordinals[k] == 0
    ensures AppliedUpTo(s, bucket, ordinals, applied, |bucket|)
  {
    var prereq, lhs, rhs := new seq<real>[s.dim](_ => Zeros(s.simdLen)), new real[s.nn], new real[s.n];
    applied := [];
    var simdBucketLen := NumSimdGroups(|bucket|, s.simdLen);
    var p := 0;
    for g := 0 to simdBucketLen
      invariant p == (if g < simdBucketLen then g * s.simdLen else |bucket|) && fresh(prereq) && fresh(lhs)
      invariant fresh(rhs)
      invariant Sized(prereq[..], s.dim, s.simdLen) && AppliedUpTo(s, bucket, ordinals, applied, p)
    {
      var numSimdElems := LengthOfNextSimdGroup(g, |bucket|, s.simdLen);
      GroupSpan(g, |bucket|, s.simdLen);
      GroupEnd(g, |bucket|, s.simdLen);
      var out := ProcessBatch(s, bucket[p..p + numSimdElems], 0, prereq, lhs, rhs);
      AppendBatch(s, bucket, ordinals, applied, p, numSimdElems, 0, out);
      applied := applied + out;
      p := p + numSimdElems;
    }
  }
}
