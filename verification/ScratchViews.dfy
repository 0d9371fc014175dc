/** Scratch views: counting the views a list of fields needs, creating them, and finding them again by field ordinal. */
module ScratchViews {

  datatype Rank = Node | Edge | Face | Elem | Other

  datatype FieldInfo = FieldInfo(rank: Rank, ordinal: nat, scalarsDim1: nat, scalarsDim2: nat)

  const MAX_VIEWS_PER_DIM := 25
  const MAX_FIELD_ORDINALS := 256

  /** The shape of the view a field gets; its length is the view's dimension. */
  function ShapeOf(f: FieldInfo, nodesPerEntity: nat): (shape: seq<nat>)
    ensures f.rank != Other ==> 1 <= |shape| <= 3
  {
    match f.rank
    case Other => []
    case Node =>
      if f.scalarsDim2 == 0
      then if f.scalarsDim1 == 1 then [nodesPerEntity] else [nodesPerEntity, f.scalarsDim1]
      else [nodesPerEntity, f.scalarsDim1, f.scalarsDim2]
    case _ => if f.scalarsDim2 == 0 then [f.scalarsDim1] else [f.scalarsDim1, f.scalarsDim2]
  }

  /** The extents of a view: the number of nodes first, for a node field and for no other, then the field's scalar
      counts, of which a node field with a single scalar has none. */
  predicate Extents(f: FieldInfo, nodesPerEntity: nat, shape: seq<nat>) {
    && (f.rank == Node ==> |shape| >= 1 && shape[0] == nodesPerEntity)
    && var scalars := if f.rank == Node && |shape| >= 1 then shape[1..] else shape;
       && (scalars == [] <==> f.rank == Node && f.scalarsDim1 == 1 && f.scalarsDim2 == 0)
       && (scalars != [] ==> scalars[0] == f.scalarsDim1)
       && (|scalars| == 2 <==> f.scalarsDim2 != 0) && |scalars| <= 2 && (|scalars| == 2 ==> scalars[1] == f.scalarsDim2)
  }

  lemma ShapeExtents(f: FieldInfo, nodesPerEntity: nat)
    requires f.rank != Other
    ensures Extents(f, nodesPerEntity, ShapeOf(f, nodesPerEntity))
  {}

  function SizeOf(shape: seq<nat>): nat { if shape == [] then 1 else SizeOf(shape[..|shape| - 1]) * shape[|shape| - 1] }

  /** The dimension does not depend on the number of nodes. */
  function DimOf(f: FieldInfo): nat { |ShapeOf(f, 0)| }

  lemma DimIs(f: FieldInfo, nodesPerEntity: nat)
    ensures |ShapeOf(f, nodesPerEntity)| == DimOf(f)
  {}

  /** The shapes of the fields of one dimension, in order. */
  ghost function ShapesOf(fields: seq<FieldInfo>, dim: nat, nodesPerEntity: nat): seq<seq<nat>> {
    if fields == [] then []
    else
      var last := fields[|fields| - 1];
      ShapesOf(fields[..|fields| - 1], dim, nodesPerEntity)
        + if DimOf(last) == dim then [ShapeOf(last, nodesPerEntity)] else []
  }

  ghost function CountOf(fields: seq<FieldInfo>, dim: nat): nat { |ShapesOf(fields, dim, 0)| }

  /** Where the view of field i goes: after the views of the earlier fields of its dimension. */
  ghost function Slot(fields: seq<FieldInfo>, i: nat): nat
    requires i < |fields|
  {
    CountOf(fields[..i], DimOf(fields[i]))
  }

  ghost predicate KnownRanks(fields: seq<FieldInfo>) { forall i :: 0 <= i < |fields| ==> fields[i].rank != Other }

  lemma NextField(fields: seq<FieldInfo>, i: nat, dim: nat, nodesPerEntity: nat)
    requires i < |fields|
    ensures ShapesOf(fields[..i + 1], dim, nodesPerEntity)
            == ShapesOf(fields[..i], dim, nodesPerEntity) + if DimOf(fields[i]) ==
                dim then [ShapeOf(fields[i], nodesPerEntity)] else []
  {
    assert fields[..i + 1][..i] == fields[..i];
  }

  lemma {:induction false} CountAnySize(fields: seq<FieldInfo>, dim: nat, nodesPerEntity: nat)
    ensures |ShapesOf(fields, dim, nodesPerEntity)| == CountOf(fields, dim)
  {
    if fields != [] { CountAnySize(fields[..|fields| - 1], dim, nodesPerEntity); }
  }

  datatype NumNeededViews = NumNeededViews(num1DViews: nat, num2DViews: nat, num3DViews: nat, num4DViews: nat)

  /** count_needed_field_views; a field of unknown rank is an error. */
  method CountNeededFieldViews(fields: seq<FieldInfo>) returns (ok: bool, n: NumNeededViews)
    ensures ok <==> KnownRanks(fields)
    ensures ok ==> n == NumNeededViews(CountOf(fields, 1), CountOf(fields, 2), CountOf(fields, 3), 0)
  {
    n := NumNeededViews(0, 0, 0, 0);
    for i := 0 to |fields|
      invariant KnownRanks(fields[..i])
      invariant n == NumNeededViews(CountOf(fields[..i], 1), CountOf(fields[..i], 2), CountOf(fields[..i], 3), 0)
    {
      NextField(fields, i, 1, 0);
      NextField(fields, i, 2, 0);
      NextField(fields, i, 3, 0);
      var f := fields[i];
      match f.rank {
        case Other =>
          return false, n;
        case Node =>
          if f.scalarsDim2 == 0 {
            if f.scalarsDim1 == 1 {
              n := n.(num1DViews := n.num1DViews + 1);
            } else {
              n := n.(num2DViews := n.num2DViews + 1);
            }
          } else {
            n := n.(num3DViews := n.num3DViews + 1);
          }
        case _ =>
          if f.scalarsDim2 == 0 {
            n := n.(num1DViews := n.num1DViews + 1);
          } else {
            n := n.(num2DViews := n.num2DViews + 1);
          }
      }
    }
    assert fields[..|fields|] == fields;
    ok := true;
  }

  /** The test in the constructor of MultiDimViews. */
  predicate Accepted(n: NumNeededViews) {
    || n.num1DViews <= MAX_VIEWS_PER_DIM || n.num2DViews <= MAX_VIEWS_PER_DIM
    || n.num3DViews <= MAX_VIEWS_PER_DIM || n.num4DViews <= MAX_VIEWS_PER_DIM
  }

  /** Each of the three counts is within the maximum. */
  ghost predicate CountsFit(fields: seq<FieldInfo>) {
    forall d :: 1 <= d <= 3 ==> CountOf(fields, d) <= MAX_VIEWS_PER_DIM
  }

  /** Every field's slot lies within the view array of its dimension. */
  ghost predicate SlotsFit(fields: seq<FieldInfo>) {
    forall i :: 0 <= i < |fields| ==> SlotFits(fields, i)
  }

  ghost predicate SlotFits(fields: seq<FieldInfo>, i: nat) { i < |fields| && Slot(fields, i) < MAX_VIEWS_PER_DIM }

  /** The slots fit exactly when each of the three counts stays within the maximum. The constructor's test asks this of
      at least one of four counts, and the fourth is always zero, so it accepts every counted request. */
  lemma {:induction false} SlotsFitIff(fields: seq<FieldInfo>)
    requires KnownRanks(fields)
    ensures SlotsFit(fields) <==> CountsFit(fields)
    ensures Accepted(NumNeededViews(CountOf(fields, 1), CountOf(fields, 2), CountOf(fields, 3), 0))
  {
    if fields != [] {
      var k := |fields| - 1;
      var rest := fields[..k];
      SlotsFitIff(rest);
      forall i | 0 <= i < k ensures SlotFits(fields, i) == SlotFits(rest, i) {
        assert fields[..i] == rest[..i];
      }
      forall d ensures CountOf(fields, d) == CountOf(rest, d) + if DimOf(fields[k]) == d then 1 else 0 {
        NextField(fields, k, d, 0);
        assert fields[..k + 1] == fields;
      }
      assert SlotFits(fields, k) <==> CountOf(rest, DimOf(fields[k])) < MAX_VIEWS_PER_DIM;
    }
  }

  /** Requests the test accepts: n element fields of one scalar each, of which the slots fit up to n = 25 only. */
  lemma TooManyAccepted(fields: seq<FieldInfo>, n: nat)
    requires fields == seq(n, i requires 0 <= i => FieldInfo(Elem, i, 1, 0))
    ensures Accepted(NumNeededViews(CountOf(fields, 1), CountOf(fields, 2), CountOf(fields, 3), 0))
    ensures SlotsFit(fields) <==> n <= 25
  {
    AllOneD(fields, n);
    assert fields[..n] == fields;
    NoneElse(fields, 2);
    NoneElse(fields, 3);
    SlotsFitIff(fields);
  }

  lemma {:induction false} NoneElse(fields: seq<FieldInfo>, dim: nat)
    requires dim != 1 && forall i :: 0 <= i < |fields| ==> DimOf(fields[i]) == 1
    ensures CountOf(fields, dim) == 0
  {
    if fields != [] { NoneElse(fields[..|fields| - 1], dim); }
  }

  lemma {:induction false} AllOneD(fields: seq<FieldInfo>, n: nat)
    requires n <= |fields| && forall i :: 0 <= i < |fields| ==> DimOf(fields[i]) == 1
    ensures CountOf(fields[..n], 1) == n
  {
    if n > 0 {
      AllOneD(fields, n - 1);
      NextField(fields, n - 1, 1, 0);
    }
  }

  class MultiDimViews {
    /** For each field ordinal, the slot of its view. */
    var indices: seq<nat>
    /** The views added so far, by dimension. */
    var views: seq<seq<seq<nat>>>

    ghost predicate Sized() reads this { |indices| == MAX_FIELD_ORDINALS && |views| == 5 }

    constructor ()
      ensures Sized() && forall d :: 0 <= d < 5 ==> views[d] == []
    {
      indices := seq(MAX_FIELD_ORDINALS, _ => 0);
      views := [[], [], [], [], []];
    }

    /** add_1D_view to add_4D_view: the view goes to the next slot of its dimension, remembered under the ordinal; an
        ordinal out of range is an error. */
    method AddView(ordinal: nat, shape: seq<nat>) returns (ok: bool)
      requires Sized() && 1 <= |shape| <= 4
      modifies this
      ensures Sized() && (ok <==> ordinal < 256)
      ensures ok ==> views == old(views)[|shape| := old(views)[|shape|] + [shape]]
                     && indices == old(indices)[ordinal := |old(views)[|shape|]|]
      ensures !ok ==> views == old(views) && indices == old(indices)
    {
      if ordinal >= MAX_FIELD_ORDINALS {
        return false;
      }
      var d := |shape|;
      indices := indices[ordinal := |views[d]|];
      views := views[d := views[d] + [shape]];
      ok := true;
    }

    /** get_scratch_view_kD. */
    method GetScratchView(dim: nat, ordinal: nat) returns (shape: seq<nat>)
      requires Sized() && dim < 5 && ordinal < MAX_FIELD_ORDINALS
      requires indices[ordinal] < |views[dim]| && indices[ordinal] < MAX_VIEWS_PER_DIM
      ensures shape == views[dim][indices[ordinal]]
    {
      shape := views[dim][indices[ordinal]];
    }

    /** Every view lies within the fixed array of its dimension. */
    ghost predicate WithinCapacity()
      requires Sized()
      reads this
    {
      forall d :: 1 <= d <= 3 ==> |views[d]| <= MAX_VIEWS_PER_DIM
    }

    /** The first i fields have their views, in order, and an ordinal remembers the slot of the latest field with it. */
    ghost predicate Created(fields: seq<FieldInfo>, i: nat, nodesPerEntity: nat)
      reads this
    {
      && Sized() && i <= |fields|
      && (forall d :: 1 <= d <= 3 ==> views[d] == ShapesOf(fields[..i], d, nodesPerEntity))
      && (forall k :: 0 <= k < i ==>
            && fields[k].ordinal < MAX_FIELD_ORDINALS
            && indices[fields[k].ordinal] == Slot(fields, Latest(fields, k, i)))
    }
  }

  /** The last of the first n fields that has the ordinal of field k. */
  ghost function Latest(fields: seq<FieldInfo>, k: nat, n: nat): (j: nat)
    requires k < n <= |fields|
    ensures k <= j < n && fields[j].ordinal == fields[k].ordinal
    ensures forall i :: j < i < n ==> fields[i].ordinal != fields[k].ordinal
  {
    if fields[n - 1].ordinal == fields[k].ordinal then n - 1 else Latest(fields, k, n - 1)
  }

  /** The sizes of all requested views together. */
  ghost function TotalSize(fields: seq<FieldInfo>, nodesPerEntity: nat): nat {
    if fields == [] then 0
    else TotalSize(fields[..|fields| - 1], nodesPerEntity) + SizeOf(ShapeOf(fields[|fields| - 1], nodesPerEntity))
  }

  ghost function SizeSum(shapes: seq<seq<nat>>): nat {
    if shapes == [] then 0 else SizeSum(shapes[..|shapes| - 1]) + SizeOf(shapes[|shapes| - 1])
  }

  lemma SizeSumAppend(shapes: seq<seq<nat>>, shape: seq<nat>)
    ensures SizeSum(shapes + [shape]) == SizeSum(shapes) + SizeOf(shape) && shapes + [] == shapes
  {
    assert (shapes + [shape])[..|shapes|] == shapes;
  }

  /** That total is the size of the views of the three dimensions together. */
  lemma {:induction false} ViewsTotal(fields: seq<FieldInfo>, nodesPerEntity: nat)
    requires KnownRanks(fields)
    ensures TotalSize(fields, nodesPerEntity)
            == SizeSum(ShapesOf(fields, 1, nodesPerEntity)) + SizeSum(ShapesOf(fields, 2, nodesPerEntity))
               + SizeSum(ShapesOf(fields, 3, nodesPerEntity))
  {
    if fields != [] {
      var rest, shape := fields[..|fields| - 1], ShapeOf(fields[|fields| - 1], nodesPerEntity);
      ViewsTotal(rest, nodesPerEntity);
      DimIs(fields[|fields| - 1], nodesPerEntity);
      SizeSumAppend(ShapesOf(rest, 1, nodesPerEntity), shape);
      SizeSumAppend(ShapesOf(rest, 2, nodesPerEntity), shape);
      SizeSumAppend(ShapesOf(rest, 3, nodesPerEntity), shape);
    }
  }

  /** create_needed_field_views: views in every dimension as counted, slots under the ordinals, and the total of the
      scalars they hold. It fails exactly on an unknown rank or an ordinal out of range, and it writes within the arrays
      exactly when each count is within the maximum. */
  method CreateNeededFieldViews(fields: seq<FieldInfo>, nodesPerEntity: nat, fieldViews: MultiDimViews)
    returns (ok: bool, numScalars: nat)
    requires fieldViews.Sized() && (forall d :: 1 <= d <= 3 ==> fieldViews.views[d] == [])
    modifies fieldViews
    ensures ok <==> AllUsable(fields, |fields|)
    ensures ok ==> fieldViews.Created(fields, |fields|, nodesPerEntity)
    ensures ok ==> numScalars == TotalSize(fields, nodesPerEntity)
    ensures ok ==> (fieldViews.WithinCapacity() <==> CountsFit(fields))
  {
    numScalars := 0;
    for i := 0 to |fields|
      invariant fieldViews.Created(fields, i, nodesPerEntity) && numScalars == TotalSize(fields[..i], nodesPerEntity)
      invariant AllUsable(fields, i)
    {
      if fields[i].rank == Other {
        assert !Usable(fields[i]);
        return false, numScalars;
      }
      var added := CreateView(fields, i, nodesPerEntity, fieldViews);
      if !added {
        assert !Usable(fields[i]);
        return false, numScalars;
      }
      NextSize(fields, i, nodesPerEntity);
      numScalars := numScalars + SizeOf(ShapeOf(fields[i], nodesPerEntity));
    }
    assert fields[..|fields|] == fields;
    CapacityIff(fieldViews, fields, nodesPerEntity);
    ok := true;
  }

  lemma CapacityIff(fieldViews: MultiDimViews, fields: seq<FieldInfo>, nodesPerEntity: nat)
    requires fieldViews.Created(fields, |fields|, nodesPerEntity) && KnownRanks(fields)
    ensures fieldViews.WithinCapacity() <==> CountsFit(fields)
  {
    assert fields[..|fields|] == fields;
    forall d | 1 <= d <= 3 ensures |fieldViews.views[d]| == CountOf(fields, d) {
      CountAnySize(fields, d, nodesPerEntity);
    }
  }

  predicate AllUsable(fields: seq<FieldInfo>, n: nat)
    requires n <= |fields|
  {
    forall i :: 0 <= i < n ==> Usable(fields[i])
  }

  predicate Usable(f: FieldInfo) { f.rank != Other && f.ordinal < MAX_FIELD_ORDINALS }

  lemma NextSize(fields: seq<FieldInfo>, i: nat, nodesPerEntity: nat)
    requires i < |fields|
    ensures TotalSize(fields[..i + 1], nodesPerEntity)
            == TotalSize(fields[..i], nodesPerEntity) + SizeOf(ShapeOf(fields[i], nodesPerEntity))
  {
    assert fields[..i + 1][..i] == fields[..i];
  }

  /** The view of one field. */
  method CreateView(fields: seq<FieldInfo>, i: nat, nodesPerEntity: nat, fieldViews: MultiDimViews) returns (ok: bool)
    requires i < |fields| && fields[i].rank != Other
    requires fieldViews.Created(fields, i, nodesPerEntity)
    modifies fieldViews
    ensures ok <==> fields[i].ordinal < MAX_FIELD_ORDINALS
    ensures ok ==> fieldViews.Created(fields, i + 1, nodesPerEntity)
  {
    var shape := ShapeOf(fields[i], nodesPerEntity);
    DimIs(fields[i], nodesPerEntity);
    CountAnySize(fields[..i], |shape|, nodesPerEntity);
    ok := fieldViews.AddView(fields[i].ordinal, shape);
    forall d | 1 <= d <= 3 && ok ensures fieldViews.views[d] == ShapesOf(fields[..i + 1], d, nodesPerEntity) {
      NextField(fields, i, d, nodesPerEntity);
    }
  }

  /** The slot of a field holds the shape it asked for. */
  lemma {:induction false} SlotHolds(fields: seq<FieldInfo>, i: nat, n: nat, nodesPerEntity: nat)
    requires i < n <= |fields|
    ensures Slot(fields, i) < |ShapesOf(fields[..n], DimOf(fields[i]), nodesPerEntity)|
    ensures ShapesOf(fields[..n], DimOf(fields[i]), nodesPerEntity)[Slot(fields, i)] ==
      ShapeOf(fields[i], nodesPerEntity)
    decreases n
  {
    NextField(fields, n - 1, DimOf(fields[i]), nodesPerEntity);
    if i == n - 1 {
      CountAnySize(fields[..i], DimOf(fields[i]), nodesPerEntity);
    } else {
      SlotHolds(fields, i, n - 1, nodesPerEntity);
    }
  }

  lemma LatestFound(fields: seq<FieldInfo>, i: nat, nodesPerEntity: nat, fieldViews: MultiDimViews)
    requires i < |fields| && KnownRanks(fields) && fieldViews.Created(fields, |fields|, nodesPerEntity)
    requires CountsFit(fields) && DimOf(fields[Latest(fields, i, |fields|)]) == DimOf(fields[i])
    ensures var slot := fieldViews.indices[fields[i].ordinal];
      && slot < |fieldViews.views[DimOf(fields[i])]| && slot < MAX_VIEWS_PER_DIM
      && fieldViews.views[DimOf(fields[i])][slot] == ShapeOf(fields[Latest(fields, i, |fields|)], nodesPerEntity)
  {
    var j := Latest(fields, i, |fields|);
    SlotFound(fields, j, nodesPerEntity);
    assert fields[..|fields|] == fields;
  }

  lemma SlotFound(fields: seq<FieldInfo>, j: nat, nodesPerEntity: nat)
    requires j < |fields| && KnownRanks(fields) && CountsFit(fields)
    ensures var views := ShapesOf(fields, DimOf(fields[j]), nodesPerEntity);
      && Slot(fields, j) < |views| && Slot(fields, j) < MAX_VIEWS_PER_DIM
      && views[Slot(fields, j)] == ShapeOf(fields[j], nodesPerEntity)
  {
    SlotHolds(fields, j, |fields|, nodesPerEntity);
    SlotsFitIff(fields);
    assert SlotFits(fields, j);
    assert fields[..|fields|] == fields;
  }

  /** Looking up a field of a request that fits finds the view of the latest field with its ordinal, if that has its
      dimension: a view of the shape asked for, exactly if the latest field asks for the same. */
  method LookUp(fields: seq<FieldInfo>, i: nat, nodesPerEntity: nat, fieldViews: MultiDimViews)
      returns (shape: seq<nat>)
    requires i < |fields| && KnownRanks(fields) && fieldViews.Created(fields, |fields|, nodesPerEntity)
    requires CountsFit(fields) && DimOf(fields[Latest(fields, i, |fields|)]) == DimOf(fields[i])
    ensures shape == ShapeOf(fields[Latest(fields, i, |fields|)], nodesPerEntity)
    ensures Extents(fields[Latest(fields, i, |fields|)], nodesPerEntity, shape)
    ensures (forall k :: i < k < |fields| ==> fields[k].ordinal != fields[i].ordinal) ==>
              shape == ShapeOf(fields[i], nodesPerEntity)
  {
    LatestFound(fields, i, nodesPerEntity, fieldViews);
    ShapeExtents(fields[Latest(fields, i, |fields|)], nodesPerEntity);
    shape := fieldViews.GetScratchView(DimOf(fields[i]), fields[i].ordinal);
  }
}
