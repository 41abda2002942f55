// The loops of Tarea3/type_manager.py that compute layouts: the struct
// walk of `_compute_layout`, the size sum of `StructType.layout_packed` and
// the maxima of `UnionType._max_size_and_alignment_unpacked`, with the
// `layout_*` methods of each type class dispatching to them. Each method
// is proved to compute the layout function of module Layout.

module LayoutAlgorithms {
  import opened Bits
  import opened Layout
  import opened LayoutProperties

  /** `layout_unpacked()` of an atomic type, a struct or a union. */
  method LayoutUnpacked(t: TypeInfo) returns (info: LayoutInfo)
    ensures info == Unpacked(t)
    decreases t, 2
  {
    match t
    case Atomic(_, size, align) =>
      info := LayoutInfo(size, align, 0, 0, 0);
    case Struct(_, _) =>
      info := ComputeLayout(t, false);
    case Union(_, _) =>
      var maxSize, maxAlign := MaxSizeAndAlignment(t);
      var finalSize := AlignUp(maxSize, maxAlign);
      var wasted := finalSize - maxSize;
      info := LayoutInfo(finalSize, maxAlign, wasted, 0, wasted);
  }

  /** `layout_packed()`: a struct sums its fields' unpacked sizes. */
  method LayoutPacked(t: TypeInfo) returns (info: LayoutInfo)
    ensures info == Packed(t)
    decreases t, 2
  {
    match t
    case Atomic(_, size, _) =>
      info := LayoutInfo(size, 1, 0, 0, 0);
    case Struct(_, fields) =>
      var totalSize := 0;
      var i := 0;
      while i < |fields|
        invariant 0 <= i <= |fields|
        invariant totalSize == SumSizes(MemberDims(t)[..i])
      {
        var lu := LayoutUnpacked(fields[i]);
        assert MemberDims(t)[..i + 1] == MemberDims(t)[..i] + [DimOf(lu)];
        totalSize := totalSize + lu.size;
        i := i + 1;
      }
      assert MemberDims(t)[..|fields|] == MemberDims(t);
      info := LayoutInfo(totalSize, 1, 0, 0, 0);
    case Union(_, _) =>
      var maxSize, _ := MaxSizeAndAlignment(t);
      info := LayoutInfo(maxSize, 1, 0, 0, 0);
  }

  /** `layout_optimal()`: only a struct reorders its fields. */
  method LayoutOptimal(t: TypeInfo) returns (info: LayoutInfo)
    ensures info == Optimal(t)
    decreases t, 3
  {
    match t
    case Atomic(_, _, _) =>
      info := LayoutUnpacked(t);
    case Struct(_, _) =>
      info := ComputeLayout(t, true);
    case Union(_, _) =>
      info := LayoutUnpacked(t);
  }

  /** `StructType._compute_layout(field_alignments=None, reorder)`: choose
      the visiting order (declaration order, or stably sorted by descending
      alignment), take the struct alignment as the largest field alignment,
      place each field at its offset rounded up to its alignment while
      summing the padding, and pad the end to the struct alignment. */
  method ComputeLayout(t: TypeInfo, reorder: bool) returns (info: LayoutInfo)
    requires t.Struct?
    ensures info == if reorder then Optimal(t) else Unpacked(t)
    decreases t, 1
  {
    ghost var vis := VisitDims(t, reorder);
    var order := FieldOrder(t, reorder);
    var structAlignment := StructAlignment(t);
    var offset, internalPadding := PlaceFields(t, order, vis);
    var finalSize := AlignUp(offset, structAlignment);
    var finalPadding := finalSize - offset;
    info := LayoutInfo(finalSize, structAlignment, internalPadding + finalPadding, internalPadding, finalPadding);
    StructLayoutArranges(t, reorder);
  }

  /** Both struct layouts arrange the fields in the visiting order. */
  lemma StructLayoutArranges(t: TypeInfo, reorder: bool)
    requires t.Struct?
    ensures (if reorder then Optimal(t) else Unpacked(t)) == Arrange(VisitDims(t, reorder), StructAlign(MemberDims(t)))
  {
  }

  /** The placement loop of `_compute_layout`: visit the fields in `order`,
      round the running offset up to each field's alignment, add the padding
      this inserts, and advance past the field. */
  method PlaceFields(t: TypeInfo, order: seq<int>, ghost vis: seq<Dim>)
    returns (offset: int, internalPadding: int)
    requires t.Struct?
    requires |order| == |vis|
    requires forall k :: 0 <= k < |order| ==>
      0 <= order[k] < |t.fields| && vis[k] == MemberDims(t)[order[k]]
    ensures Placement(offset, internalPadding) == Place(vis)
    decreases t, 0
  {
    var fields := t.fields;
    offset, internalPadding := 0, 0;
    var k := 0;
    while k < |order|
      invariant 0 <= k <= |order|
      invariant Placement(offset, internalPadding) == Place(vis[..k])
    {
      var idx := order[k];
      var lu := LayoutUnpacked(fields[idx]);
      MemberDimsAt(t, idx);
      var align := lu.alignment;
      var size := lu.size;
      var alignedOffset := AlignUp(offset, align);
      internalPadding := internalPadding + (alignedOffset - offset);
      offset := alignedOffset + size;
      assert vis[..k + 1] == vis[..k] + [vis[k]];
      PlaceSnoc(vis[..k], vis[k]);
      k := k + 1;
    }
    assert vis[..k] == vis;
  }

  /** The fields' dimensions in the order `_compute_layout` visits them. */
  ghost function VisitDims(t: TypeInfo, reorder: bool): seq<Dim>
  {
    if reorder then OptimalVisit(MemberDims(t)) else MemberDims(t)
  }

  /** The visiting order of `_compute_layout`: `list(range(n))`, or the
      indices of the (index, field) pairs after Python's stable
      `sort(key=unpacked alignment, reverse=True)`. */
  method FieldOrder(t: TypeInfo, reorder: bool) returns (order: seq<int>)
    requires t.Struct?
    ensures |order| == |VisitDims(t, reorder)| == |t.fields|
    ensures forall k :: 0 <= k < |order| ==>
      0 <= order[k] < |t.fields| && VisitDims(t, reorder)[k] == MemberDims(t)[order[k]]
  {
    var n := |t.fields|;
    if reorder {
      SortedSlotsAreFields(MemberDims(t));
      order := IndicesOf(SortByAlign(Enumerate(MemberDims(t))));
    } else {
      order := seq(n, i => i);
    }
  }

  /** The struct alignment of `_compute_layout`: the unpacked alignment of
      every field is collected, and the largest is taken (1 if none). */
  method StructAlignment(t: TypeInfo) returns (structAlignment: int)
    requires t.Struct?
    ensures structAlignment == StructAlign(MemberDims(t))
    decreases t, 0
  {
    var fields := t.fields;
    var n := |fields|;
    var fieldAlignValues: seq<int> := [];
    var i := 0;
    while i < n
      invariant 0 <= i <= n
      invariant |fieldAlignValues| == i
      invariant forall k :: 0 <= k < i ==> fieldAlignValues[k] == MemberDims(t)[k].align
    {
      var lu := LayoutUnpacked(fields[i]);
      fieldAlignValues := fieldAlignValues + [lu.alignment];
      i := i + 1;
    }
    assert fieldAlignValues == AlignsOf(MemberDims(t));
    structAlignment := if |fieldAlignValues| > 0 then MaxOf(fieldAlignValues) else 1;
  }

  /** `UnionType._max_size_and_alignment_unpacked`: the largest unpacked
      size and alignment over the options, starting from 0 and 1. */
  method MaxSizeAndAlignment(t: TypeInfo) returns (maxSize: int, maxAlign: int)
    requires !t.Atomic?
    ensures (maxSize, maxAlign) == MaxSizeAlign(MemberDims(t))
    decreases t, 0
  {
    var options := Members(t);
    maxSize, maxAlign := 0, 1;
    var i := 0;
    while i < |options|
      invariant 0 <= i <= |options|
      invariant (maxSize, maxAlign) == MaxSizeAlign(MemberDims(t)[..i])
    {
      var lu := LayoutUnpacked(options[i]);
      assert MemberDims(t)[..i + 1][..i] == MemberDims(t)[..i];
      maxSize := Max(maxSize, lu.size);
      maxAlign := Max(maxAlign, lu.alignment);
      i := i + 1;
    }
    assert MemberDims(t)[..|options|] == MemberDims(t);
  }
}
