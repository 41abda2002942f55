// What the layouts of module Layout guarantee: padding accounting, field
// placement, alignment maxima, the optimal order being a stable
// permutation, packed never larger than unpacked, and when reordering helps.

module LayoutProperties {
  import opened Bits
  import opened Layout

  // ---------------------------------------------------------------------
  // Struct placement

  /** Laying members out consumes their sizes plus the padding recorded. */
  lemma {:induction false} PlaceAccounts(vis: seq<Dim>)
    requires PositiveDims(vis)
    ensures Place(vis).end == SumSizes(vis) + Place(vis).internal
    ensures Place(vis).internal >= 0
  {
    if vis != [] {
      var init := vis[..|vis| - 1];
      PlaceAccounts(init);
      AlignUpSpec(Place(init).end, vis[|vis| - 1].align);
    }
  }

  /** Field k starts at the least multiple of its alignment that is at or
      after the end of field k - 1, so the padding before it is smaller than
      its alignment, and it ends `size` bytes later. */
  lemma FieldPlacement(vis: seq<Dim>, k: int)
    requires PositiveDims(vis) && 0 <= k < |vis|
    ensures FieldStart(vis, k) % vis[k].align == 0
    ensures Place(vis[..k]).end <= FieldStart(vis, k) < Place(vis[..k]).end + vis[k].align
    ensures Place(vis[..k + 1]).end == FieldStart(vis, k) + vis[k].size
    ensures Place(vis[..k + 1]).internal == Place(vis[..k]).internal + (FieldStart(vis, k) - Place(vis[..k]).end)
  {
    AlignUpSpec(Place(vis[..k]).end, vis[k].align);
    assert vis[..k + 1][..k] == vis[..k];
  }

  lemma {:induction false} SumSizesPositive(dims: seq<Dim>)
    requires PositiveDims(dims) && dims != []
    ensures SumSizes(dims) > 0
  {
    if |dims| > 1 {
      SumSizesPositive(dims[..|dims| - 1]);
    }
  }

  /** Struct layout accounting, for any visiting order: the size is the
      members' sizes plus internal and final padding, a multiple of the
      struct alignment, with final padding below that alignment. */
  lemma ArrangeAccounts(vis: seq<Dim>, structAlign: int)
    requires PositiveDims(vis) && structAlign > 0
    ensures Arrange(vis, structAlign).alignment == structAlign
    ensures Arrange(vis, structAlign).size % structAlign == 0
    ensures Arrange(vis, structAlign).size ==
      SumSizes(vis) + Arrange(vis, structAlign).internalPadding + Arrange(vis, structAlign).finalPadding
    ensures Arrange(vis, structAlign).wasted ==
      Arrange(vis, structAlign).internalPadding + Arrange(vis, structAlign).finalPadding
    ensures Arrange(vis, structAlign).internalPadding >= 0
    ensures 0 <= Arrange(vis, structAlign).finalPadding < structAlign
  {
    PlaceAccounts(vis);
    AlignUpSpec(Place(vis).end, structAlign);
  }

  /** `max` returns an element that no element exceeds. */
  lemma {:induction false} MaxOfIsMax(xs: seq<int>)
    requires xs != []
    ensures forall i :: 0 <= i < |xs| ==> xs[i] <= MaxOf(xs)
    ensures exists i :: 0 <= i < |xs| && xs[i] == MaxOf(xs)
  {
    if |xs| > 1 {
      var init := xs[..|xs| - 1];
      MaxOfIsMax(init);
      assert forall i :: 0 <= i < |init| ==> init[i] == xs[i];
      if MaxOf(init) < xs[|xs| - 1] {
        assert xs[|xs| - 1] == MaxOf(xs);
      } else {
        var i :| 0 <= i < |init| && init[i] == MaxOf(init);
        assert xs[i] == MaxOf(xs);
      }
    } else {
      assert xs[0] == MaxOf(xs);
    }
  }

  /** The struct alignment is the largest field alignment. */
  lemma StructAlignIsMax(dims: seq<Dim>)
    requires dims != []
    ensures forall i :: 0 <= i < |dims| ==> dims[i].align <= StructAlign(dims)
    ensures exists i :: 0 <= i < |dims| && dims[i].align == StructAlign(dims)
  {
    var aligns := AlignsOf(dims);
    MaxOfIsMax(aligns);
    assert forall i :: 0 <= i < |dims| ==> aligns[i] == dims[i].align;
    var i :| 0 <= i < |aligns| && aligns[i] == MaxOf(aligns);
    assert dims[i].align == StructAlign(dims);
  }

  // ---------------------------------------------------------------------
  // Union maxima

  /** max_size and max_align are the largest member size and alignment
      (max_align starting at 1, max_size at 0). */
  lemma {:induction false} MaxSizeAlignIsMax(dims: seq<Dim>)
    ensures MaxSizeAlign(dims).0 >= 0 && MaxSizeAlign(dims).1 >= 1
    ensures forall i :: 0 <= i < |dims| ==>
      dims[i].size <= MaxSizeAlign(dims).0 && dims[i].align <= MaxSizeAlign(dims).1
    ensures MaxSizeAlign(dims).0 == 0 || exists i :: 0 <= i < |dims| && dims[i].size == MaxSizeAlign(dims).0
    ensures MaxSizeAlign(dims).1 == 1 || exists i :: 0 <= i < |dims| && dims[i].align == MaxSizeAlign(dims).1
  {
    if dims != [] {
      var init := dims[..|dims| - 1];
      MaxSizeAlignIsMax(init);
      assert forall i :: 0 <= i < |init| ==> init[i] == dims[i];
      var last := |dims| - 1;
      if MaxSizeAlign(dims).0 != 0 && MaxSizeAlign(dims).0 != dims[last].size {
        var i :| 0 <= i < |init| && init[i].size == MaxSizeAlign(init).0;
        assert dims[i].size == MaxSizeAlign(dims).0;
      }
      if MaxSizeAlign(dims).1 != 1 && MaxSizeAlign(dims).1 != dims[last].align {
        var i :| 0 <= i < |init| && init[i].align == MaxSizeAlign(init).1;
        assert dims[i].align == MaxSizeAlign(dims).1;
      }
    }
  }

  // ---------------------------------------------------------------------
  // Every well-formed type

  /** Members of a well-formed composite have positive size and alignment. */
  lemma {:induction false} MemberDimsPositive(t: TypeInfo)
    requires WellFormed(t)
    ensures PositiveDims(MemberDims(t))
    decreases t, 0
  {
    var ms := Members(t);
    forall i | 0 <= i < |ms|
      ensures MemberDims(t)[i].size > 0 && MemberDims(t)[i].align > 0
    {
      MemberDimsAt(t, i);
      UnpackedWellFormed(ms[i]);
    }
  }

  /** Every well-formed type has a positive unpacked size and alignment, and
      a struct or union is a whole number of its alignments. */
  lemma {:induction false} UnpackedWellFormed(t: TypeInfo)
    requires WellFormed(t)
    ensures Unpacked(t).size > 0 && Unpacked(t).alignment > 0
    ensures !t.Atomic? ==> Unpacked(t).size % Unpacked(t).alignment == 0
    decreases t, 1
  {
    match t
    case Atomic(_, _, _) =>
    case Struct(_, _) =>
      var dims := MemberDims(t);
      MemberDimsPositive(t);
      StructAlignIsMax(dims);
      ArrangeAccounts(dims, StructAlign(dims));
      SumSizesPositive(dims);
    case Union(_, _) =>
      var dims := MemberDims(t);
      MemberDimsPositive(t);
      MaxSizeAlignIsMax(dims);
      AlignUpSpec(MaxSizeAlign(dims).0, MaxSizeAlign(dims).1);
  }

  /** Under the registry's rule that atomic alignments are powers of two,
      every type's unpacked alignment is a power of two. */
  lemma {:induction false} UnpackedAlignmentPow2(t: TypeInfo)
    requires WellFormed(t) && Pow2Aligned(t)
    ensures IsPow2(Unpacked(t).alignment)
    decreases t
  {
    match t
    case Atomic(_, _, _) =>
    case Struct(_, fields) =>
      var dims := MemberDims(t);
      StructAlignIsMax(dims);
      var i :| 0 <= i < |dims| && dims[i].align == StructAlign(dims);
      MemberDimsAt(t, i);
      UnpackedAlignmentPow2(fields[i]);
    case Union(_, options) =>
      var dims := MemberDims(t);
      MaxSizeAlignIsMax(dims);
      if MaxSizeAlign(dims).1 != 1 {
        var i :| 0 <= i < |dims| && dims[i].align == MaxSizeAlign(dims).1;
        MemberDimsAt(t, i);
        UnpackedAlignmentPow2(options[i]);
      }
  }

  // ---------------------------------------------------------------------
  // The three layouts, kind by kind

  /** Atomic: unpacked is (size, alignment, no waste); packed keeps the size
      with alignment 1; optimal is unpacked. */
  lemma AtomicLayouts(t: TypeInfo)
    requires t.Atomic? && WellFormed(t)
    ensures Unpacked(t) == LayoutInfo(t.size, t.align, 0, 0, 0)
    ensures Packed(t) == LayoutInfo(t.size, 1, 0, 0, 0)
    ensures Optimal(t) == Unpacked(t)
  {
  }

  /** The optimal order is a stable sort of the declared fields by
      descending alignment: a permutation of them, larger alignments first,
      declaration order among equal alignments. */
  lemma OptimalOrder(dims: seq<Dim>)
    ensures multiset(SortByAlign(Enumerate(dims))) == multiset(Enumerate(dims))
    ensures StablyDescending(SortByAlign(Enumerate(dims)))
    ensures OptimalVisit(dims) == DimsOf(SortByAlign(Enumerate(dims)))
    ensures SumSizes(OptimalVisit(dims)) == SumSizes(dims)
    ensures forall i, j :: 0 <= i < j < |OptimalVisit(dims)| ==> OptimalVisit(dims)[i].align >= OptimalVisit(dims)[j].align
  {
    var e := Enumerate(dims);
    SortPermutes(e);
    SortOrders(e);
    SortSums(e);
    assert DimsOf(e) == dims;
    var sorted := SortByAlign(e);
    assert forall i :: 0 <= i < |sorted| ==> OptimalVisit(dims)[i] == sorted[i].dim;
  }

  /** The visiting order contains every declared field exactly once, with
      the size and alignment it was declared with. */
  lemma OptimalVisitsDeclaredFields(dims: seq<Dim>)
    ensures multiset(OptimalVisit(dims)) == multiset(dims)
    ensures PositiveDims(dims) ==> PositiveDims(OptimalVisit(dims))
  {
    var e := Enumerate(dims);
    var sorted := SortByAlign(e);
    SortDimsPermutes(e);
    assert DimsOf(e) == dims;
    if PositiveDims(dims) {
      forall i | 0 <= i < |sorted|
        ensures OptimalVisit(dims)[i].size > 0 && OptimalVisit(dims)[i].align > 0
      {
        assert OptimalVisit(dims)[i] in multiset(dims);
      }
    }
  }

  /** Each slot of the optimal order names a declared field, by its index,
      with that field's dimensions. */
  lemma SortedSlotsAreFields(dims: seq<Dim>)
    ensures forall j :: 0 <= j < |SortByAlign(Enumerate(dims))| ==>
      0 <= SortByAlign(Enumerate(dims))[j].index < |dims| &&
      SortByAlign(Enumerate(dims))[j].dim == dims[SortByAlign(Enumerate(dims))[j].index]
    ensures |SortByAlign(Enumerate(dims))| == |dims|
  {
    var e := Enumerate(dims);
    var sorted := SortByAlign(e);
    SortPermutes(e);
    assert |sorted| == |e| == |dims|;
    forall j | 0 <= j < |sorted|
      ensures 0 <= sorted[j].index < |dims| && sorted[j].dim == dims[sorted[j].index]
    {
      assert sorted[j] in multiset(e);
      var k :| 0 <= k < |e| && e[k] == sorted[j];
    }
  }

  lemma {:induction false} InsertDimsPermutes(p: Slot, s: seq<Slot>)
    ensures multiset(DimsOf(InsertByAlign(p, s))) == multiset(DimsOf(s)) + multiset{p.dim}
  {
    if s == [] {
      assert DimsOf([p]) == [p.dim];
    } else if s[0].dim.align >= p.dim.align {
      InsertDimsPermutes(p, s[1..]);
      assert DimsOf([s[0]] + InsertByAlign(p, s[1..])) == [s[0].dim] + DimsOf(InsertByAlign(p, s[1..]));
      assert DimsOf(s) == [s[0].dim] + DimsOf(s[1..]);
    } else {
      assert DimsOf([p] + s) == [p.dim] + DimsOf(s);
    }
  }

  lemma {:induction false} SortDimsPermutes(s: seq<Slot>)
    ensures multiset(DimsOf(SortByAlign(s))) == multiset(DimsOf(s))
  {
    if s != [] {
      var init := s[..|s| - 1];
      SortDimsPermutes(init);
      InsertDimsPermutes(s[|s| - 1], SortByAlign(init));
      assert DimsOf(s) == DimsOf(init) + [s[|s| - 1].dim];
    }
  }

  /** Struct: unpacked and optimal share the struct alignment, the largest
      field alignment; each accounts size = fields + internal + final
      padding, is a multiple of the alignment, and pads the end by less than
      the alignment. Packed is the plain sum of the field sizes, aligned to
      1 with no waste, and never larger than either. */
  lemma StructLayouts(t: TypeInfo)
    requires t.Struct? && WellFormed(t)
    ensures Unpacked(t).alignment == Optimal(t).alignment == StructAlign(MemberDims(t)) > 0
    ensures forall i :: 0 <= i < |t.fields| ==> Unpacked(t.fields[i]).alignment <= Unpacked(t).alignment
    ensures exists i :: 0 <= i < |t.fields| && Unpacked(t.fields[i]).alignment == Unpacked(t).alignment
    ensures Unpacked(t).size == SumSizes(MemberDims(t)) + Unpacked(t).internalPadding + Unpacked(t).finalPadding
    ensures Optimal(t).size == SumSizes(MemberDims(t)) + Optimal(t).internalPadding + Optimal(t).finalPadding
    ensures Unpacked(t).size % Unpacked(t).alignment == 0 && Optimal(t).size % Optimal(t).alignment == 0
    ensures 0 <= Unpacked(t).finalPadding < Unpacked(t).alignment
    ensures 0 <= Optimal(t).finalPadding < Optimal(t).alignment
    ensures Unpacked(t).wasted == Unpacked(t).internalPadding + Unpacked(t).finalPadding
    ensures Optimal(t).wasted == Optimal(t).internalPadding + Optimal(t).finalPadding
    ensures Packed(t) == LayoutInfo(SumSizes(MemberDims(t)), 1, 0, 0, 0)
    ensures Packed(t).size <= Unpacked(t).size && Packed(t).size <= Optimal(t).size
  {
    var dims := MemberDims(t);
    MemberDimsPositive(t);
    StructAlignIsMax(dims);
    forall i | 0 <= i < |t.fields| ensures Unpacked(t.fields[i]).alignment == dims[i].align {
      MemberDimsAt(t, i);
    }
    var sa := StructAlign(dims);
    ArrangeAccounts(dims, sa);
    OptimalOrder(dims);
    OptimalVisitsDeclaredFields(dims);
    ArrangeAccounts(OptimalVisit(dims), sa);
  }

  /** Union: the size is the largest option size rounded up to the largest
      option alignment; all waste is final padding, below the alignment;
      packed is the largest size with alignment 1; optimal is unpacked. */
  lemma UnionLayouts(t: TypeInfo)
    requires t.Union? && WellFormed(t)
    ensures forall i :: 0 <= i < |t.options| ==>
      Unpacked(t.options[i]).size <= Packed(t).size && Unpacked(t.options[i]).alignment <= Unpacked(t).alignment
    ensures exists i :: 0 <= i < |t.options| && Unpacked(t.options[i]).size == Packed(t).size
    ensures Unpacked(t).alignment >= 1
    ensures Unpacked(t).alignment == 1 || exists i :: 0 <= i < |t.options| && Unpacked(t.options[i]).alignment == Unpacked(t).alignment
    ensures Unpacked(t).size % Unpacked(t).alignment == 0
    ensures Packed(t).size <= Unpacked(t).size < Packed(t).size + Unpacked(t).alignment
    ensures Unpacked(t).wasted == Unpacked(t).finalPadding == Unpacked(t).size - Packed(t).size
    ensures Unpacked(t).internalPadding == 0
    ensures Packed(t).alignment == 1 && Packed(t).wasted == 0
    ensures Optimal(t) == Unpacked(t)
  {
    var dims := MemberDims(t);
    MemberDimsPositive(t);
    MaxSizeAlignIsMax(dims);
    AlignUpSpec(MaxSizeAlign(dims).0, MaxSizeAlign(dims).1);
    forall i | 0 <= i < |t.options| ensures DimOf(Unpacked(t.options[i])) == dims[i] {
      MemberDimsAt(t, i);
    }
  }

  /** Packing never makes a type larger. */
  lemma PackedNoLarger(t: TypeInfo)
    requires WellFormed(t)
    ensures Packed(t).size <= Unpacked(t).size
    ensures Packed(t).size <= Optimal(t).size
  {
    match t
    case Atomic(_, _, _) =>
    case Struct(_, _) => StructLayouts(t);
    case Union(_, _) => UnionLayouts(t);
  }

  // ---------------------------------------------------------------------
  // When reordering helps

  /** Naturally aligned members (power-of-two alignment dividing the size)
      laid out by non-increasing alignment need no internal padding. */
  lemma {:induction false} DescendingPlace(vis: seq<Dim>)
    requires PositiveDims(vis)
    requires forall i :: 0 <= i < |vis| ==> IsPow2(vis[i].align) && vis[i].size % vis[i].align == 0
    requires forall i, j :: 0 <= i < j < |vis| ==> vis[i].align >= vis[j].align
    ensures Place(vis).internal == 0 && Place(vis).end == SumSizes(vis)
    ensures vis != [] ==> Place(vis).end % vis[|vis| - 1].align == 0
  {
    if vis != [] {
      var init, d := vis[..|vis| - 1], vis[|vis| - 1];
      DescendingPlace(init);
      var e := Place(init).end;
      if init == [] {
        AlignUpAligned(0, d.align);
      } else {
        var prev := init[|init| - 1];
        assert prev == vis[|vis| - 2];
        Pow2Divides(d.align, prev.align);
        DividesTrans(e, prev.align, d.align);
        AlignUpAligned(e, d.align);
        AddMultiples(e, d.size, d.align);
      }
    }
  }

  /** For a struct whose fields are naturally aligned, the optimal layout
      has no internal padding and wastes no more than the unpacked one. */
  lemma NaturallyAlignedOptimal(t: TypeInfo)
    requires t.Struct? && WellFormed(t)
    requires forall i :: 0 <= i < |MemberDims(t)| ==>
      IsPow2(MemberDims(t)[i].align) && MemberDims(t)[i].size % MemberDims(t)[i].align == 0
    ensures Optimal(t).internalPadding == 0
    ensures Optimal(t).wasted <= Unpacked(t).wasted
  {
    var dims := MemberDims(t);
    var vis := OptimalVisit(dims);
    MemberDimsPositive(t);
    OptimalOrder(dims);
    OptimalVisitsDeclaredFields(dims);
    forall i | 0 <= i < |vis| ensures IsPow2(vis[i].align) && vis[i].size % vis[i].align == 0 {
      assert vis[i] in multiset(dims);
    }
    DescendingPlace(vis);
    StructLayouts(t);
    var sa := StructAlign(dims);
    PlaceAccounts(dims);
    AlignUpLeast(SumSizes(dims), sa, Unpacked(t).size);
  }

  /** ... but in general the descending-alignment order can waste more: four
      one-byte fields aligned 2, 1, 2, 1 fit in 4 bytes as declared and
      need 6 bytes when reordered to 2, 2, 1, 1. */
  lemma OptimalMayWasteMore()
    ensures var t := Struct("s", [Atomic("a", 1, 2), Atomic("b", 1, 1), Atomic("c", 1, 2), Atomic("d", 1, 1)]);
      Unpacked(t).wasted == 0 && Optimal(t).wasted == 2
  {
    var t := Struct("s", [Atomic("a", 1, 2), Atomic("b", 1, 1), Atomic("c", 1, 2), Atomic("d", 1, 1)]);
    var two, one := Dim(1, 2), Dim(1, 1);
    var dims := [two, one, two, one];
    assert MemberDims(t) == dims;
    AlternatingAlign(two, one);
    SortFour(dims);
    DeclaredOrderFits(two, one);
    ReorderedWastes(two, one);
  }

  lemma AlternatingAlign(two: Dim, one: Dim)
    requires two == Dim(1, 2) && one == Dim(1, 1)
    ensures StructAlign([two, one, two, one]) == 2
  {
    var dims := [two, one, two, one];
    var aligns := AlignsOf(dims);
    assert aligns == [2, 1, 2, 1];
    assert aligns[..3] == [2, 1, 2] && [2, 1, 2][..2] == [2, 1] && [2, 1][..1] == [2];
    assert MaxOf([2]) == 2;
    assert MaxOf([2, 1]) == 2;
    assert MaxOf([2, 1, 2]) == 2;
  }

  /** As declared: offsets 0, 1, 2, 3, no padding, size 4. */
  lemma DeclaredOrderFits(two: Dim, one: Dim)
    requires two == Dim(1, 2) && one == Dim(1, 1)
    ensures Arrange([two, one, two, one], 2) == LayoutInfo(4, 2, 0, 0, 0)
  {
    assert [] + [two] == [two] && [two] + [one] == [two, one];
    assert [two, one] + [two] == [two, one, two] && [two, one, two] + [one] == [two, one, two, one];
    PlaceSnoc([], two);
    PlaceSnoc([two], one);
    PlaceSnoc([two, one], two);
    PlaceSnoc([two, one, two], one);
  }

  /** Reordered: offsets 0, 2, 3, 4, one byte of internal padding, then the
      end padded from 5 to 6. */
  lemma ReorderedWastes(two: Dim, one: Dim)
    requires two == Dim(1, 2) && one == Dim(1, 1)
    ensures Arrange([two, two, one, one], 2) == LayoutInfo(6, 2, 2, 1, 1)
  {
    assert [] + [two] == [two] && [two] + [two] == [two, two] && [two, two] + [one] == [two, two, one];
    assert [two, two, one] + [one] == [two, two, one, one];
    PlaceSnoc([], two);
    PlaceSnoc([two], two);
    PlaceSnoc([two, two], one);
    PlaceSnoc([two, two, one], one);
  }

  lemma PlaceSnoc(vis: seq<Dim>, d: Dim)
    ensures Place(vis + [d]) ==
      Placement(AlignUp(Place(vis).end, d.align) + d.size, Place(vis).internal + (AlignUp(Place(vis).end, d.align) - Place(vis).end))
  {
    assert (vis + [d])[..|vis|] == vis;
  }

  lemma SortFour(dims: seq<Dim>)
    requires dims == [Dim(1, 2), Dim(1, 1), Dim(1, 2), Dim(1, 1)]
    ensures OptimalVisit(dims) == [Dim(1, 2), Dim(1, 2), Dim(1, 1), Dim(1, 1)]
  {
    var e := Enumerate(dims);
    assert e == [Slot(0, Dim(1, 2)), Slot(1, Dim(1, 1)), Slot(2, Dim(1, 2)), Slot(3, Dim(1, 1))];
    assert e[..1] == [e[0]] && e[..2] == [e[0], e[1]] && e[..3] == [e[0], e[1], e[2]];
    assert e[..1][..0] == [] && e[..2][..1] == e[..1] && e[..3][..2] == e[..2] && e[..3] == e[..3];
    assert SortByAlign(e[..1]) == [e[0]];
    assert SortByAlign(e[..2]) == InsertByAlign(e[1], [e[0]]) == [e[0], e[1]];
    assert InsertByAlign(e[2], [e[1]]) == [e[2], e[1]];
    assert InsertByAlign(e[2], [e[0], e[1]]) == [e[0]] + InsertByAlign(e[2], [e[1]]);
    assert SortByAlign(e[..3]) == InsertByAlign(e[2], [e[0], e[1]]) == [e[0], e[2], e[1]];
    assert InsertByAlign(e[3], [e[1]]) == [e[1], e[3]];
    assert InsertByAlign(e[3], [e[2], e[1]]) == [e[2]] + InsertByAlign(e[3], [e[1]]);
    assert InsertByAlign(e[3], [e[0], e[2], e[1]]) == [e[0]] + InsertByAlign(e[3], [e[2], e[1]]);
    assert e[..4] == e;
    assert SortByAlign(e) == InsertByAlign(e[3], [e[0], e[2], e[1]]) == [e[0], e[2], e[1], e[3]];
  }
}
