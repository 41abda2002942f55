// The concrete layouts of Tarea3/test_type_manager.py, derived from the
// layout functions of module Layout.

module LayoutExamples {
  import opened Layout
  import opened LayoutProperties

  /** An atomic `int` of size 4 and alignment 4 keeps its own size and
      alignment unpacked, has alignment 1 packed, and is not reordered. */
  lemma AtomicInt()
    ensures var t := Atomic("int", 4, 4);
      && Unpacked(t) == LayoutInfo(4, 4, 0, 0, 0)
      && Packed(t) == LayoutInfo(4, 1, 0, 0, 0)
      && Optimal(t) == Unpacked(t)
  {
    AtomicLayouts(Atomic("int", 4, 4));
  }

  /** struct foo { char (1, align 2); int (4, align 4) }: unpacked, the int
      moves to offset 4 (3 bytes of internal padding) and the size is 8;
      packed, 5 bytes; reordered as int, char, the char lands at offset 4
      and the end is padded from 5 to 8. */
  lemma CharIntStruct()
    ensures var t := Struct("foo", [Atomic("char", 1, 2), Atomic("int", 4, 4)]);
      && Unpacked(t) == LayoutInfo(8, 4, 3, 3, 0)
      && Packed(t) == LayoutInfo(5, 1, 0, 0, 0)
      && Optimal(t) == LayoutInfo(8, 4, 3, 0, 3)
      && Optimal(t).wasted <= Unpacked(t).wasted
  {
    var t := Struct("foo", [Atomic("char", 1, 2), Atomic("int", 4, 4)]);
    var c, i := Dim(1, 2), Dim(4, 4);
    assert MemberDims(t) == [c, i];
    assert AlignsOf([c, i]) == [2, 4] && [2, 4][..1] == [2];
    assert StructAlign([c, i]) == 4;
    assert [c, i][..1] == [c] && [c][..0] == [];
    assert SumSizes([c]) == 1;
    assert SumSizes([c, i]) == 5;
    CharIntPlacements(c, i);
    CharIntOrder(c, i);
  }

  lemma CharIntPlacements(c: Dim, i: Dim)
    requires c == Dim(1, 2) && i == Dim(4, 4)
    ensures Arrange([c, i], 4) == LayoutInfo(8, 4, 3, 3, 0)
    ensures Arrange([i, c], 4) == LayoutInfo(8, 4, 3, 0, 3)
  {
    assert [] + [c] == [c] && [c] + [i] == [c, i] && [] + [i] == [i] && [i] + [c] == [i, c];
    PlaceSnoc([], c);
    PlaceSnoc([c], i);
    PlaceSnoc([], i);
    PlaceSnoc([i], c);
  }

  lemma CharIntOrder(c: Dim, i: Dim)
    requires c == Dim(1, 2) && i == Dim(4, 4)
    ensures OptimalVisit([c, i]) == [i, c]
  {
    var e := Enumerate([c, i]);
    assert e == [Slot(0, c), Slot(1, i)];
    assert e[..1] == [e[0]] && e[..1][..0] == [];
    assert SortByAlign(e[..1]) == [e[0]];
    assert InsertByAlign(e[1], [e[0]]) == [e[1], e[0]];
    assert SortByAlign(e) == [e[1], e[0]];
  }

  /** struct s { a (1, 1); b (2, 2); c (4, 4) }: one byte of padding
      before b unpacked; reordered as c, b, a, one byte of final padding;
      the reordering is no worse. */
  lemma ThreeFieldStruct()
    ensures var t := Struct("s", [Atomic("a", 1, 1), Atomic("b", 2, 2), Atomic("c", 4, 4)]);
      && Unpacked(t) == LayoutInfo(8, 4, 1, 1, 0)
      && Optimal(t) == LayoutInfo(8, 4, 1, 0, 1)
      && Optimal(t).wasted <= Unpacked(t).wasted
  {
    var t := Struct("s", [Atomic("a", 1, 1), Atomic("b", 2, 2), Atomic("c", 4, 4)]);
    var a, b, c := Dim(1, 1), Dim(2, 2), Dim(4, 4);
    assert MemberDims(t) == [a, b, c];
    ThreeFieldAlign(a, b, c);
    ThreeFieldPlacements(a, b, c);
    ThreeFieldOrder(a, b, c);
  }

  lemma ThreeFieldAlign(a: Dim, b: Dim, c: Dim)
    requires a == Dim(1, 1) && b == Dim(2, 2) && c == Dim(4, 4)
    ensures StructAlign([a, b, c]) == 4
  {
    assert AlignsOf([a, b, c]) == [1, 2, 4] && [1, 2, 4][..2] == [1, 2] && [1, 2][..1] == [1];
    assert MaxOf([1, 2]) == 2;
  }

  lemma ThreeFieldPlacements(a: Dim, b: Dim, c: Dim)
    requires a == Dim(1, 1) && b == Dim(2, 2) && c == Dim(4, 4)
    ensures Arrange([a, b, c], 4) == LayoutInfo(8, 4, 1, 1, 0)
    ensures Arrange([c, b, a], 4) == LayoutInfo(8, 4, 1, 0, 1)
  {
    assert [] + [a] == [a] && [a] + [b] == [a, b] && [a, b] + [c] == [a, b, c];
    assert [] + [c] == [c] && [c] + [b] == [c, b] && [c, b] + [a] == [c, b, a];
    PlaceSnoc([], a);
    PlaceSnoc([a], b);
    PlaceSnoc([a, b], c);
    PlaceSnoc([], c);
    PlaceSnoc([c], b);
    PlaceSnoc([c, b], a);
  }

  lemma ThreeFieldOrder(a: Dim, b: Dim, c: Dim)
    requires a == Dim(1, 1) && b == Dim(2, 2) && c == Dim(4, 4)
    ensures OptimalVisit([a, b, c]) == [c, b, a]
  {
    var e := Enumerate([a, b, c]);
    assert e == [Slot(0, a), Slot(1, b), Slot(2, c)];
    assert e[..1] == [e[0]] && e[..2] == [e[0], e[1]] && e[..1][..0] == [] && e[..2][..1] == e[..1];
    assert SortByAlign(e[..1]) == [e[0]];
    assert SortByAlign(e[..2]) == InsertByAlign(e[1], [e[0]]) == [e[1], e[0]];
    assert InsertByAlign(e[2], [e[1], e[0]]) == [e[2], e[1], e[0]];
    assert e[..3] == e;
    assert SortByAlign(e) == [e[2], e[1], e[0]];
  }

  /** union u { a (1, 1); b (4, 4) }: size and alignment 4 with nothing
      wasted; packed, size 4 with alignment 1. */
  lemma SimpleUnion()
    ensures var u := Union("u", [Atomic("a", 1, 1), Atomic("b", 4, 4)]);
      && Unpacked(u) == LayoutInfo(4, 4, 0, 0, 0)
      && Packed(u) == LayoutInfo(4, 1, 0, 0, 0)
      && Optimal(u) == Unpacked(u)
  {
    var u := Union("u", [Atomic("a", 1, 1), Atomic("b", 4, 4)]);
    var a, b := Dim(1, 1), Dim(4, 4);
    assert MemberDims(u) == [a, b];
    assert [a, b][..1] == [a] && [a][..0] == [];
    assert MaxSizeAlign([a]) == (1, 1);
    assert MaxSizeAlign([a, b]) == (4, 4);
  }
}
