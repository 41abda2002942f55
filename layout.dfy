// The type model of Tarea3/type_manager.py: atomic types, structs and
// unions, and the three layouts each one has (unpacked, packed and
// "optimal", which reorders a struct's fields by descending alignment).
//
// This module holds the specification: the layouts as functions over the
// type tree, and the lemmas that state what they guarantee. The loops the
// source runs to compute them are in module LayoutAlgorithms.

module Layout {
  import opened Bits

  /** Layout of a type under one strategy. */
  datatype LayoutInfo = LayoutInfo(
    size: int,
    alignment: int,
    wasted: int,
    internalPadding: int,
    finalPadding: int)

  /** A type: atomic (size and alignment given), or a struct or union made
      of previously defined types. Types are immutable once built. */
  datatype TypeInfo =
    | Atomic(name: string, size: int, align: int)
    | Struct(name: string, fields: seq<TypeInfo>)
    | Union(name: string, options: seq<TypeInfo>)
  {
    function Kind(): string
    {
      match this
      case Atomic(_, _, _) => "atomico"
      case Struct(_, _) => "struct"
      case Union(_, _) => "union"
    }
  }

  /** Errors the type constructors and the registry raise (ValueError). */
  datatype TypeError =
    | NonPositiveDimensions
    | NoMembers
    | InvalidName(name: string)
    | ReservedName(name: string)
    | AlreadyDefined(name: string)
    | NonPositiveSize
    | NonPositiveAlignment
    | AlignmentNotPowerOfTwo(alignment: int)
    | UndefinedMember(name: string)
    | UndefinedType(name: string)

  datatype Option<T> = None | Some(value: T)
  datatype Result<T> = Success(value: T) | Failure(error: TypeError)

  /** A type every constructor accepted: atomic sizes and alignments are
      positive, composites have at least one member, recursively. */
  predicate WellFormed(t: TypeInfo)
  {
    match t
    case Atomic(_, size, align) => size > 0 && align > 0
    case Struct(_, fields) => |fields| > 0 && forall i :: 0 <= i < |fields| ==> WellFormed(fields[i])
    case Union(_, options) => |options| > 0 && forall i :: 0 <= i < |options| ==> WellFormed(options[i])
  }

  /** Every atomic type inside t has a power-of-two alignment (what the
      registry enforces on top of the constructors). */
  predicate Pow2Aligned(t: TypeInfo)
  {
    match t
    case Atomic(_, _, align) => IsPow2(align)
    case Struct(_, fields) => forall i :: 0 <= i < |fields| ==> Pow2Aligned(fields[i])
    case Union(_, options) => forall i :: 0 <= i < |options| ==> Pow2Aligned(options[i])
  }

  // ---------------------------------------------------------------------
  // Constructors (they raise on the inputs they refuse)

  function NewAtomic(name: string, size: int, align: int): (r: Result<TypeInfo>)
    ensures r.Success? <==> size > 0 && align > 0
    ensures r.Success? ==> WellFormed(r.value) && r.value == Atomic(name, size, align)
    ensures r.Failure? ==> r.error == NonPositiveDimensions
  {
    if size <= 0 || align <= 0 then Failure(NonPositiveDimensions)
    else Success(Atomic(name, size, align))
  }

  function NewStruct(name: string, fields: seq<TypeInfo>): (r: Result<TypeInfo>)
    ensures r.Success? <==> |fields| > 0
    ensures r.Success? ==> r.value == Struct(name, fields)
    ensures r.Success? && (forall i :: 0 <= i < |fields| ==> WellFormed(fields[i])) ==> WellFormed(r.value)
  {
    if |fields| == 0 then Failure(NoMembers) else Success(Struct(name, fields))
  }

  function NewUnion(name: string, options: seq<TypeInfo>): (r: Result<TypeInfo>)
    ensures r.Success? <==> |options| > 0
    ensures r.Success? ==> r.value == Union(name, options)
    ensures r.Success? && (forall i :: 0 <= i < |options| ==> WellFormed(options[i])) ==> WellFormed(r.value)
  {
    if |options| == 0 then Failure(NoMembers) else Success(Union(name, options))
  }

  // ---------------------------------------------------------------------
  // Arithmetic on offsets

  /** Size and alignment of one member, as its unpacked layout gives them. */
  datatype Dim = Dim(size: int, align: int)

  /** x rounded up to a multiple of m: `((x + m - 1) // m) * m`, or x itself
      when m is not positive. For m > 0 Python's floor division and Dafny's
      Euclidean division agree. */
  function AlignUp(x: int, m: int): int
  {
    if m > 0 then ((x + m - 1) / m) * m else x
  }

  /** AlignUp(x, m) is the least multiple of m that is at least x (the two
      bounds and the remainder fix it uniquely). */
  lemma AlignUpSpec(x: int, m: int)
    requires m > 0
    ensures AlignUp(x, m) % m == 0
    ensures x <= AlignUp(x, m) < x + m
  {
    var q := (x + m - 1) / m;
    assert x + m - 1 == q * m + (x + m - 1) % m;
    MultipleMod(q, m);
  }

  lemma AlignUpLeast(x: int, m: int, y: int)
    requires m > 0 && y % m == 0 && x <= y
    ensures AlignUp(x, m) <= y
  {
    var r := AlignUp(x, m);
    AlignUpSpec(x, m);
    ModZeroMultiple(y, m);
    ModZeroMultiple(r, m);
    var d := y / m - r / m;
    assert y - r == d * m;
  }

  /** A value already aligned is not moved. */
  lemma AlignUpAligned(x: int, m: int)
    requires m > 0 && x % m == 0
    ensures AlignUp(x, m) == x
  {
    AlignUpSpec(x, m);
    AlignUpLeast(x, m, x);
  }

  // ---------------------------------------------------------------------
  // Unpacked layout of every type, and the member dimensions it uses

  function Members(t: TypeInfo): seq<TypeInfo>
  {
    match t
    case Atomic(_, _, _) => []
    case Struct(_, fields) => fields
    case Union(_, options) => options
  }

  /** The unpacked layout: fields at offsets rounded up to their alignment,
      the struct rounded up to its largest field alignment; a union as large
      as its largest option, rounded up to its largest option alignment. */
  function Unpacked(t: TypeInfo): LayoutInfo
    decreases t, 1
  {
    match t
    case Atomic(_, size, align) => LayoutInfo(size, align, 0, 0, 0)
    case Struct(_, _) => Arrange(MemberDims(t), StructAlign(MemberDims(t)))
    case Union(_, _) => UnionUnpacked(MemberDims(t))
  }

  /** Size and alignment of each member of a composite, read from the
      member's unpacked layout (atomic members give their own). */
  function MemberDims(t: TypeInfo): (dims: seq<Dim>)
    ensures |dims| == |Members(t)|
    decreases t, 0
  {
    match t
    case Atomic(_, _, _) => []
    case Struct(_, fields) =>
      seq(|fields|, i requires 0 <= i < |fields| => DimOf(Unpacked(fields[i])))
    case Union(_, options) =>
      seq(|options|, i requires 0 <= i < |options| => DimOf(Unpacked(options[i])))
  }

  function DimOf(l: LayoutInfo): Dim { Dim(l.size, l.alignment) }

  lemma MemberDimsAt(t: TypeInfo, i: int)
    requires 0 <= i < |Members(t)|
    ensures MemberDims(t)[i] == DimOf(Unpacked(Members(t)[i]))
  {
  }

  // ---------------------------------------------------------------------
  // Struct layout over a visiting order

  datatype Placement = Placement(end: int, internal: int)

  /** Lay the members out one after another in the order given: each starts
      at the previous end rounded up to its alignment. Returns the end of the
      last member and the padding inserted before members. */
  function Place(vis: seq<Dim>): Placement
  {
    if vis == [] then Placement(0, 0)
    else
      var before := Place(vis[..|vis| - 1]);
      var d := vis[|vis| - 1];
      var start := AlignUp(before.end, d.align);
      Placement(start + d.size, before.internal + (start - before.end))
  }

  /** Offset at which the k-th visited member is placed. */
  function FieldStart(vis: seq<Dim>, k: int): int
    requires 0 <= k < |vis|
  {
    AlignUp(Place(vis[..k]).end, vis[k].align)
  }

  /** Struct layout: place the members, then pad the end to the struct's
      alignment. */
  function Arrange(vis: seq<Dim>, structAlign: int): LayoutInfo
  {
    var placed := Place(vis);
    var size := AlignUp(placed.end, structAlign);
    LayoutInfo(size, structAlign, placed.internal + (size - placed.end), placed.internal, size - placed.end)
  }

  /** `max(field_align_values) if field_align_values else 1` */
  function StructAlign(dims: seq<Dim>): int
  {
    if dims == [] then 1 else MaxOf(AlignsOf(dims))
  }

  function AlignsOf(dims: seq<Dim>): (aligns: seq<int>)
    ensures |aligns| == |dims|
  {
    seq(|dims|, i requires 0 <= i < |dims| => dims[i].align)
  }

  /** Python's `max` of a non-empty list. */
  function MaxOf(xs: seq<int>): int
    requires xs != []
  {
    if |xs| == 1 then xs[0] else Max(MaxOf(xs[..|xs| - 1]), xs[|xs| - 1])
  }

  /** Total of the member sizes, added in visiting order. */
  function SumSizes(dims: seq<Dim>): int
  {
    if dims == [] then 0 else SumSizes(dims[..|dims| - 1]) + dims[|dims| - 1].size
  }

  predicate PositiveDims(dims: seq<Dim>)
  {
    forall i :: 0 <= i < |dims| ==> dims[i].size > 0 && dims[i].align > 0
  }

  // ---------------------------------------------------------------------
  // The "optimal" visiting order: a stable sort by descending alignment

  /** A member with its position in the declaration. */
  datatype Slot = Slot(index: int, dim: Dim)

  /** `list(enumerate(dims))` */
  function Enumerate(dims: seq<Dim>): (s: seq<Slot>)
    ensures |s| == |dims|
  {
    seq(|dims|, i requires 0 <= i < |dims| => Slot(i, dims[i]))
  }

  function DimsOf(s: seq<Slot>): (dims: seq<Dim>)
    ensures |dims| == |s|
  {
    seq(|s|, i requires 0 <= i < |s| => s[i].dim)
  }

  function IndicesOf(s: seq<Slot>): (order: seq<int>)
    ensures |order| == |s|
  {
    seq(|s|, i requires 0 <= i < |s| => s[i].index)
  }

  /** Insert p after every slot whose alignment is at least p's. */
  function InsertByAlign(p: Slot, s: seq<Slot>): seq<Slot>
  {
    if s == [] then [p]
    else if s[0].dim.align >= p.dim.align then [s[0]] + InsertByAlign(p, s[1..])
    else [p] + s
  }

  /** `sort(key=alignment, reverse=True)`, which Python keeps stable: equal
      alignments stay in declaration order. */
  function SortByAlign(s: seq<Slot>): seq<Slot>
  {
    if s == [] then [] else InsertByAlign(s[|s| - 1], SortByAlign(s[..|s| - 1]))
  }

  /** p goes before q: larger alignment first, then declaration order. */
  predicate Precedes(p: Slot, q: Slot)
  {
    p.dim.align > q.dim.align || (p.dim.align == q.dim.align && p.index < q.index)
  }

  predicate StablyDescending(s: seq<Slot>)
  {
    forall i, j :: 0 <= i < j < |s| ==> Precedes(s[i], s[j])
  }

  predicate IncreasingIndices(s: seq<Slot>)
  {
    forall i, j :: 0 <= i < j < |s| ==> s[i].index < s[j].index
  }

  lemma {:induction false} InsertPermutes(p: Slot, s: seq<Slot>)
    ensures multiset(InsertByAlign(p, s)) == multiset(s) + multiset{p}
  {
    if s != [] && s[0].dim.align >= p.dim.align {
      InsertPermutes(p, s[1..]);
      assert s == [s[0]] + s[1..];
    }
  }

  lemma {:induction false} InsertOrders(p: Slot, s: seq<Slot>)
    requires StablyDescending(s)
    requires forall i :: 0 <= i < |s| ==> s[i].index < p.index
    ensures StablyDescending(InsertByAlign(p, s))
  {
    if s != [] && s[0].dim.align >= p.dim.align {
      InsertOrders(p, s[1..]);
      InsertPermutes(p, s[1..]);
      var rest := InsertByAlign(p, s[1..]);
      forall j | 0 <= j < |rest| ensures Precedes(s[0], rest[j]) {
        assert rest[j] in multiset(s[1..]) + multiset{p};
        if rest[j] != p {
          assert rest[j] in s[1..];
          var k :| 1 <= k < |s| && s[k] == rest[j];
        }
      }
    }
  }

  /** The optimal visiting order is a permutation of the declared members. */
  lemma {:induction false} SortPermutes(s: seq<Slot>)
    ensures multiset(SortByAlign(s)) == multiset(s)
    ensures |SortByAlign(s)| == |s|
  {
    if s != [] {
      SortPermutes(s[..|s| - 1]);
      InsertPermutes(s[|s| - 1], SortByAlign(s[..|s| - 1]));
      assert s == s[..|s| - 1] + [s[|s| - 1]];
    }
  }

  /** ... sorted by descending alignment, declaration order among equals. */
  lemma {:induction false} SortOrders(s: seq<Slot>)
    requires IncreasingIndices(s)
    ensures StablyDescending(SortByAlign(s))
  {
    if s != [] {
      var init, last := s[..|s| - 1], s[|s| - 1];
      SortOrders(init);
      SortPermutes(init);
      var sorted := SortByAlign(init);
      forall i | 0 <= i < |sorted| ensures sorted[i].index < last.index {
        assert sorted[i] in multiset(init);
        var k :| 0 <= k < |init| && init[k] == sorted[i];
      }
      InsertOrders(last, sorted);
    }
  }

  /** The optimal order visits the same members, so it sums the same sizes. */
  lemma {:induction false} SumSizesCons(d: Dim, dims: seq<Dim>)
    ensures SumSizes([d] + dims) == d.size + SumSizes(dims)
  {
    if dims != [] {
      SumSizesCons(d, dims[..|dims| - 1]);
      assert ([d] + dims)[..|dims|] == [d] + dims[..|dims| - 1];
    }
  }

  lemma {:induction false} InsertSums(p: Slot, s: seq<Slot>)
    ensures SumSizes(DimsOf(InsertByAlign(p, s))) == p.dim.size + SumSizes(DimsOf(s))
  {
    if s == [] {
      assert DimsOf([p]) == [p.dim];
      assert SumSizes([p.dim]) == SumSizes([]) + p.dim.size;
    } else if s[0].dim.align >= p.dim.align {
      InsertSums(p, s[1..]);
      assert DimsOf([s[0]] + InsertByAlign(p, s[1..])) == [s[0].dim] + DimsOf(InsertByAlign(p, s[1..]));
      assert DimsOf(s) == [s[0].dim] + DimsOf(s[1..]);
      SumSizesCons(s[0].dim, DimsOf(InsertByAlign(p, s[1..])));
      SumSizesCons(s[0].dim, DimsOf(s[1..]));
    } else {
      assert DimsOf([p] + s) == [p.dim] + DimsOf(s);
      SumSizesCons(p.dim, DimsOf(s));
    }
  }

  lemma {:induction false} SortSums(s: seq<Slot>)
    ensures SumSizes(DimsOf(SortByAlign(s))) == SumSizes(DimsOf(s))
  {
    if s != [] {
      var init := s[..|s| - 1];
      SortSums(init);
      InsertSums(s[|s| - 1], SortByAlign(init));
      assert DimsOf(s)[..|s| - 1] == DimsOf(init);
    }
  }

  /** The members in the order the optimal layout visits them. */
  function OptimalVisit(dims: seq<Dim>): seq<Dim>
  {
    DimsOf(SortByAlign(Enumerate(dims)))
  }

  // ---------------------------------------------------------------------
  // Union layout

  /** `(max_size, max_align)` over the members, starting from (0, 1). */
  function MaxSizeAlign(dims: seq<Dim>): (int, int)
  {
    if dims == [] then (0, 1)
    else
      var before := MaxSizeAlign(dims[..|dims| - 1]);
      (Max(before.0, dims[|dims| - 1].size), Max(before.1, dims[|dims| - 1].align))
  }

  function UnionUnpacked(dims: seq<Dim>): LayoutInfo
  {
    var (maxSize, maxAlign) := MaxSizeAlign(dims);
    var size := AlignUp(maxSize, maxAlign);
    LayoutInfo(size, maxAlign, size - maxSize, 0, size - maxSize)
  }

  // ---------------------------------------------------------------------
  // The packed and optimal layouts

  /** Packed: alignment 1, no padding; a struct is as large as the sum of
      its members' unpacked sizes, a union as its largest member. */
  function Packed(t: TypeInfo): LayoutInfo
  {
    match t
    case Atomic(_, size, _) => LayoutInfo(size, 1, 0, 0, 0)
    case Struct(_, _) => LayoutInfo(SumSizes(MemberDims(t)), 1, 0, 0, 0)
    case Union(_, _) => LayoutInfo(MaxSizeAlign(MemberDims(t)).0, 1, 0, 0, 0)
  }

  /** Optimal: a struct's fields visited in OptimalVisit order, with the
      struct alignment still taken over all fields; atomics and unions are
      laid out as unpacked. */
  function Optimal(t: TypeInfo): LayoutInfo
  {
    match t
    case Atomic(_, _, _) => Unpacked(t)
    case Struct(_, _) => Arrange(OptimalVisit(MemberDims(t)), StructAlign(MemberDims(t)))
    case Union(_, _) => Unpacked(t)
  }
}
