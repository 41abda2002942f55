# Data-type layouts and generalised Fibonacci, in Dafny

This project models two self-contained components of a course repository
(CI3641, Lenguajes de Programación I) and proves what they compute.

**The data-type layout simulator** (`Tarea3/type_manager.py`). A type is
atomic (a size and an alignment), a struct of previously defined types, or
a union of previously defined types. Every type has three layouts:

- *unpacked*: every field starts at an offset rounded up to its alignment,
  and the struct is padded at the end to the largest field alignment;
- *packed*: alignment 1 and no padding;
- *optimal*: a struct's fields are visited by descending alignment (a
  stable sort), then laid out as unpacked.

A `TypeManager` keeps the table of defined types. It validates each new
name (an identifier, not a command word, not yet defined), each atomic size
and alignment (positive, with a power-of-two alignment), and each member
list (non-empty, every name already defined). It describes a type by its
kind and its three layouts.

The model has four parts:

- Module `Layout` states the layouts as recursive functions over a
  `TypeInfo` datatype.
- Module `LayoutProperties` proves what the layouts guarantee.
- Module `LayoutAlgorithms` holds the loops the source runs. Each loop is
  proved to compute the matching function.
- Module `TypeRegistry` holds `TypeManager`, a class whose `types` map is
  updated in place. It keeps the invariant that every stored type is well
  formed, has power-of-two atomic alignments and is stored under its own
  name.

**Generalised Fibonacci** (`Tarea2/Pregunta4/Preg4.py`).
F(n) = n for n < a·b, otherwise F(n − b) + F(n − 2b) + … + F(n − a·b).
Module `Fab` takes that recursion as the specification `F`. It proves that
each of the four implementations returns `F(n)`:

- the naive recursion;
- the memoised generator sum;
- the list-appending "tail" helper;
- the bottom-up array.

It also proves the parameter helper `compute_alpha_beta`, and that a = 2,
b = 1 gives the classic Fibonacci numbers.

Python's `//` and `%` by a positive divisor agree with Dafny's Euclidean
`/` and `%`. Where the source divides, the divisor is positive (or the
source skips the division).

## Model

| member | source | states |
|---|---|---|
| Bits.PowerOfTwoTest | Tarea3/type_manager.py:319-323 | for n > 0, `n & (n - 1) == 0` holds exactly when n is a power of two |
| Layout.NewAtomic | Tarea3/type_manager.py:66-71 | an atomic type is built exactly when size and alignment are both positive, otherwise the constructor's error |
| Layout.NewStruct | Tarea3/type_manager.py:112-116 | a struct is built exactly when it has at least one field; fields that are well formed give a well-formed struct |
| Layout.NewUnion | Tarea3/type_manager.py:238-242 | a union is built exactly when it has at least one option; well-formed options give a well-formed union |
| Layout.AlignUpSpec | Tarea3/type_manager.py:179-182 | rounding up to a positive alignment m gives a multiple of m in [x, x + m) |
| Layout.AlignUpLeast | Tarea3/type_manager.py:179-182 | the rounded offset is the least multiple of m that is at least x |
| Layout.AlignUpAligned | Tarea3/type_manager.py:179-182 | an offset that is already aligned does not move |
| Layout.SortPermutes | Tarea3/type_manager.py:136-141 | the optimal visiting order is a permutation of the declared (index, field) pairs |
| Layout.SortOrders | Tarea3/type_manager.py:136-141 | the visiting order is by non-increasing alignment, in declaration order among equal alignments (Python's sort is stable) |
| Layout.SortSums | Tarea3/type_manager.py:136-141 | reordering does not change the sum of the field sizes |
| LayoutProperties.PlaceAccounts | Tarea3/type_manager.py:161-186 | after the placement loop the offset is the sum of the field sizes plus the internal padding, which is never negative |
| LayoutProperties.FieldPlacement | Tarea3/type_manager.py:179-186 | each field starts at a multiple of its alignment, no earlier than the previous field's end and less than one alignment after it; it ends at its start plus its size |
| LayoutProperties.ArrangeAccounts | Tarea3/type_manager.py:188-203 | a struct's size is a multiple of its alignment, its final padding is less than the alignment, and wasted = internal + final padding |
| LayoutProperties.StructAlignIsMax | Tarea3/type_manager.py:149-159 | the struct alignment is at least every field's alignment and equal to one of them |
| LayoutProperties.MaxSizeAlignIsMax | Tarea3/type_manager.py:244-257 | the union helper returns the largest option size (at least 0) and the largest option alignment (at least 1); each bounds every option and, unless it is the starting value, is attained by one |
| LayoutProperties.UnpackedWellFormed | Tarea3/type_manager.py:63-292 | every well-formed type has a positive unpacked size and alignment, and a composite's unpacked size is a multiple of its alignment |
| LayoutProperties.MemberDimsPositive | Tarea3/type_manager.py:149-177 | the sizes and alignments read from the members of a well-formed composite are positive |
| LayoutProperties.UnpackedAlignmentPow2 | Tarea3/type_manager.py:149-159 | when every atomic alignment is a power of two, so is every unpacked alignment |
| LayoutProperties.AtomicLayouts | Tarea3/type_manager.py:73-95 | atomic: unpacked (size, align, 0, 0, 0), packed (size, 1, 0, 0, 0), optimal = unpacked |
| LayoutProperties.OptimalOrder | Tarea3/type_manager.py:134-143 | the optimal order is a stable permutation with non-increasing alignments and the same total size |
| LayoutProperties.OptimalVisitsDeclaredFields | Tarea3/type_manager.py:134-143 | the optimal order visits the declared fields' dimensions, each as often as declared, and keeps them positive (the per-field statement, on (index, dimension) pairs, is OptimalOrder) |
| LayoutProperties.SortedSlotsAreFields | Tarea3/type_manager.py:136-141 | each sorted entry carries a valid field index and that field's dimensions |
| LayoutProperties.StructLayouts | Tarea3/type_manager.py:145-229 | struct: unpacked and optimal alignment are equal, and are the maximum field alignment; both sizes are multiples of it, equal to the sum of field sizes plus internal and final padding; packed = (sum of unpacked field sizes, 1, 0, 0, 0), no larger than either |
| LayoutProperties.UnionLayouts | Tarea3/type_manager.py:244-289 | union: size is the largest option size rounded up to the largest option alignment; wasted = final padding = size − largest size < alignment; no internal padding; packed = (largest size, 1, 0); optimal = unpacked |
| LayoutProperties.PackedNoLarger | Tarea3/type_manager.py:209-225 | the packed size never exceeds the unpacked or the optimal size |
| LayoutProperties.DescendingPlace | Tarea3/type_manager.py:161-186 | fields with power-of-two alignments whose sizes are multiples of them, visited by non-increasing alignment, are placed with no internal padding |
| LayoutProperties.NaturallyAlignedOptimal | Tarea3/type_manager.py:227-229 | for such fields the optimal layout has no internal padding and wastes no more than the unpacked layout |
| LayoutProperties.OptimalMayWasteMore | Tarea3/type_manager.py:134-143 | without that condition the reordering can waste more: one-byte fields aligned 2, 1, 2, 1 waste 0 bytes as declared and 2 reordered |
| LayoutAlgorithms.LayoutUnpacked | Tarea3/type_manager.py:259-273 | `layout_unpacked` returns the unpacked layout: an atomic's own size and alignment, a struct through `_compute_layout`, a union's largest size rounded up to its largest alignment |
| LayoutAlgorithms.LayoutPacked | Tarea3/type_manager.py:209-225 | `layout_packed`: the loop summing field sizes returns the packed layout |
| LayoutAlgorithms.LayoutOptimal | Tarea3/type_manager.py:227-229 | `layout_optimal` returns the optimal layout; only structs reorder |
| LayoutAlgorithms.ComputeLayout | Tarea3/type_manager.py:118-203 | `_compute_layout` without alignment overrides returns the optimal layout when reordering and the unpacked one otherwise |
| LayoutAlgorithms.PlaceFields | Tarea3/type_manager.py:161-186 | the placement loop ends with the offset and internal padding of placing the fields in the given order |
| LayoutAlgorithms.FieldOrder | Tarea3/type_manager.py:134-143 | the order is a sequence of valid field indices whose fields, read in that order, are the visiting order |
| LayoutAlgorithms.StructAlignment | Tarea3/type_manager.py:149-159 | the collected field alignments give the struct alignment (1 when there are none) |
| LayoutAlgorithms.MaxSizeAndAlignment | Tarea3/type_manager.py:244-257 | the union helper's loop returns the running maxima over all options |
| LayoutExamples.AtomicInt | Tarea3/test_type_manager.py:11-27 | int (4, 4) has layouts (4, 4, 0), (4, 1, 0) and optimal = unpacked |
| LayoutExamples.CharIntStruct | Tarea3/test_type_manager.py:31-64 | char (1, 2) + int (4, 4): unpacked (8, 4, wasted 3, internal 3), packed (5, 1, 0), optimal (8, 4, wasted 3, final 3) |
| LayoutExamples.ThreeFieldStruct | Tarea3/test_type_manager.py:67-76 | fields (1, 1), (2, 2), (4, 4): unpacked wastes 1 byte inside, optimal wastes 1 byte at the end, so the optimal layout wastes no more |
| LayoutExamples.SimpleUnion | Tarea3/test_type_manager.py:80-103 | union of (1, 1) and (4, 4): unpacked (4, 4, 0), packed (4, 1, 0), optimal = unpacked |
| TypeRegistry.DescribedLayouts | Tarea3/type_manager.py:358-365 | every storable type has a positive unpacked size, a power-of-two unpacked alignment equal to the optimal one, wasted = internal + final padding, and a positive packed size (alignment 1, no waste) no larger than the other two |
| TypeRegistry.TypeManager.constructor | Tarea3/type_manager.py:301-302 | a new manager has an empty table that satisfies the invariant |
| TypeRegistry.TypeManager.ValidateTypeName | Tarea3/type_manager.py:304-310 | a name passes exactly when it is an identifier, its upper-case form is no command word, and it is not defined; otherwise the first failing check is reported |
| TypeRegistry.TypeManager.ValidateSizeAndAlignment | Tarea3/type_manager.py:312-326 | size and alignment pass exactly when both are positive and the alignment is a power of two; otherwise the first failing check is reported |
| TypeRegistry.TypeManager.AddAtomic | Tarea3/type_manager.py:328-332 | success exactly when name, size and alignment pass, and then only the new atomic entry is added; on failure the table is unchanged and the name error takes precedence |
| TypeRegistry.TypeManager.Resolve | Tarea3/type_manager.py:339-343 | succeeds exactly when every name is defined, returning the defined types in order; otherwise reports the first undefined name |
| TypeRegistry.TypeManager.AddStruct | Tarea3/type_manager.py:334-344 | success exactly when the name is valid, the field list is non-empty and every field is defined, and then only the new struct entry is added; otherwise the table is unchanged and the first failing check is reported |
| TypeRegistry.TypeManager.AddUnion | Tarea3/type_manager.py:346-356 | the same as AddStruct, for unions and their options |
| TypeRegistry.TypeManager.Describe | Tarea3/type_manager.py:358-365 | fails exactly for an undefined name; otherwise reports the kind and the unpacked, packed and optimal layouts of the stored type, which satisfy DescribedLayouts |
| RegistryExamples.DefineAndDescribe | Tarea3/test_type_manager.py:107-117 | defining char, int and struct foo succeeds, and foo is described with the char/int layouts |
| RegistryExamples.ManagerErrors | Tarea3/test_type_manager.py:119-129 | redefining int, a struct over an undefined type, and describing an undefined type each report their error |
| RegistryExamples.ValidationErrors | Tarea3/test_type_manager.py:133-168 | a reserved word, a non-identifier, alignment 3, size −1, alignment 0 and undefined field or option names each report their error |
| Fab.ComputeAlphaBeta | Tarea2/Pregunta4/Preg4.py:5-8 | a and b lie in 3..7, and a − 3 ≡ X + Y and b − 3 ≡ Y + Z (mod 5) |
| Fab.RecursiveArgumentInRange | Tarea2/Pregunta4/Preg4.py:14-20 | for n ≥ a·b each recursive argument n − b·i lies in [0, n − b], so the recursion terminates |
| Fab.BaseCase | Tarea2/Pregunta4/Preg4.py:15-16 | below a·b, F(n) = n |
| Fab.FNonNegative | Tarea2/Pregunta4/Preg4.py:14-20 | F is never negative on the natural numbers |
| Fab.FabRecursive | Tarea2/Pregunta4/Preg4.py:14-20 | `fab_recursive` returns F(n) |
| Fab.FabMemoIsF | Tarea2/Pregunta4/Preg4.py:26-31 | the generator-sum form of `fab_recursive_memo` equals F |
| Fab.FabMemoCached | Tarea2/Pregunta4/Preg4.py:26-31 | with an explicit cache that agrees with F, the memoised call returns F(n) and leaves a cache that still agrees with F and holds (n, a, b) |
| Fab.FabTail | Tarea2/Pregunta4/Preg4.py:37-57 | `fab_tail` returns F(n) for n ≥ 0 |
| Fab.TailHelper | Tarea2/Pregunta4/Preg4.py:44-55 | when dp holds F(0..k−1), `helper(k)` returns F(n) |
| Fab.FabIterative | Tarea2/Pregunta4/Preg4.py:61-73 | `fab_iterative` returns F(n) |
| Fab.AllVariantsAgree | Tarea2/Pregunta4/tests_fab.py:3-11 | the memoised, tail and iterative variants return the same value, F(n) |
| Fab.TestParameters | Tarea2/Pregunta4/tests_fab.py:3 | `compute_alpha_beta(4, 3, 6)` is (5, 7) |
| Fab.ClassicFibonacci | Tarea2/Pregunta4/Preg4.py:77-83 | with a = 2 and b = 1, F is the classic Fibonacci sequence |

## Left out

- `Tarea1` is outside the two components modelled here. It holds a C buddy allocator, a C table of programs, interpreters and translators with a reachability check, and the C++ `vector3` with its tests.
- `Tarea2/Pregunta2/coverage/csv_to_lcov.py` is not part of this model. It is a file-conversion script.
- `repl()` and the text that `describe` assembles: console input and output. `Describe` returns the facts the text prints: name, kind and the three layouts.
- The `field_alignments` override of `_compute_layout`: no caller passes it, so `ComputeLayout` models the `None` path only.
- TypeRegistry.IsIdentifier: ASCII approximation of Python's Unicode `str.isidentifier()`. Non-ASCII letters are refused here but accepted by Python.
- TypeRegistry.Upper: ASCII approximation of Python's Unicode `str.upper()`.
- The source raises `ValueError`. The model returns `Option<TypeError>`/`Result` values instead, and messages are reduced to an error kind and the offending name or value.
- Python dictionary insertion order (used only for listing) is not modelled. The table is a `map`.
- Layout.NewAtomic, Layout.NewStruct and Layout.NewUnion model the type constructors' own checks. Once the registry has validated the input these checks cannot fail.
- Fab.FabMemoCached: `lru_cache` is modelled as an explicit map threaded through the calls; `cache_clear` and cache eviction are not modelled (the cache is unbounded).
- Fab.TailHelper: the closure's shared list `dp` is passed as a sequence value that each call extends by one element, not appended in place.
- Fab.F requires a ≥ 1 and b ≥ 1. With b ≤ 0 the source recursion does not terminate once n ≥ a·b. With a ≤ 0 the source's loops are empty; that case is not modelled, since `compute_alpha_beta` only yields 3..7.
- Fab.FabRecursive requires a ≥ 1 and b ≥ 1, as for F.
- Fab.FabIterative requires a ≥ 1 and b ≥ 1, as for F.
- Fab.FabTail requires a ≥ 1, b ≥ 1 and n ≥ 0. For n < 0 the source indexes an empty list and raises `IndexError`.
- Python's recursion limit is not modelled. `helper` in `fab_tail` recurses once per index from a·b to n + 1, and `fab_recursive_memo` nests about n / b calls. Past the interpreter's limit (1000 frames by default) both raise `RecursionError`, where the model returns F(n).
- Printing in the `__main__` block of `Preg4.py` and in `tests_fab.py` is not modelled. Only the values compared are.
- The generic claim "the optimal layout wastes no more than the unpacked one" is not true in general (see `OptimalMayWasteMore`). It is proved only under natural alignment (`NaturallyAlignedOptimal`) and for the tested instances.
