// The type table of Tarea3/type_manager.py: `TypeManager` keeps a
// dictionary from names to the types defined so far, validates every new
// name, size and alignment, builds structs and unions out of types already
// in the table, and describes a type by its three layouts.
//
// A `ValueError` raised by the source is an error value here: the adding
// methods return `Some(error)` and leave the table as it was.

module TypeRegistry {
  import opened Bits
  import opened Layout
  import opened LayoutProperties
  import opened LayoutAlgorithms

  /** Command words of the interactive loop; no type may be named after
      one of them, whatever its letter case. */
  const ReservedNames: set<string> :=
    {"ATOMICO", "STRUCT", "UNION", "DESCRIBIR", "SALIR", "AYUDA", "LISTAR"}

  predicate IsIdentifierStart(c: char)
  {
    'a' <= c <= 'z' || 'A' <= c <= 'Z' || c == '_'
  }

  predicate IsIdentifierPart(c: char)
  {
    IsIdentifierStart(c) || '0' <= c <= '9'
  }

  /** `str.isidentifier()` over ASCII: a letter or underscore, followed by
      letters, digits and underscores. */
  predicate IsIdentifier(s: string)
  {
    |s| > 0 && IsIdentifierStart(s[0]) && forall i :: 1 <= i < |s| ==> IsIdentifierPart(s[i])
  }

  function UpperChar(c: char): char
  {
    if 'a' <= c <= 'z' then (c as int - 'a' as int + 'A' as int) as char else c
  }

  /** `str.upper()` over ASCII. */
  function Upper(s: string): string
  {
    seq(|s|, i requires 0 <= i < |s| => UpperChar(s[i]))
  }

  /** The types named by `names`, looked up in `defined`. */
  function TypesOf(names: seq<string>, defined: map<string, TypeInfo>): (ts: seq<TypeInfo>)
    requires forall i :: 0 <= i < |names| ==> names[i] in defined
  {
    seq(|names|, i requires 0 <= i < |names| => defined[names[i]])
  }

  /** What `describe` reports about a type: its name, its kind and its
      three layouts. */
  datatype Description = Description(
    name: string,
    kind: string,
    unpacked: LayoutInfo,
    packed: LayoutInfo,
    optimal: LayoutInfo)

  /** The guarantees every described type's layouts satisfy. */
  predicate ConsistentLayouts(d: Description)
  {
    && d.unpacked.size > 0 && IsPow2(d.unpacked.alignment)
    && d.unpacked.wasted == d.unpacked.internalPadding + d.unpacked.finalPadding >= 0
    && d.optimal.alignment == d.unpacked.alignment
    && d.optimal.wasted == d.optimal.internalPadding + d.optimal.finalPadding >= 0
    && d.packed.alignment == 1 && d.packed.wasted == 0
    && 0 < d.packed.size <= d.unpacked.size
    && d.packed.size <= d.optimal.size
  }

  /** Every type the registry can hold has layouts with these guarantees. */
  lemma DescribedLayouts(t: TypeInfo)
    requires WellFormed(t) && Pow2Aligned(t)
    ensures ConsistentLayouts(Description(t.name, t.Kind(), Unpacked(t), Packed(t), Optimal(t)))
  {
    UnpackedWellFormed(t);
    UnpackedAlignmentPow2(t);
    PackedNoLarger(t);
    match t
    case Atomic(_, _, _) =>
      AtomicLayouts(t);
    case Struct(_, fields) =>
      StructLayouts(t);
      MemberDimsPositive(t);
      SumSizesPositive(MemberDims(t));
      PlaceAccounts(MemberDims(t));
      OptimalVisitsDeclaredFields(MemberDims(t));
      PlaceAccounts(OptimalVisit(MemberDims(t)));
    case Union(_, options) =>
      UnionLayouts(t);
      UnpackedWellFormed(options[0]);
  }

  class TypeManager {
    /** The table of defined types, by name. */
    var types: map<string, TypeInfo>

    /** Every stored type was accepted by its constructor and by the
        validations, and is stored under its own name. */
    ghost predicate Valid()
      reads this
    {
      forall n :: n in types ==> WellFormed(types[n]) && Pow2Aligned(types[n]) && types[n].name == n
    }

    constructor()
      ensures Valid() && types == map[]
    {
      types := map[];
    }

    /** `_validate_type_name`: the name must be an identifier, must not be
        a command word in any letter case, and must not be defined yet;
        the first of these that fails is reported. */
    function ValidateTypeName(name: string): (e: Option<TypeError>)
      reads this
      ensures e.None? <==> IsIdentifier(name) && Upper(name) !in ReservedNames && name !in types
      ensures !IsIdentifier(name) ==> e == Some(InvalidName(name))
      ensures IsIdentifier(name) && Upper(name) in ReservedNames ==> e == Some(ReservedName(name))
      ensures IsIdentifier(name) && Upper(name) !in ReservedNames && name in types ==> e == Some(AlreadyDefined(name))
    {
      if !IsIdentifier(name) then Some(InvalidName(name))
      else if Upper(name) in ReservedNames then Some(ReservedName(name))
      else if name in types then Some(AlreadyDefined(name))
      else None
    }

    /** `_validate_size_and_alignment`: the size and the alignment must be
        positive and `alignment & (alignment - 1)` must be zero, which holds
        exactly for the powers of two. */
    static function ValidateSizeAndAlignment(size: int, alignment: int): (e: Option<TypeError>)
      ensures e.None? <==> size > 0 && alignment > 0 && IsPow2(alignment)
      ensures size <= 0 ==> e == Some(NonPositiveSize)
      ensures size > 0 && alignment <= 0 ==> e == Some(NonPositiveAlignment)
      ensures size > 0 && alignment > 0 && !IsPow2(alignment) ==> e == Some(AlignmentNotPowerOfTwo(alignment))
    {
      if size <= 0 then Some(NonPositiveSize)
      else if alignment <= 0 then Some(NonPositiveAlignment)
      else
        PowerOfTwoTest(alignment);
        if BitAnd(alignment, alignment - 1) != 0 then Some(AlignmentNotPowerOfTwo(alignment))
        else None
    }

    /** `add_atomic`: validate the name, then the size and alignment, then
        store the atomic type. */
    method AddAtomic(name: string, size: int, alignment: int) returns (err: Option<TypeError>)
      requires Valid()
      modifies this
      ensures Valid()
      ensures err.None? <==> old(ValidateTypeName(name)).None? && ValidateSizeAndAlignment(size, alignment).None?
      ensures err.Some? ==> types == old(types)
      ensures old(ValidateTypeName(name)).Some? ==> err == old(ValidateTypeName(name))
      ensures old(ValidateTypeName(name)).None? ==> err == ValidateSizeAndAlignment(size, alignment)
      ensures err.None? ==> name !in old(types) && types == old(types)[name := Atomic(name, size, alignment)]
    {
      err := ValidateTypeName(name);
      if err.Some? {
        return;
      }
      err := ValidateSizeAndAlignment(size, alignment);
      if err.Some? {
        return;
      }
      var t := NewAtomic(name, size, alignment).value;
      types := types[name := t];
    }

    /** The lookup loop of `add_struct` and `add_union`: every name must be
        defined; the first one that is not is reported. */
    method Resolve(names: seq<string>) returns (r: Result<seq<TypeInfo>>)
      ensures r.Success? <==> forall i :: 0 <= i < |names| ==> names[i] in types
      ensures r.Success? ==> r.value == TypesOf(names, types)
      ensures r.Failure? ==> exists i :: 0 <= i < |names| && names[i] !in types && r.error == UndefinedMember(names[i])
                              && forall j :: 0 <= j < i ==> names[j] in types
    {
      var members: seq<TypeInfo> := [];
      var i := 0;
      while i < |names|
        invariant 0 <= i <= |names|
        invariant forall j :: 0 <= j < i ==> names[j] in types
        invariant members == TypesOf(names[..i], types)
      {
        if names[i] !in types {
          return Failure(UndefinedMember(names[i]));
        }
        members := members + [types[names[i]]];
        i := i + 1;
      }
      assert names[..i] == names;
      r := Success(members);
    }

    /** `add_struct`: validate the name, refuse an empty field list, look
        up every field type, then store the struct. */
    method AddStruct(name: string, fieldNames: seq<string>) returns (err: Option<TypeError>)
      requires Valid()
      modifies this
      ensures Valid()
      ensures err.None? <==> old(ValidateTypeName(name)).None? && |fieldNames| > 0 &&
                             forall i :: 0 <= i < |fieldNames| ==> fieldNames[i] in old(types)
      ensures err.Some? ==> types == old(types)
      ensures old(ValidateTypeName(name)).Some? ==> err == old(ValidateTypeName(name))
      ensures old(ValidateTypeName(name)).None? && |fieldNames| == 0 ==> err == Some(NoMembers)
      ensures old(ValidateTypeName(name)).None? && err.Some? && |fieldNames| > 0 ==>
        exists i :: 0 <= i < |fieldNames| && fieldNames[i] !in old(types) && err == Some(UndefinedMember(fieldNames[i]))
                    && forall j :: 0 <= j < i ==> fieldNames[j] in old(types)
      ensures err.None? ==> name !in old(types)
      ensures err.None? ==> types == old(types)[name := Struct(name, TypesOf(fieldNames, old(types)))]
    {
      err := ValidateTypeName(name);
      if err.Some? {
        return;
      }
      if |fieldNames| == 0 {
        return Some(NoMembers);
      }
      var fields := Resolve(fieldNames);
      if fields.Failure? {
        return Some(fields.error);
      }
      var t := NewStruct(name, fields.value).value;
      types := types[name := t];
    }

    /** `add_union`: as `add_struct`, with options instead of fields. */
    method AddUnion(name: string, optionNames: seq<string>) returns (err: Option<TypeError>)
      requires Valid()
      modifies this
      ensures Valid()
      ensures err.None? <==> old(ValidateTypeName(name)).None? && |optionNames| > 0 &&
                             forall i :: 0 <= i < |optionNames| ==> optionNames[i] in old(types)
      ensures err.Some? ==> types == old(types)
      ensures old(ValidateTypeName(name)).Some? ==> err == old(ValidateTypeName(name))
      ensures old(ValidateTypeName(name)).None? && |optionNames| == 0 ==> err == Some(NoMembers)
      ensures old(ValidateTypeName(name)).None? && err.Some? && |optionNames| > 0 ==>
        exists i :: 0 <= i < |optionNames| && optionNames[i] !in old(types) && err == Some(UndefinedMember(optionNames[i]))
                    && forall j :: 0 <= j < i ==> optionNames[j] in old(types)
      ensures err.None? ==> name !in old(types)
      ensures err.None? ==> types == old(types)[name := Union(name, TypesOf(optionNames, old(types)))]
    {
      err := ValidateTypeName(name);
      if err.Some? {
        return;
      }
      if |optionNames| == 0 {
        return Some(NoMembers);
      }
      var options := Resolve(optionNames);
      if options.Failure? {
        return Some(options.error);
      }
      var t := NewUnion(name, options.value).value;
      types := types[name := t];
    }

    /** `describe`: an undefined name is an error; otherwise the type's
        kind and its unpacked, packed and optimal layouts. */
    method Describe(name: string) returns (r: Result<Description>)
      requires Valid()
      ensures r.Failure? <==> name !in types
      ensures r.Failure? ==> r.error == UndefinedType(name)
      ensures r.Success? ==> r.value.name == name && r.value.kind == types[name].Kind()
      ensures r.Success? ==> r.value.unpacked == Unpacked(types[name])
      ensures r.Success? ==> r.value.packed == Packed(types[name])
      ensures r.Success? ==> r.value.optimal == Optimal(types[name])
      ensures r.Success? ==> ConsistentLayouts(r.value)
    {
      if name !in types {
        return Failure(UndefinedType(name));
      }
      var t := types[name];
      var lu := LayoutUnpacked(t);
      var lp := LayoutPacked(t);
      var lo := LayoutOptimal(t);
      DescribedLayouts(t);
      r := Success(Description(name, t.Kind(), lu, lp, lo));
    }
  }
}
