// The scenarios of Tarea3/test_type_manager.py's TypeManager tests,
// restated as verified methods on the registry model: each method builds a
// fresh table and states exactly what every step returns.

module RegistryExamples {
  import opened Bits
  import opened Layout
  import opened LayoutExamples
  import opened TypeRegistry

  /** The names the scenarios define are identifiers and no command word. */
  lemma AcceptedNames()
    ensures IsIdentifier("char") && Upper("char") !in ReservedNames
    ensures IsIdentifier("int") && Upper("int") !in ReservedNames
    ensures IsIdentifier("foo") && Upper("foo") !in ReservedNames
    ensures IsIdentifier("s") && Upper("s") !in ReservedNames
    ensures IsIdentifier("u") && Upper("u") !in ReservedNames
  {
    assert Upper("char") == "CHAR";
    assert Upper("int") == "INT";
    assert Upper("foo") == "FOO";
    assert Upper("s") == "S";
    assert Upper("u") == "U";
  }

  /** The names the validation scenarios refuse or accept. */
  lemma CheckedNames()
    ensures IsIdentifier("ATOMICO") && Upper("ATOMICO") in ReservedNames
    ensures !IsIdentifier("123tipo")
    ensures IsIdentifier("weird") && Upper("weird") !in ReservedNames
    ensures IsIdentifier("bad") && Upper("bad") !in ReservedNames
    ensures IsIdentifier("bad2") && Upper("bad2") !in ReservedNames
  {
    assert Upper("ATOMICO") == "ATOMICO";
    assert Upper("weird") == "WEIRD";
    assert Upper("bad") == "BAD";
    assert Upper("bad2") == "BAD2";
  }

  /** Atomics `char` (1, 2) and `int` (4, 4) and struct `foo` of both are
      accepted; `foo` is described with the layouts of LayoutExamples. */
  method DefineAndDescribe() returns (d: Result<Description>)
    ensures d == Success(Description("foo", "struct",
      LayoutInfo(8, 4, 3, 3, 0), LayoutInfo(5, 1, 0, 0, 0), LayoutInfo(8, 4, 3, 0, 3)))
  {
    AcceptedNames();
    assert IsPow2(2) && IsPow2(4);
    var tm := new TypeManager();
    var e1 := tm.AddAtomic("char", 1, 2);
    assert tm.types == map["char" := Atomic("char", 1, 2)];
    var e2 := tm.AddAtomic("int", 4, 4);
    assert tm.types == map["char" := Atomic("char", 1, 2), "int" := Atomic("int", 4, 4)];
    var e3 := tm.AddStruct("foo", ["char", "int"]);
    assert e3.None?;
    var foo := Struct("foo", [Atomic("char", 1, 2), Atomic("int", 4, 4)]);
    assert TypesOf(["char", "int"], map["char" := Atomic("char", 1, 2), "int" := Atomic("int", 4, 4)]) == foo.fields;
    assert tm.types["foo"] == foo;
    CharIntStruct();
    d := tm.Describe("foo");
  }

  /** Redefining `int`, a struct over an undefined type and describing an
      undefined type are all refused. */
  method ManagerErrors() returns (redefined: Option<TypeError>, undefinedField: Option<TypeError>, undescribed: Result<Description>)
    ensures redefined == Some(AlreadyDefined("int"))
    ensures undefinedField == Some(UndefinedMember("no_definido"))
    ensures undescribed == Failure(UndefinedType("no_existe"))
  {
    AcceptedNames();
    assert IsPow2(4);
    var tm := new TypeManager();
    var ok := tm.AddAtomic("int", 4, 4);
    assert tm.types == map["int" := Atomic("int", 4, 4)];
    redefined := tm.AddAtomic("int", 2, 2);
    assert ["no_definido"][0] !in tm.types;
    undefinedField := tm.AddStruct("s", ["no_definido"]);
    undescribed := tm.Describe("no_existe");
  }

  /** The validation failures: a reserved word, a name that is not an
      identifier, an alignment that is not a power of two, a non-positive
      size, a non-positive alignment, and undefined member types of a
      struct and of a union (each reported by name). */
  method ValidationErrors() returns (errors: seq<Option<TypeError>>)
    ensures errors == [
      Some(ReservedName("ATOMICO")),
      Some(InvalidName("123tipo")),
      Some(AlignmentNotPowerOfTwo(3)),
      Some(NonPositiveSize),
      Some(NonPositiveAlignment),
      Some(UndefinedMember("noexiste")),
      Some(UndefinedMember("nada"))]
  {
    AcceptedNames();
    CheckedNames();
    assert !IsPow2(3);
    assert IsPow2(4);
    var tm := new TypeManager();
    var reserved := tm.AddAtomic("ATOMICO", 1, 2);
    var notIdentifier := tm.AddAtomic("123tipo", 1, 2);
    var notPow2 := tm.AddAtomic("weird", 3, 3);
    var badSize := tm.AddAtomic("bad", -1, 4);
    var badAlign := tm.AddAtomic("bad2", 4, 0);
    assert tm.types == map[];
    var ok := tm.AddAtomic("int", 4, 4);
    assert tm.types == map["int" := Atomic("int", 4, 4)];
    assert ["int", "noexiste"][1] !in tm.types && ["int", "nada"][1] !in tm.types;
    var undefinedField := tm.AddStruct("s", ["int", "noexiste"]);
    var undefinedOption := tm.AddUnion("u", ["int", "nada"]);
    errors := [reserved, notIdentifier, notPow2, badSize, badAlign, undefinedField, undefinedOption];
  }
}
