/** The schema intermediate representation, the checks a registry must pass, and the part of
    it the C++ generator can emit code for. */
module Schema {
  import opened Common

  datatype Format = Uuid | Hex | Base64 | Ip | Datetime | Semver

  datatype FieldType =
    | TString(format: Option<Format>, minLength: Option<nat>, maxLength: Option<nat>)
    | TInt(min: Option<int>, max: Option<int>)
    | TBool
    | TEnum(ref: string)
    | TStruct(ref: string)
    | TArray(items: FieldType, maxItems: Option<nat>)
    | TOptional(inner: FieldType)

  datatype FieldDef = FieldDef(name: string, ftype: FieldType)
  datatype StructDef = StructDef(name: string, fields: seq<FieldDef>)
  datatype EnumDef = EnumDef(name: string, values: seq<string>)
  datatype Registry = Registry(enums: seq<EnumDef>, structs: seq<StructDef>)

  ghost predicate Distinct<T>(s: seq<T>) {
    forall i, j | 0 <= i < j < |s| :: s[i] != s[j]
  }

  function FieldNames(fields: seq<FieldDef>): (names: seq<string>)
    ensures |names| == |fields| && forall i | 0 <= i < |fields| :: names[i] == fields[i].name
  {
    seq(|fields|, i requires 0 <= i < |fields| => fields[i].name)
  }

  // --- Name resolution -----------------------------------------------------------

  function FindEnum(enums: seq<EnumDef>, name: string): (r: Option<EnumDef>)
    ensures r.Some? <==> exists e | e in enums :: e.name == name
    ensures r.Some? ==> r.value in enums && r.value.name == name
  {
    if enums == [] then None
    else if enums[0].name == name then Some(enums[0])
    else
      assert forall e | e in enums[1..] :: e in enums;
      FindEnum(enums[1..], name)
  }

  /** The struct of that name among the first `k`. */
  function FindStruct(reg: Registry, k: nat, name: string): (r: Option<nat>)
    requires k <= |reg.structs|
    ensures r.Some? <==> exists j :: 0 <= j < k && reg.structs[j].name == name
    ensures r.Some? ==> r.value < k && reg.structs[r.value].name == name
  {
    if k == 0 then None
    else if reg.structs[k - 1].name == name then Some(k - 1)
    else FindStruct(reg, k - 1, name)
  }

  // --- Validation ------------------------------------------------------------------

  /** No dangling reference: structs are referenced only after their declaration. */
  ghost predicate Resolves(reg: Registry, k: nat, ty: FieldType)
    requires k <= |reg.structs|
  {
    match ty
    case TEnum(ref) => exists e | e in reg.enums :: e.name == ref
    case TStruct(ref) => exists j :: 0 <= j < k && reg.structs[j].name == ref
    case TArray(items, _) => Resolves(reg, k, items)
    case TOptional(inner) => Resolves(reg, k, inner)
    case _ => true
  }

  ghost predicate ValidStruct(reg: Registry, k: nat)
    requires k < |reg.structs|
  {
    var fields := reg.structs[k].fields;
    && fields != []
    && Distinct(FieldNames(fields))
    && forall f | f in fields :: Resolves(reg, k, f.ftype)
  }

  ghost predicate ValidRegistry(reg: Registry) {
    forall k | 0 <= k < |reg.structs| :: ValidStruct(reg, k)
  }

  /** The recursive walk over one field type. */
  predicate Walk(enumNames: set<string>, seenStructs: set<string>, ty: FieldType) {
    match ty
    case TEnum(ref) => ref in enumNames
    case TStruct(ref) => ref in seenStructs
    case TArray(items, _) => Walk(enumNames, seenStructs, items)
    case TOptional(inner) => Walk(enumNames, seenStructs, inner)
    case _ => true
  }

  lemma {:induction false} WalkResolves(reg: Registry, k: nat, enumNames: set<string>, seenStructs: set<string>,
                                        ty: FieldType)
    requires k <= |reg.structs|
    requires forall n :: n in enumNames <==> exists e | e in reg.enums :: e.name == n
    requires forall n :: n in seenStructs <==> exists j :: 0 <= j < k && reg.structs[j].name == n
    ensures Walk(enumNames, seenStructs, ty) <==> Resolves(reg, k, ty)
  {
    match ty {
      case TArray(items, _) => WalkResolves(reg, k, enumNames, seenStructs, items);
      case TOptional(inner) => WalkResolves(reg, k, enumNames, seenStructs, inner);
      case _ =>
    }
  }

  /** `validateRegistry`; `false` stands for the error it throws. */
  method ValidateRegistry(reg: Registry) returns (ok: bool)
    ensures ok <==> ValidRegistry(reg)
  {
    var enumNames := set e | e in reg.enums :: e.name;
    var seenStructs: set<string> := {};
    for k := 0 to |reg.structs|
      invariant forall n :: n in seenStructs <==> exists j :: 0 <= j < k && reg.structs[j].name == n
      invariant forall j | 0 <= j < k :: ValidStruct(reg, j)
    {
      var struct := reg.structs[k];
      if struct.fields == [] {
        assert !ValidStruct(reg, k);
        return false;
      }
      ok := ValidateFields(reg, k, enumNames, seenStructs);
      if !ok { return; }
      seenStructs := seenStructs + {struct.name};
    }
    ok := true;
  }

  method ValidateFields(reg: Registry, k: nat, enumNames: set<string>, seenStructs: set<string>) returns (ok: bool)
    requires k < |reg.structs| && reg.structs[k].fields != []
    requires forall n :: n in enumNames <==> exists e | e in reg.enums :: e.name == n
    requires forall n :: n in seenStructs <==> exists j :: 0 <= j < k && reg.structs[j].name == n
    ensures ok <==> ValidStruct(reg, k)
  {
    var fields := reg.structs[k].fields;
    ghost var names := FieldNames(fields);
    var fieldNames: set<string> := {};
    for i := 0 to |fields|
      invariant forall n :: n in fieldNames <==> exists j :: 0 <= j < i && names[j] == n
      invariant Distinct(names[..i])
      invariant forall j | 0 <= j < i :: Resolves(reg, k, fields[j].ftype)
    {
      WalkResolves(reg, k, enumNames, seenStructs, fields[i].ftype);
      if fields[i].name in fieldNames {
        assert !Distinct(names);
        return false;
      }
      fieldNames := fieldNames + {fields[i].name};
      if !Walk(enumNames, seenStructs, fields[i].ftype) {
        assert fields[i] in fields;
        return false;
      }
      assert names[..i + 1] == names[..i] + [names[i]];
    }
    assert names[..|fields|] == names;
    ok := true;
  }

  /** The registry while the schema files declare into it. */
  class Builder {
    var enums: seq<EnumDef>
    var structs: seq<StructDef>

    ghost predicate Valid()
      reads this
    {
      && (forall i, j | 0 <= i < j < |enums| :: enums[i].name != enums[j].name)
      && (forall i, j | 0 <= i < j < |structs| :: structs[i].name != structs[j].name)
      && (forall e | e in enums :: e.values != [])
    }

    constructor ()
      ensures Valid() && enums == [] && structs == []
    {
      enums, structs := [], [];
    }

    method DefineEnum(def: EnumDef) returns (ok: bool)
      requires Valid()
      modifies this`enums
      ensures Valid()
      ensures ok <==> def.values != [] && forall e | e in old(enums) :: e.name != def.name
      ensures enums == if ok then old(enums) + [def] else old(enums)
    {
      if exists e | e in enums :: e.name == def.name { return false; }
      if |def.values| == 0 { return false; }
      enums := enums + [def];
      ok := true;
    }

    method DefineStruct(def: StructDef) returns (ok: bool)
      requires Valid()
      modifies this`structs
      ensures Valid()
      ensures ok <==> forall s | s in old(structs) :: s.name != def.name
      ensures structs == if ok then old(structs) + [def] else old(structs)
    {
      if exists s | s in structs :: s.name == def.name { return false; }
      structs := structs + [def];
      ok := true;
    }
  }

  // --- What the C++ generator supports ------------------------------------------------

  /** An element of an array: neither an array nor an optional. */
  predicate ElementType(ty: FieldType) {
    !ty.TArray? && !ty.TOptional?
  }

  /** The type of a field once an optional around it is taken off. */
  predicate PlainType(ty: FieldType) {
    ElementType(ty) || (ty.TArray? && ElementType(ty.items))
  }

  function Unwrap(ty: FieldType): FieldType {
    if ty.TOptional? then ty.inner else ty
  }

  ghost predicate Emittable(reg: Registry) {
    && (forall s | s in reg.structs :: forall f | f in s.fields :: PlainType(Unwrap(f.ftype)))
    && (forall e | e in reg.enums :: Distinct(e.values))
  }

  /** A registry the generator turns into a working codec. */
  ghost predicate Ready(reg: Registry) {
    ValidRegistry(reg) && Emittable(reg)
  }
}
