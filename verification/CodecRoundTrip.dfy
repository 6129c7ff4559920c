/** The codec of every registry is a bijection between the messages that meet the declared
    constraints and the values `from_json` accepts, explicit nulls aside. */
module CodecRoundTrip {
  import opened Common
  import opened JsonValue
  import opened JsonPrinter
  import opened JsonGrammar
  import opened JsonRoundTrip
  import opened Schema
  import opened Codec

  // --- The object a struct encodes to -------------------------------------------------

  lemma {:induction false} Weaken(reg: Registry, k: nat, ty: FieldType, m: Msg)
    requires k <= |reg.structs| && Conforms(reg, k, ty, m, true)
    ensures Conforms(reg, k, ty, m, false)
    decreases k, 0, ty
  {
    match ty {
      case TStruct(ref) => WeakenStruct(reg, FindStruct(reg, k, ref).value, m);
      case TArray(items, _) =>
        forall i | 0 <= i < |m.items| ensures Conforms(reg, k, items, m.items[i], false) {
          Weaken(reg, k, items, m.items[i]);
        }
      case _ =>
    }
  }

  lemma {:induction false} WeakenStruct(reg: Registry, j: nat, m: Msg)
    requires j < |reg.structs| && StructConforms(reg, j, m, true)
    ensures StructConforms(reg, j, m, false)
    decreases j, 1
  {
    forall i | 0 <= i < |m.fields| && m.fields[i].Some?
      ensures Conforms(reg, j, Unwrap(reg.structs[j].fields[i].ftype), m.fields[i].value, false)
    {
      Weaken(reg, j, Unwrap(reg.structs[j].fields[i].ftype), m.fields[i].value);
    }
  }

  ghost function EncodedField(reg: Registry, j: nat, m: Msg, i: nat): Option<Value>
    requires j < |reg.structs| && StructConforms(reg, j, m, false) && i < |m.fields|
  {
    if m.fields[i].None? then None
    else Some(Encode(reg, j, Unwrap(reg.structs[j].fields[i].ftype), m.fields[i].value))
  }

  /** The last of the first `n` fields that has the name. */
  function Slot(fields: seq<FieldDef>, n: nat, name: string): (r: Option<nat>)
    requires n <= |fields|
    ensures r.Some? ==> r.value < n && fields[r.value].name == name
    ensures r.None? ==> forall i | 0 <= i < n :: fields[i].name != name
  {
    if n == 0 then None
    else if fields[n - 1].name == name then Some(n - 1)
    else Slot(fields, n - 1, name)
  }

  lemma SlotUnique(reg: Registry, j: nat, n: nat, i: nat)
    requires j < |reg.structs| && ValidStruct(reg, j)
    requires i < n <= |reg.structs[j].fields|
    ensures Slot(reg.structs[j].fields, n, reg.structs[j].fields[i].name) == Some(i)
  {
    var fields := reg.structs[j].fields;
    var p := Slot(fields, n, fields[i].name).value;
    assert FieldNames(fields)[p] == FieldNames(fields)[i];
  }

  lemma SlotFresh(reg: Registry, j: nat, n: nat)
    requires j < |reg.structs| && ValidStruct(reg, j) && n < |reg.structs[j].fields|
    ensures Slot(reg.structs[j].fields, n, reg.structs[j].fields[n].name) == None
  {
    var fields := reg.structs[j].fields;
    assert forall p | 0 <= p < n :: FieldNames(fields)[p] != FieldNames(fields)[n];
  }

  /** One more field in the object: its name answers with its value, if it is present. */
  lemma EncodedNext(reg: Registry, j: nat, m: Msg, n: nat, key: string)
    requires j < |reg.structs| && StructConforms(reg, j, m, false) && 0 < n <= |m.fields|
    requires Ascending(EncodeFields(reg, j, m, n - 1))
    ensures var o, p := EncodeFields(reg, j, m, n - 1), EncodeFields(reg, j, m, n);
      var f, field := reg.structs[j].fields[n - 1], EncodedField(reg, j, m, n - 1);
      Ascending(p) && Find(p, key) == if field.Some? && f.name == key then field else Find(o, key)
  {
    var f, field := reg.structs[j].fields[n - 1], EncodedField(reg, j, m, n - 1);
    if field.Some? { InsertSpec(EncodeFields(reg, j, m, n - 1), f.name, field.value); }
  }

  /** Lookup in the encoded object: each present field under its name and nothing else. */
  lemma {:induction false} EncodedLookup(reg: Registry, j: nat, m: Msg, n: nat, key: string)
    requires j < |reg.structs| && ValidStruct(reg, j)
    requires StructConforms(reg, j, m, false) && n <= |m.fields|
    ensures var o, slot := EncodeFields(reg, j, m, n), Slot(reg.structs[j].fields, n, key);
      Ascending(o) && Find(o, key) == if slot.None? then None else EncodedField(reg, j, m, slot.value)
  {
    if n > 0 {
      EncodedLookup(reg, j, m, n - 1, key);
      EncodedNext(reg, j, m, n, key);
      if reg.structs[j].fields[n - 1].name == key { SlotFresh(reg, j, n - 1); }
    }
  }

  lemma EncodedKnown(reg: Registry, j: nat, m: Msg)
    requires j < |reg.structs| && ValidStruct(reg, j) && StructConforms(reg, j, m, false)
    ensures KnownFields(EncodeFields(reg, j, m, |m.fields|), reg.structs[j].fields)
  {
    var o := EncodeFields(reg, j, m, |m.fields|);
    forall x | x in o ensures exists i :: 0 <= i < |reg.structs[j].fields| && reg.structs[j].fields[i].name == x.key {
      var p :| 0 <= p < |o| && o[p] == x;
      EncodedLookup(reg, j, m, |m.fields|, x.key);
      FindMember(o, p);
    }
  }

  // --- from_json after to_json ---------------------------------------------------------

  lemma {:induction false} IndexOfDistinct(values: seq<string>, i: nat)
    requires Distinct(values) && i < |values|
    ensures IndexOf(values, values[i]) == Some(i)
  {
    if i > 0 {
      IndexOfDistinct(values[1..], i - 1);
    }
  }

  lemma {:induction false} DecodedFields(lib: FloatLib, reg: Registry, j: nat, members: Object, n: nat, i: nat)
    requires j < |reg.structs| && i < n <= |reg.structs[j].fields|
    requires DecodeFields(lib, reg, j, members, n).Some?
    ensures DecodeField(lib, reg, j, i, members) == Some(DecodeFields(lib, reg, j, members, n).value[i])
  {
    if i < n - 1 {
      DecodedFields(lib, reg, j, members, n - 1, i);
    }
  }

  lemma {:induction false} DecodeEncode(lib: FloatLib, reg: Registry, k: nat, ty: FieldType, m: Msg)
    requires Ready(reg) && k <= |reg.structs| && Conforms(reg, k, ty, m, true)
    ensures Conforms(reg, k, ty, m, false)
    ensures Encode(reg, k, ty, m) != Null
    ensures Decode(lib, reg, k, ty, Encode(reg, k, ty, m)) == Some(m)
    decreases k, 0, ty
  {
    Weaken(reg, k, ty, m);
    match ty {
      case TEnum(ref) => IndexOfDistinct(FindEnum(reg.enums, ref).value.values, m.tag);
      case TStruct(ref) => DecodeEncodeStruct(lib, reg, FindStruct(reg, k, ref).value, m);
      case TArray(items, _) =>
        var v := Encode(reg, k, ty, m);
        forall i | 0 <= i < |m.items|
          ensures Conforms(reg, k, items, m.items[i], false)
          ensures Decode(lib, reg, k, items, v.items[i]) == Some(m.items[i])
        {
          DecodeEncode(lib, reg, k, items, m.items[i]);
        }
        assert Decode(lib, reg, k, ty, v).value.items == m.items;
      case _ =>
    }
  }

  lemma {:induction false} DecodeEncodeStruct(lib: FloatLib, reg: Registry, j: nat, m: Msg)
    requires Ready(reg) && j < |reg.structs| && StructConforms(reg, j, m, true)
    ensures StructConforms(reg, j, m, false)
    ensures DecodeStruct(lib, reg, j, EncodeStruct(reg, j, m)) == Some(m)
    decreases j, 2
  {
    WeakenStruct(reg, j, m);
    assert ValidStruct(reg, j);
    EncodedKnown(reg, j, m);
    var members := EncodeFields(reg, j, m, |m.fields|);
    forall i | 0 <= i < |m.fields| ensures DecodeField(lib, reg, j, i, members) == Some(m.fields[i]) {
      DecodeEncodeField(lib, reg, j, m, i);
    }
    FieldsDecoded(lib, reg, j, members, m.fields, |m.fields|);
    assert m.fields[..|m.fields|] == m.fields;
  }

  lemma {:induction false} DecodeEncodeField(lib: FloatLib, reg: Registry, j: nat, m: Msg, i: nat)
    requires Ready(reg) && j < |reg.structs| && ValidStruct(reg, j) && i < |reg.structs[j].fields|
    requires StructConforms(reg, j, m, true) && StructConforms(reg, j, m, false)
    ensures DecodeField(lib, reg, j, i, EncodeFields(reg, j, m, |m.fields|)) == Some(m.fields[i])
    decreases j, 0
  {
    var f := reg.structs[j].fields[i];
    EncodedLookup(reg, j, m, |m.fields|, f.name);
    SlotUnique(reg, j, |m.fields|, i);
    if m.fields[i].Some? {
      DecodeEncode(lib, reg, j, Unwrap(f.ftype), m.fields[i].value);
    }
  }

  /** A struct decodes once every field of it does. */
  lemma {:induction false} FieldsDecoded(lib: FloatLib, reg: Registry, j: nat, members: Object,
                                         fields: seq<Option<Msg>>, n: nat)
    requires j < |reg.structs| && n <= |fields| == |reg.structs[j].fields|
    requires forall i | 0 <= i < n :: DecodeField(lib, reg, j, i, members) == Some(fields[i])
    ensures DecodeFields(lib, reg, j, members, n) == Some(fields[..n])
  {
    if n > 0 {
      FieldsDecoded(lib, reg, j, members, fields, n - 1);
      assert fields[..n] == fields[..n - 1] + [fields[n - 1]];
    }
  }

  // --- to_json after from_json ----------------------------------------------------------

  /** A value without the members that are explicitly null. */
  function Strip(v: Value): Value {
    match v
    case Arr(items) => Arr(seq(|items|, i requires 0 <= i < |items| => Strip(items[i])))
    case Obj(members) => Obj(StripMembers(members))
    case _ => v
  }

  function StripMembers(members: Object): Object {
    if members == [] then []
    else
      var rest := StripMembers(members[1..]);
      if members[0].value == Null then rest else [Member(members[0].key, Strip(members[0].value))] + rest
  }

  /** What is left under a key. */
  function Stripped(members: Object, key: string): Option<Value> {
    if Has(members, key) then Some(Strip(Find(members, key).value)) else None
  }

  lemma {:induction false} StripLookup(members: Object)
    requires Ascending(members)
    ensures Ascending(StripMembers(members))
    ensures forall key :: Above(members, key) ==> Above(StripMembers(members), key)
    ensures forall key :: Find(StripMembers(members), key) == Stripped(members, key)
  {
    if members != [] {
      var first, rest := members[0].key, members[1..];
      StripLookup(rest);
      forall key | Above(members, key) ensures Above(StripMembers(members), key) {
        assert Above(rest, key);
      }
      assert Above(rest, first);
      FindAbove(rest, first);
    }
  }

  /** No value inside is null. */
  predicate NullFree(v: Value) {
    match v
    case Null => false
    case Arr(items) => forall x | x in items :: NullFree(x)
    case Obj(members) => forall m | m in members :: NullFree(m.value)
    case _ => true
  }

  lemma {:induction false} StripNullFree(v: Value)
    requires NullFree(v)
    ensures Strip(v) == v
    decreases v
  {
    match v {
      case Arr(items) =>
        forall i | 0 <= i < |items| ensures Strip(items[i]) == items[i] {
          StripNullFree(items[i]);
        }
        assert Strip(v).items == items;
      case Obj(members) => StripNullFreeMembers(members);
      case _ =>
    }
  }

  lemma {:induction false} StripNullFreeMembers(members: Object)
    requires forall m | m in members :: NullFree(m.value)
    ensures StripMembers(members) == members
    decreases members
  {
    if members != [] {
      assert members[0] in members;
      StripNullFree(members[0].value);
      StripNullFreeMembers(members[1..]);
      assert members == [members[0]] + members[1..];
    }
  }

  lemma UnknownAbsent(members: Object, fields: seq<FieldDef>, key: string)
    requires KnownFields(members, fields) && forall i | 0 <= i < |fields| :: fields[i].name != key
    ensures Find(members, key) == None
  {
    if Find(members, key).Some? {
      var p := FindPresent(members, key);
    }
  }

  lemma {:induction false} EncodeDecode(lib: FloatLib, reg: Registry, k: nat, ty: FieldType, v: Value)
    requires Ready(reg) && k <= |reg.structs| && WellFormed(v) && DoubleFree(v)
    requires Decode(lib, reg, k, ty, v).Some?
    ensures var m := Decode(lib, reg, k, ty, v).value;
      && Conforms(reg, k, ty, m, true) && Conforms(reg, k, ty, m, false)
      && Encode(reg, k, ty, m) == Strip(v)
    decreases k, 0, ty
  {
    var m := Decode(lib, reg, k, ty, v).value;
    match ty {
      case TStruct(ref) => EncodeDecodeStruct(lib, reg, FindStruct(reg, k, ref).value, v);
      case TArray(items, _) =>
        forall i | 0 <= i < |v.items|
          ensures Conforms(reg, k, items, m.items[i], true) && Conforms(reg, k, items, m.items[i], false)
          ensures Encode(reg, k, items, m.items[i]) == Strip(v.items[i])
        {
          assert v.items[i] in v.items;
          EncodeDecode(lib, reg, k, items, v.items[i]);
        }
        assert Encode(reg, k, ty, m).items == Strip(v).items;
      case _ =>
    }
  }

  lemma {:induction false} EncodeDecodeFields(lib: FloatLib, reg: Registry, j: nat, v: Value)
    requires Ready(reg) && j < |reg.structs| && WellFormed(v) && DoubleFree(v)
    requires DecodeStruct(lib, reg, j, v).Some?
    ensures var m, fields := DecodeStruct(lib, reg, j, v).value, reg.structs[j].fields;
      && StructConforms(reg, j, m, true) && StructConforms(reg, j, m, false)
      && forall i | 0 <= i < |fields| :: EncodedField(reg, j, m, i) == Stripped(v.members, fields[i].name)
    decreases j, 1
  {
    var m, fields, members := DecodeStruct(lib, reg, j, v).value, reg.structs[j].fields, v.members;
    forall i | 0 <= i < |fields|
      ensures m.fields[i].None? ==> !Has(members, fields[i].name) && fields[i].ftype.TOptional?
      ensures m.fields[i].Some? ==>
        && Has(members, fields[i].name)
        && Conforms(reg, j, Unwrap(fields[i].ftype), m.fields[i].value, true)
        && Conforms(reg, j, Unwrap(fields[i].ftype), m.fields[i].value, false)
        && Encode(reg, j, Unwrap(fields[i].ftype), m.fields[i].value) == Strip(Find(members, fields[i].name).value)
    {
      DecodedFields(lib, reg, j, members, |fields|, i);
      if m.fields[i].Some? {
        var p := FindPresent(members, fields[i].name);
        assert members[p] in members;
        EncodeDecode(lib, reg, j, Unwrap(fields[i].ftype), members[p].value);
      }
    }
  }

  lemma {:induction false} EncodeDecodeStruct(lib: FloatLib, reg: Registry, j: nat, v: Value)
    requires Ready(reg) && j < |reg.structs| && WellFormed(v) && DoubleFree(v)
    requires DecodeStruct(lib, reg, j, v).Some?
    ensures var m := DecodeStruct(lib, reg, j, v).value;
      && StructConforms(reg, j, m, true) && StructConforms(reg, j, m, false)
      && EncodeStruct(reg, j, m) == Strip(v)
    decreases j, 2
  {
    var m, fields, members := DecodeStruct(lib, reg, j, v).value, reg.structs[j].fields, v.members;
    EncodeDecodeFields(lib, reg, j, v);
    assert ValidStruct(reg, j);
    StripLookup(members);
    var o := EncodeFields(reg, j, m, |fields|);
    EncodedLookup(reg, j, m, |fields|, "");
    forall key ensures Find(o, key) == Find(StripMembers(members), key) {
      EncodedLookup(reg, j, m, |fields|, key);
      if Slot(fields, |fields|, key).None? { UnknownAbsent(members, fields, key); }
    }
    Extensional(o, StripMembers(members));
  }

  // --- Depth ------------------------------------------------------------------------------

  /** How deep the values of a type nest. */
  ghost function TypeHeight(reg: Registry, k: nat, ty: FieldType): nat
    requires k <= |reg.structs|
    decreases k, 0, ty
  {
    match ty
    case TStruct(ref) =>
      var j := FindStruct(reg, k, ref);
      if j.Some? then StructHeight(reg, j.value) else 0
    case TArray(items, _) => 1 + TypeHeight(reg, k, items)
    case _ => 0
  }

  ghost function StructHeight(reg: Registry, j: nat): nat
    requires j < |reg.structs|
    decreases j, 2
  {
    1 + FieldsHeight(reg, j, |reg.structs[j].fields|)
  }

  ghost function FieldsHeight(reg: Registry, j: nat, n: nat): nat
    requires j < |reg.structs| && n <= |reg.structs[j].fields|
    decreases j, 1, n
  {
    if n == 0 then 0
    else Max(FieldsHeight(reg, j, n - 1), TypeHeight(reg, j, Unwrap(reg.structs[j].fields[n - 1].ftype)))
  }

  lemma {:induction false} EncodedShape(reg: Registry, k: nat, ty: FieldType, m: Msg)
    requires Ready(reg) && k <= |reg.structs| && Conforms(reg, k, ty, m, false)
    ensures var v := Encode(reg, k, ty, m); Bounded(v, TypeHeight(reg, k, ty)) && DoubleFree(v)
    decreases k, 0, ty
  {
    match ty {
      case TStruct(ref) => EncodedStructShape(reg, FindStruct(reg, k, ref).value, m);
      case TArray(items, _) =>
        var v := Encode(reg, k, ty, m);
        forall i | 0 <= i < |m.items|
          ensures Bounded(v.items[i], TypeHeight(reg, k, items)) && DoubleFree(v.items[i])
        {
          EncodedShape(reg, k, items, m.items[i]);
        }
        ItemsBounded(v.items, TypeHeight(reg, k, items));
      case _ =>
    }
  }

  lemma {:induction false} EncodedStructShape(reg: Registry, j: nat, m: Msg)
    requires Ready(reg) && j < |reg.structs| && StructConforms(reg, j, m, false)
    ensures var v := EncodeStruct(reg, j, m); Bounded(v, StructHeight(reg, j)) && DoubleFree(v)
    decreases j, 2
  {
    assert ValidStruct(reg, j);
    EncodedLookup(reg, j, m, |m.fields|, "");
    EncodedFieldsShape(reg, j, m, |m.fields|);
    MembersBounded(EncodeFields(reg, j, m, |m.fields|), FieldsHeight(reg, j, |m.fields|));
  }

  lemma {:induction false} EncodedFieldsShape(reg: Registry, j: nat, m: Msg, n: nat)
    requires Ready(reg) && j < |reg.structs| && StructConforms(reg, j, m, false) && n <= |m.fields|
    ensures forall x | x in EncodeFields(reg, j, m, n) ::
      Bounded(x.value, FieldsHeight(reg, j, n)) && DoubleFree(x.value)
    decreases j, 1, n
  {
    if n > 0 {
      EncodedFieldsShape(reg, j, m, n - 1);
      var f := reg.structs[j].fields[n - 1];
      if m.fields[n - 1].Some? {
        EncodedShape(reg, j, Unwrap(f.ftype), m.fields[n - 1].value);
        InsertMembers(EncodeFields(reg, j, m, n - 1), f.name, Encode(reg, j, Unwrap(f.ftype), m.fields[n - 1].value));
      }
    }
  }

  // --- The theorems -------------------------------------------------------------------------

  /** `from_json` undoes `to_json` on every message that meets the constraints. */
  lemma MessageRoundTrip(lib: FloatLib, reg: Registry, j: nat, m: Msg)
    requires Ready(reg) && j < |reg.structs| && StructConforms(reg, j, m, true)
    ensures StructConforms(reg, j, m, false) && DecodeStruct(lib, reg, j, EncodeStruct(reg, j, m)) == Some(m)
  {
    DecodeEncodeStruct(lib, reg, j, m);
  }

  /** What `from_json` accepts meets the constraints, and `to_json` gives it back unchanged. */
  lemma AcceptedRoundTrip(lib: FloatLib, reg: Registry, j: nat, v: Value)
    requires Ready(reg) && j < |reg.structs| && WellFormed(v) && DoubleFree(v) && NullFree(v)
    requires DecodeStruct(lib, reg, j, v).Some?
    ensures var m := DecodeStruct(lib, reg, j, v).value;
      StructConforms(reg, j, m, true) && StructConforms(reg, j, m, false) && EncodeStruct(reg, j, m) == v
  {
    EncodeDecodeStruct(lib, reg, j, v);
    StripNullFree(v);
  }

  /** Over the wire: encode, print, parse, decode. */
  lemma WireRoundTrip(lib: FloatLib, reg: Registry, j: nat, m: Msg)
    requires Ready(reg) && j < |reg.structs| && StructConforms(reg, j, m, true)
    requires StructHeight(reg, j) <= MAX_DEPTH
    ensures StructConforms(reg, j, m, false)
    ensures var parsed := Parse(lib, Text(lib, EncodeStruct(reg, j, m)));
      parsed.Some? && DecodeStruct(lib, reg, j, parsed.value) == Some(m)
  {
    DecodeEncodeStruct(lib, reg, j, m);
    EncodedStructShape(reg, j, m);
    RoundTrip(lib, EncodeStruct(reg, j, m));
  }
}
