/** The meaning of the emitted C++ codec, as an interpreter of field types: which messages a
    type describes, and what `to_json` and `from_json` do with them. */
module Codec {
  import opened Common
  import opened JsonValue
  import opened JsonGrammar
  import opened Schema

  /** A message. An enumerator is its position; a struct lists its fields in order, an absent
      optional as `None`. */
  datatype Msg =
    | MStr(s: string)
    | MInt(i: Int64)
    | MBool(b: bool)
    | MEnum(tag: nat)
    | MArr(items: seq<Msg>)
    | MStruct(fields: seq<Option<Msg>>)

  // --- String formats --------------------------------------------------------------

  predicate IsBase64Char(c: char) {
    'A' <= c <= 'Z' || 'a' <= c <= 'z' || IsDigit(c) || c == '+' || c == '/' || c == '='
  }

  predicate IsIpChar(c: char) {
    IsHex(c) || c == '.' || c == ':'
  }

  predicate IsUuid(s: string) {
    |s| == 36 && forall i | 0 <= i < 36 :: if i == 8 || i == 13 || i == 18 || i == 23 then s[i] == '-' else IsHex(s[i])
  }

  predicate IsDatetime(s: string) {
    |s| >= 19 && forall i | 0 <= i < 19 ::
      if i == 4 || i == 7 then s[i] == '-'
      else if i == 10 then s[i] == 'T'
      else if i == 13 || i == 16 then s[i] == ':'
      else IsDigit(s[i])
  }

  predicate IsSemver(s: string) {
    StartsVersion(s, 2)
  }

  /** `dots + 1` groups of digits joined by dots, then the end or something other than a dot. */
  predicate StartsVersion(s: string, dots: nat) {
    var n := DigitRun(s);
    && n > 0
    && if dots > 0 then n < |s| && s[n] == '.' && StartsVersion(s[n + 1..], dots - 1)
       else n == |s| || s[n] != '.'
  }

  /** What the loop of `is_semver` answers from a state in the middle. */
  predicate SemverFrom(s: string, dots: nat, digits: bool)
    requires dots <= 2
  {
    if digits then
      var n := DigitRun(s);
      if dots < 2 then n < |s| && s[n] == '.' && StartsVersion(s[n + 1..], 1 - dots)
      else n == |s| || s[n] != '.'
    else StartsVersion(s, 2 - dots)
  }

  lemma SemverDigit(s: string, dots: nat, digits: bool)
    requires dots <= 2 && s != "" && IsDigit(s[0])
    ensures SemverFrom(s, dots, digits) == SemverFrom(s[1..], dots, true)
  {
    var n := DigitRun(s);
    assert DigitRun(s[1..]) == n - 1;
    assert n < |s| ==> s[1..][n - 1] == s[n] && s[1..][n..] == s[n + 1..];
  }

  lemma SemverDot(s: string, dots: nat, digits: bool)
    requires dots <= 2 && s != "" && s[0] == '.'
    ensures SemverFrom(s, dots, digits) == (digits && dots < 2 && SemverFrom(s[1..], dots + 1, false))
  {
    assert DigitRun(s) == 0;
  }

  lemma SemverStop(s: string, dots: nat, digits: bool)
    requires dots <= 2 && (s == "" || (!IsDigit(s[0]) && s[0] != '.'))
    ensures SemverFrom(s, dots, digits) == (digits && dots == 2)
  {
    assert DigitRun(s) == 0;
  }

  method CheckSemver(text: string) returns (ok: bool)
    ensures ok == IsSemver(text)
  {
    var dots, digits, i := 0, false, 0;
    while i < |text|
      invariant 0 <= i <= |text| && 0 <= dots <= 2
      invariant SemverFrom(text[i..], dots, digits) == IsSemver(text)
    {
      var c := text[i];
      ghost var s := text[i..];
      assert s[1..] == text[i + 1..];
      if IsDigit(c) {
        SemverDigit(s, dots, digits);
        digits := true;
      } else if c == '.' {
        SemverDot(s, dots, digits);
        if !digits { return false; }
        digits := false;
        dots := dots + 1;
        if dots > 2 { break; }
      } else {
        break;
      }
      i := i + 1;
    }
    if dots <= 2 { SemverStop(text[i..], dots, digits); }
    ok := dots >= 2 && digits;
  }

  predicate FormatOk(format: Option<Format>, s: string) {
    match format
    case None => true
    case Some(Hex) => forall i | 0 <= i < |s| :: IsHex(s[i])
    case Some(Base64) => forall i | 0 <= i < |s| :: IsBase64Char(s[i])
    case Some(Ip) => forall i | 0 <= i < |s| :: IsIpChar(s[i])
    case Some(Uuid) => IsUuid(s)
    case Some(Datetime) => IsDatetime(s)
    case Some(Semver) => IsSemver(s)
  }

  predicate AtLeast(n: int, bound: Option<int>) {
    bound.Some? ==> n >= bound.value
  }

  predicate AtMost(n: int, bound: Option<int>) {
    bound.Some? ==> n <= bound.value
  }

  function AsInt(bound: Option<nat>): Option<int> {
    match bound case None => None case Some(n) => Some(n)
  }

  predicate StringOk(ty: FieldType, s: string)
    requires ty.TString?
  {
    AtLeast(|s|, AsInt(ty.minLength)) && AtMost(|s|, AsInt(ty.maxLength)) && FormatOk(ty.format, s)
  }

  // --- Which messages a type describes ------------------------------------------------

  /** With `checked`, the message also meets the declared constraints; without, it is only of
      the mapped C++ type. Struct references reach the first `k` structs. */
  ghost predicate Conforms(reg: Registry, k: nat, ty: FieldType, m: Msg, checked: bool)
    requires k <= |reg.structs|
    decreases k, 0, ty
  {
    match ty
    case TString(_, _, _) => m.MStr? && (checked ==> StringOk(ty, m.s))
    case TInt(min, max) => m.MInt? && (checked ==> AtLeast(m.i, min) && AtMost(m.i, max))
    case TBool => m.MBool?
    case TEnum(ref) =>
      var e := FindEnum(reg.enums, ref);
      m.MEnum? && e.Some? && m.tag < |e.value.values|
    case TStruct(ref) =>
      var j := FindStruct(reg, k, ref);
      j.Some? && StructConforms(reg, j.value, m, checked)
    case TArray(items, maxItems) =>
      && m.MArr?
      && (checked ==> AtMost(|m.items|, AsInt(maxItems)))
      && forall i | 0 <= i < |m.items| :: Conforms(reg, k, items, m.items[i], checked)
    case TOptional(_) => false
  }

  ghost predicate StructConforms(reg: Registry, j: nat, m: Msg, checked: bool)
    requires j < |reg.structs|
    decreases j, 1
  {
    var fields := reg.structs[j].fields;
    && m.MStruct?
    && |m.fields| == |fields|
    && forall i | 0 <= i < |fields| ::
         && (m.fields[i].None? ==> fields[i].ftype.TOptional?)
         && (m.fields[i].Some? ==> Conforms(reg, j, Unwrap(fields[i].ftype), m.fields[i].value, checked))
  }

  // --- to_json -----------------------------------------------------------------------

  ghost function Encode(reg: Registry, k: nat, ty: FieldType, m: Msg): Value
    requires k <= |reg.structs| && Conforms(reg, k, ty, m, false)
    decreases k, 0, ty
  {
    match ty
    case TString(_, _, _) => Str(m.s)
    case TInt(_, _) => Int(m.i)
    case TBool => Bool(m.b)
    case TEnum(ref) => Str(FindEnum(reg.enums, ref).value.values[m.tag])
    case TStruct(ref) => EncodeStruct(reg, FindStruct(reg, k, ref).value, m)
    case TArray(items, _) =>
      Arr(seq(|m.items|, i requires 0 <= i < |m.items| => Encode(reg, k, items, m.items[i])))
  }

  ghost function EncodeStruct(reg: Registry, j: nat, m: Msg): Value
    requires j < |reg.structs| && StructConforms(reg, j, m, false)
    decreases j, 2
  {
    Obj(EncodeFields(reg, j, m, |m.fields|))
  }

  /** The object after the first `n` fields were assigned. */
  ghost function EncodeFields(reg: Registry, j: nat, m: Msg, n: nat): Object
    requires j < |reg.structs| && StructConforms(reg, j, m, false) && n <= |m.fields|
    decreases j, 1, n
  {
    if n == 0 then []
    else
      var front, f := EncodeFields(reg, j, m, n - 1), reg.structs[j].fields[n - 1];
      if m.fields[n - 1].None? then front
      else InsertOrAssign(front, f.name, Encode(reg, j, Unwrap(f.ftype), m.fields[n - 1].value))
  }

  // --- from_json ---------------------------------------------------------------------

  /** `Value::has`: absent and null are the same. */
  predicate Has(members: Object, name: string) {
    Find(members, name).Some? && Find(members, name) != Some(Null)
  }

  function AsNumber(lib: FloatLib, v: Value): Int64
    requires v.Int? || v.Double?
  {
    if v.Int? then v.i else lib.toInt(v.bits)
  }

  /** `from_wire`: the first enumerator with that wire value. */
  function IndexOf(values: seq<string>, text: string): (r: Option<nat>)
    ensures r.Some? ==> r.value < |values| && values[r.value] == text
  {
    if values == [] then None
    else if values[0] == text then Some(0)
    else match IndexOf(values[1..], text)
      case None => None
      case Some(i) => Some(i + 1)
  }

  ghost predicate KnownFields(members: Object, fields: seq<FieldDef>) {
    forall m | m in members :: exists i :: 0 <= i < |fields| && fields[i].name == m.key
  }

  ghost function Decode(lib: FloatLib, reg: Registry, k: nat, ty: FieldType, v: Value): Option<Msg>
    requires k <= |reg.structs|
    decreases k, 0, ty
  {
    match ty
    case TString(_, _, _) => if v.Str? && StringOk(ty, v.s) then Some(MStr(v.s)) else None
    case TInt(min, max) =>
      if v.Int? || v.Double? then
        var n := AsNumber(lib, v);
        if AtLeast(n, min) && AtMost(n, max) then Some(MInt(n)) else None
      else None
    case TBool => if v.Bool? then Some(MBool(v.b)) else None
    case TEnum(ref) =>
      var e := FindEnum(reg.enums, ref);
      if v.Str? && e.Some? && IndexOf(e.value.values, v.s).Some? then Some(MEnum(IndexOf(e.value.values, v.s).value))
      else None
    case TStruct(ref) =>
      var j := FindStruct(reg, k, ref);
      if j.Some? then DecodeStruct(lib, reg, j.value, v) else None
    case TArray(items, maxItems) =>
      if v.Arr? && AtMost(|v.items|, AsInt(maxItems))
         && forall i | 0 <= i < |v.items| :: Decode(lib, reg, k, items, v.items[i]).Some? then
        Some(MArr(seq(|v.items|, i requires 0 <= i < |v.items| => Decode(lib, reg, k, items, v.items[i]).value)))
      else None
    case TOptional(_) => None
  }

  ghost function DecodeStruct(lib: FloatLib, reg: Registry, j: nat, v: Value): Option<Msg>
    requires j < |reg.structs|
    decreases j, 3
  {
    var fields := reg.structs[j].fields;
    if v.Obj? && KnownFields(v.members, fields) then
      match DecodeFields(lib, reg, j, v.members, |fields|)
      case None => None
      case Some(values) => Some(MStruct(values))
    else None
  }

  /** The first `n` fields. */
  ghost function DecodeFields(lib: FloatLib, reg: Registry, j: nat, members: Object,
                              n: nat): (r: Option<seq<Option<Msg>>>)
    requires j < |reg.structs| && n <= |reg.structs[j].fields|
    ensures r.Some? ==> |r.value| == n
    decreases j, 2, n
  {
    if n == 0 then Some([])
    else
      var front := DecodeFields(lib, reg, j, members, n - 1);
      var last := DecodeField(lib, reg, j, n - 1, members);
      if front.None? || last.None? then None else Some(front.value + [last.value])
  }

  ghost function DecodeField(lib: FloatLib, reg: Registry, j: nat, i: nat, members: Object): Option<Option<Msg>>
    requires j < |reg.structs| && i < |reg.structs[j].fields|
    decreases j, 1
  {
    var f := reg.structs[j].fields[i];
    if !Has(members, f.name) then
      if f.ftype.TOptional? then Some(None) else None
    else match Decode(lib, reg, j, Unwrap(f.ftype), Find(members, f.name).value)
      case None => None
      case Some(m) => Some(Some(m))
  }

  // --- The emitted code ------------------------------------------------------------------

  method ToJson(reg: Registry, k: nat, ty: FieldType, m: Msg) returns (v: Value)
    requires k <= |reg.structs| && Conforms(reg, k, ty, m, false)
    ensures v == Encode(reg, k, ty, m)
    decreases k, 0, ty
  {
    match ty {
      case TString(_, _, _) => v := Str(m.s);
      case TInt(_, _) => v := Int(m.i);
      case TBool => v := Bool(m.b);
      case TEnum(ref) => v := Str(FindEnum(reg.enums, ref).value.values[m.tag]);
      case TStruct(ref) => v := StructToJson(reg, FindStruct(reg, k, ref).value, m);
      case TArray(items, _) =>
        ghost var all := Encode(reg, k, ty, m).items;
        var elements := [];
        for i := 0 to |m.items|
          invariant elements == all[..i]
        {
          var element := ToJson(reg, k, items, m.items[i]);
          elements := elements + [element];
        }
        v := Arr(elements);
    }
  }

  method StructToJson(reg: Registry, j: nat, m: Msg) returns (v: Value)
    requires j < |reg.structs| && StructConforms(reg, j, m, false)
    ensures v == EncodeStruct(reg, j, m)
    decreases j, 1
  {
    var members: Object := [];
    for i := 0 to |m.fields|
      invariant members == EncodeFields(reg, j, m, i)
    {
      var f := reg.structs[j].fields[i];
      if m.fields[i].Some? {
        var value := ToJson(reg, j, Unwrap(f.ftype), m.fields[i].value);
        members := InsertOrAssign(members, f.name, value);
      }
    }
    v := Obj(members);
  }

  method FromJson(lib: FloatLib, reg: Registry, k: nat, ty: FieldType, v: Value) returns (out: Option<Msg>)
    requires k <= |reg.structs|
    ensures out == Decode(lib, reg, k, ty, v)
    decreases k, 0, ty, 0
  {
    out := None;
    match ty {
      case TString(_, _, _) => if v.Str? && StringOk(ty, v.s) { out := Some(MStr(v.s)); }
      case TInt(min, max) =>
        if v.Int? || v.Double? {
          var n := AsNumber(lib, v);
          if AtLeast(n, min) && AtMost(n, max) { out := Some(MInt(n)); }
        }
      case TBool => if v.Bool? { out := Some(MBool(v.b)); }
      case TEnum(ref) =>
        var e := FindEnum(reg.enums, ref);
        if v.Str? && e.Some? {
          var i := IndexOf(e.value.values, v.s);
          if i.Some? { out := Some(MEnum(i.value)); }
        }
      case TStruct(ref) =>
        var j := FindStruct(reg, k, ref);
        if j.Some? { out := StructFromJson(lib, reg, j.value, v); }
      case TArray(items, maxItems) =>
        if v.Arr? && AtMost(|v.items|, AsInt(maxItems)) {
          out := ArrayFromJson(lib, reg, k, items, v.items);
          if out.Some? {
            assert out.value.items == Decode(lib, reg, k, ty, v).value.items;
          }
        }
      case TOptional(_) =>
    }
  }

  /** The loop over array elements, filling a vector. */
  method ArrayFromJson(lib: FloatLib, reg: Registry, k: nat, items: FieldType, elements: seq<Value>)
    returns (out: Option<Msg>)
    requires k <= |reg.structs|
    ensures out.None? <==> exists i :: 0 <= i < |elements| && Decode(lib, reg, k, items, elements[i]).None?
    ensures out.Some? ==> out.value.MArr? && |out.value.items| == |elements|
    ensures out.Some? ==> forall i | 0 <= i < |elements| ::
      Decode(lib, reg, k, items, elements[i]) == Some(out.value.items[i])
    decreases k, 0, items, 1
  {
    var vector := [];
    for n := 0 to |elements|
      invariant |vector| == n
      invariant forall i | 0 <= i < n :: Decode(lib, reg, k, items, elements[i]) == Some(vector[i])
    {
      var item := FromJson(lib, reg, k, items, elements[n]);
      if item.None? { return None; }
      vector := vector + [item.value];
    }
    out := Some(MArr(vector));
  }

  /** `reject_unknown_fields`. */
  method RejectUnknownFields(members: Object, fields: seq<FieldDef>) returns (ok: bool)
    ensures ok == KnownFields(members, fields)
  {
    for n := 0 to |members|
      invariant KnownFields(members[..n], fields)
    {
      var found := false;
      for i := 0 to |fields|
        invariant !found
        invariant forall p | 0 <= p < i :: fields[p].name != members[n].key
      {
        if members[n].key == fields[i].name {
          found := true;
          break;
        }
      }
      if !found {
        assert members[n] in members;
        return false;
      }
    }
    assert members[..|members|] == members;
    ok := true;
  }

  lemma {:induction false} FieldsFail(lib: FloatLib, reg: Registry, j: nat, members: Object, n: nat, end: nat)
    requires j < |reg.structs| && n <= end <= |reg.structs[j].fields|
    requires DecodeFields(lib, reg, j, members, n).None?
    ensures DecodeFields(lib, reg, j, members, end).None?
  {
    if n < end {
      FieldsFail(lib, reg, j, members, n, end - 1);
    }
  }

  method StructFromJson(lib: FloatLib, reg: Registry, j: nat, v: Value) returns (out: Option<Msg>)
    requires j < |reg.structs|
    ensures out == DecodeStruct(lib, reg, j, v)
    decreases j, 1
  {
    if !v.Obj? { return None; }
    var fields := reg.structs[j].fields;
    var known := RejectUnknownFields(v.members, fields);
    if !known { return None; }
    var values: seq<Option<Msg>> := [];
    for i := 0 to |fields|
      invariant DecodeFields(lib, reg, j, v.members, i) == Some(values)
    {
      var f := fields[i];
      if Has(v.members, f.name) {
        var parsed := FromJson(lib, reg, j, Unwrap(f.ftype), Find(v.members, f.name).value);
        if parsed.None? {
          FieldsFail(lib, reg, j, v.members, i + 1, |fields|);
          return None;
        }
        values := values + [parsed];
      } else if f.ftype.TOptional? {
        values := values + [None];
      } else {
        FieldsFail(lib, reg, j, v.members, i + 1, |fields|);
        return None;
      }
    }
    out := Some(MStruct(values));
  }
}
