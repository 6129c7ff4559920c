/** Which values `from_json` accepts, written out: the comparisons of the emitted checks, the
    formats by position and character class, and the gate's messages field by field. */
module CodecAcceptance {
  import opened Common
  import opened JsonValue
  import opened JsonGrammar
  import opened Schema
  import opened Codec
  import opened Messages

  // --- String formats ---------------------------------------------------------------

  predicate Digits(s: string) {
    forall i | 0 <= i < |s| :: '0' <= s[i] <= '9'
  }

  predicate Hexes(s: string) {
    forall i | 0 <= i < |s| :: '0' <= s[i] <= '9' || 'a' <= s[i] <= 'f' || 'A' <= s[i] <= 'F'
  }

  /** Three groups of digits with dots between them, then the end or anything but a dot. */
  predicate Dotted(s: string, a: string, b: string, c: string, rest: string) {
    && s == a + ("." + (b + ("." + (c + rest))))
    && a != "" && b != "" && c != "" && Digits(a) && Digits(b) && Digits(c)
    && (rest == "" || (rest[0] != '.' && !('0' <= rest[0] <= '9')))
  }

  ghost predicate HasFormat(format: Format, s: string) {
    match format
    case Hex => Hexes(s)
    case Base64 =>
      forall i | 0 <= i < |s| ::
        || 'A' <= s[i] <= 'Z' || 'a' <= s[i] <= 'z' || '0' <= s[i] <= '9'
        || s[i] == '+' || s[i] == '/' || s[i] == '='
    case Ip =>
      forall i | 0 <= i < |s| ::
        || '0' <= s[i] <= '9' || 'a' <= s[i] <= 'f' || 'A' <= s[i] <= 'F' || s[i] == '.' || s[i] == ':'
    case Uuid =>
      && |s| == 36 && s[8] == '-' && s[13] == '-' && s[18] == '-' && s[23] == '-'
      && Hexes(s[..8]) && Hexes(s[9..13]) && Hexes(s[14..18]) && Hexes(s[19..23]) && Hexes(s[24..])
    case Datetime =>
      && |s| >= 19
      && Digits(s[..4]) && s[4] == '-' && Digits(s[5..7]) && s[7] == '-' && Digits(s[8..10]) && s[10] == 'T'
      && Digits(s[11..13]) && s[13] == ':' && Digits(s[14..16]) && s[16] == ':' && Digits(s[17..19])
    case Semver => exists a, b, c, rest :: Dotted(s, a, b, c, rest)
  }

  lemma {:induction false} RunOfDigits(a: string, rest: string)
    requires Digits(a) && (rest == "" || !IsDigit(rest[0]))
    ensures DigitRun(a + rest) == |a| && (a + rest)[|a|..] == rest
  {
    assert forall i | 0 <= i < |a| :: (a + rest)[i] == a[i] && IsDigit(a[i]);
    assert rest != "" ==> (a + rest)[|a|] == rest[0];
  }

  lemma Group(a: string, rest: string, dots: nat)
    requires a != "" && Digits(a) && dots > 0
    ensures StartsVersion(a + ("." + rest), dots) == StartsVersion(rest, dots - 1)
  {
    RunOfDigits(a, "." + rest);
    assert (a + ("." + rest))[|a| + 1..] == rest;
  }

  lemma LastGroup(a: string, rest: string)
    requires a != "" && Digits(a) && (rest == "" || (rest[0] != '.' && !IsDigit(rest[0])))
    ensures StartsVersion(a + rest, 0)
  {
    RunOfDigits(a, rest);
  }

  /** The digits that start `s`, and what follows them. */
  lemma TakeGroup(s: string) returns (a: string, rest: string)
    requires DigitRun(s) > 0
    ensures s == a + rest && a != "" && Digits(a) && rest == s[DigitRun(s)..]
    ensures rest != "" ==> !IsDigit(rest[0]) && rest[0] == s[DigitRun(s)] && rest[1..] == s[DigitRun(s) + 1..]
  {
    var n := DigitRun(s);
    a, rest := s[..n], s[n..];
  }

  lemma DotFound(rest: string)
    requires rest != "" && rest[0] == '.'
    ensures rest == "." + rest[1..]
  {
  }

  lemma DottedVersion(s: string, a: string, b: string, c: string, rest: string)
    requires Dotted(s, a, b, c, rest)
    ensures IsSemver(s)
  {
    Group(a, b + ("." + (c + rest)), 2);
    Group(b, c + rest, 1);
    LastGroup(c, rest);
  }

  /** The first of several groups, and the text after its dot. */
  lemma TakeDotted(s: string, dots: nat) returns (a: string, rest: string)
    requires StartsVersion(s, dots) && dots > 0
    ensures s == a + ("." + rest) && a != "" && Digits(a) && StartsVersion(rest, dots - 1)
  {
    var after;
    a, after := TakeGroup(s);
    DotFound(after);
    rest := after[1..];
  }

  lemma VersionDotted(s: string) returns (a: string, b: string, c: string, rest: string)
    requires IsSemver(s)
    ensures Dotted(s, a, b, c, rest)
  {
    var afterA, afterB;
    a, afterA := TakeDotted(s, 2);
    b, afterB := TakeDotted(afterA, 1);
    c, rest := TakeGroup(afterB);
  }

  lemma SemverExactly(s: string)
    ensures IsSemver(s) <==> exists a, b, c, rest :: Dotted(s, a, b, c, rest)
  {
    if a, b, c, rest :| Dotted(s, a, b, c, rest) {
      DottedVersion(s, a, b, c, rest);
    }
    if IsSemver(s) {
      var a, b, c, rest := VersionDotted(s);
    }
  }

  lemma HexRange(s: string, from: nat, to: nat)
    requires from <= to <= |s|
    ensures Hexes(s[from..to]) <==> forall i | from <= i < to :: IsHex(s[i])
  {
    assert forall i | from <= i < to :: s[from..to][i - from] == s[i];
  }

  lemma DigitRange(s: string, from: nat, to: nat)
    requires from <= to <= |s|
    ensures Digits(s[from..to]) <==> forall i | from <= i < to :: IsDigit(s[i])
  {
    assert forall i | from <= i < to :: s[from..to][i - from] == s[i];
  }

  lemma UuidExactly(s: string)
    ensures IsUuid(s) <==> HasFormat(Format.Uuid, s)
  {
    if |s| == 36 {
      HexRange(s, 0, 8);
      HexRange(s, 9, 13);
      HexRange(s, 14, 18);
      HexRange(s, 19, 23);
      HexRange(s, 24, 36);
      assert s[..8] == s[0..8] && s[24..] == s[24..36];
    }
  }

  lemma DatetimeExactly(s: string)
    ensures IsDatetime(s) <==> HasFormat(Format.Datetime, s)
  {
    if |s| >= 19 {
      DigitRange(s, 0, 4);
      DigitRange(s, 5, 7);
      DigitRange(s, 8, 10);
      DigitRange(s, 11, 13);
      DigitRange(s, 14, 16);
      DigitRange(s, 17, 19);
      assert s[..4] == s[0..4];
    }
  }

  lemma FormatExactly(format: Format, s: string)
    ensures FormatOk(Some(format), s) <==> HasFormat(format, s)
  {
    match format {
      case Uuid => UuidExactly(s);
      case Datetime => DatetimeExactly(s);
      case Semver => SemverExactly(s);
      case Hex =>
      case Base64 =>
      case Ip =>
    }
  }

  // --- Acceptance, type by type -------------------------------------------------------

  /** What stands under a name; absent and null are the same. */
  function Given(members: Object, name: string): Option<Value> {
    match Find(members, name)
    case Some(Null) => None
    case other => other
  }

  function Whole(lib: FloatLib, v: Value): int
    requires v.Int? || v.Double?
  {
    match v
    case Int(i) => i
    case Double(bits) => lib.toInt(bits)
  }

  ghost predicate Accepts(lib: FloatLib, reg: Registry, k: nat, ty: FieldType, v: Value)
    requires k <= |reg.structs|
    decreases k, 0, ty
  {
    match ty
    case TString(format, minLength, maxLength) =>
      && v.Str?
      && (minLength.Some? ==> |v.s| >= minLength.value)
      && (maxLength.Some? ==> |v.s| <= maxLength.value)
      && (format.Some? ==> HasFormat(format.value, v.s))
    case TInt(min, max) =>
      && (v.Int? || v.Double?)
      && (min.Some? ==> Whole(lib, v) >= min.value)
      && (max.Some? ==> Whole(lib, v) <= max.value)
    case TBool => v.Bool?
    case TEnum(ref) =>
      v.Str? && FindEnum(reg.enums, ref).Some? && v.s in FindEnum(reg.enums, ref).value.values
    case TStruct(ref) =>
      FindStruct(reg, k, ref).Some? && AcceptsStruct(lib, reg, FindStruct(reg, k, ref).value, v)
    case TArray(items, maxItems) =>
      && v.Arr?
      && (maxItems.Some? ==> |v.items| <= maxItems.value)
      && forall i | 0 <= i < |v.items| :: Accepts(lib, reg, k, items, v.items[i])
    case TOptional(_) => false
  }

  ghost predicate Declared(fields: seq<FieldDef>, key: string) {
    exists i :: 0 <= i < |fields| && fields[i].name == key
  }

  /** An object with declared keys only, every mandatory field, and acceptable values. */
  ghost predicate AcceptsStruct(lib: FloatLib, reg: Registry, j: nat, v: Value)
    requires j < |reg.structs|
    decreases j, 2
  {
    var fields := reg.structs[j].fields;
    && v.Obj?
    && (forall p | 0 <= p < |v.members| :: Declared(fields, v.members[p].key))
    && (forall i | 0 <= i < |fields| :: AcceptsField(lib, reg, j, fields[i], v.members))
  }

  ghost predicate AcceptsField(lib: FloatLib, reg: Registry, j: nat, f: FieldDef, members: Object)
    requires j < |reg.structs|
    decreases j, 1
  {
    match Given(members, f.name)
    case None => f.ftype.TOptional?
    case Some(v) => Accepts(lib, reg, j, if f.ftype.TOptional? then f.ftype.inner else f.ftype, v)
  }

  lemma {:induction false} IndexOfExactly(values: seq<string>, text: string)
    ensures IndexOf(values, text).Some? <==> text in values
  {
    if values != [] {
      IndexOfExactly(values[1..], text);
    }
  }

  lemma GivenHas(members: Object, name: string)
    ensures Has(members, name) == Given(members, name).Some?
    ensures Has(members, name) ==> Given(members, name) == Find(members, name)
  {
  }

  /** `from_json` accepts exactly these values, and reads scalars as they are. */
  lemma {:induction false} DecodesExactly(lib: FloatLib, reg: Registry, k: nat, ty: FieldType, v: Value)
    requires k <= |reg.structs|
    ensures Decode(lib, reg, k, ty, v).Some? <==> Accepts(lib, reg, k, ty, v)
    ensures Accepts(lib, reg, k, ty, v) ==>
      (match ty
       case TString(_, _, _) => Decode(lib, reg, k, ty, v) == Some(MStr(v.s))
       case TInt(_, _) => Decode(lib, reg, k, ty, v) == Some(MInt(Whole(lib, v)))
       case TBool => Decode(lib, reg, k, ty, v) == Some(MBool(v.b))
       case _ => true)
    decreases k, 0, ty
  {
    match ty {
      case TString(format, _, _) => if v.Str? && format.Some? { FormatExactly(format.value, v.s); }
      case TInt(_, _) =>
      case TBool =>
      case TEnum(ref) =>
        var e := FindEnum(reg.enums, ref);
        if v.Str? && e.Some? { IndexOfExactly(e.value.values, v.s); }
      case TStruct(ref) =>
        var j := FindStruct(reg, k, ref);
        if j.Some? { StructDecodesExactly(lib, reg, j.value, v); }
      case TArray(items, maxItems) =>
        if v.Arr? {
          forall i | 0 <= i < |v.items|
            ensures Decode(lib, reg, k, items, v.items[i]).Some? <==> Accepts(lib, reg, k, items, v.items[i])
          {
            DecodesExactly(lib, reg, k, items, v.items[i]);
          }
        }
      case TOptional(_) =>
    }
  }

  lemma {:induction false} StructDecodesExactly(lib: FloatLib, reg: Registry, j: nat, v: Value)
    requires j < |reg.structs|
    ensures DecodeStruct(lib, reg, j, v).Some? <==> AcceptsStruct(lib, reg, j, v)
    decreases j, 4
  {
    if v.Obj? {
      var fields := reg.structs[j].fields;
      KnownExactly(v.members, fields);
      FieldsDecodeExactly(lib, reg, j, v.members, |fields|);
    }
  }

  lemma KnownExactly(members: Object, fields: seq<FieldDef>)
    ensures KnownFields(members, fields) <==> forall p | 0 <= p < |members| :: Declared(fields, members[p].key)
  {
    if KnownFields(members, fields) {
      forall p | 0 <= p < |members| ensures Declared(fields, members[p].key) {
        assert members[p] in members;
      }
    } else {
      var m :| m in members && !Declared(fields, m.key);
      var p :| 0 <= p < |members| && members[p] == m;
    }
  }

  lemma {:induction false} FieldsDecodeExactly(lib: FloatLib, reg: Registry, j: nat, members: Object, n: nat)
    requires j < |reg.structs| && n <= |reg.structs[j].fields|
    ensures DecodeFields(lib, reg, j, members, n).Some? <==>
      forall i | 0 <= i < n :: AcceptsField(lib, reg, j, reg.structs[j].fields[i], members)
    decreases j, 3, n
  {
    if n > 0 {
      FieldsDecodeExactly(lib, reg, j, members, n - 1);
      FieldDecodesExactly(lib, reg, j, n - 1, members);
    }
  }

  lemma {:induction false} FieldDecodesExactly(lib: FloatLib, reg: Registry, j: nat, i: nat, members: Object)
    requires j < |reg.structs| && i < |reg.structs[j].fields|
    ensures DecodeField(lib, reg, j, i, members).Some? <==>
      AcceptsField(lib, reg, j, reg.structs[j].fields[i], members)
    decreases j, 2
  {
    var f := reg.structs[j].fields[i];
    GivenHas(members, f.name);
    if Has(members, f.name) {
      DecodesExactly(lib, reg, j, Unwrap(f.ftype), Find(members, f.name).value);
    }
  }
}
