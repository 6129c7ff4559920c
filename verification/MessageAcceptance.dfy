/** The gate's messages field by field: which objects the emitted decoders accept, with every
    name, bound and wire value written out. */
module MessageAcceptance {
  import opened Common
  import opened JsonValue
  import opened JsonGrammar
  import opened Schema
  import opened Codec
  import opened Messages
  import opened CodecAcceptance

  // --- What a field may hold ----------------------------------------------------------

  predicate OnlyKeys(members: Object, names: seq<string>) {
    forall p | 0 <= p < |members| :: members[p].key in names
  }

  predicate IsString(v: Option<Value>) {
    v.Some? && v.value.Str?
  }

  predicate UpToChars(v: Option<Value>, most: nat) {
    IsString(v) && |v.value.s| <= most
  }

  predicate OneOf(v: Option<Value>, words: seq<string>) {
    IsString(v) && v.value.s in words
  }

  predicate IsBool(v: Option<Value>) {
    v.Some? && v.value.Bool?
  }

  predicate AtLeastNumber(lib: FloatLib, v: Option<Value>, least: int) {
    v.Some? && (v.value.Int? || v.value.Double?) && Whole(lib, v.value) >= least
  }

  // --- The structs -------------------------------------------------------------------

  ghost predicate FeaturesOk(v: Value) {
    && v.Obj?
    && OnlyKeys(v.members, ["secureBoot", "hvci", "testSigning", "kernelDebugging", "driverBlocklist", "iommu",
                            "virtualizationBasedSecurity"])
    && OneOf(Given(v.members, "secureBoot"), ["enabled", "disabled", "unknown"])
    && OneOf(Given(v.members, "hvci"), ["enabled", "disabled", "unknown"])
    && OneOf(Given(v.members, "testSigning"), ["enabled", "disabled", "unknown"])
    && OneOf(Given(v.members, "kernelDebugging"), ["enabled", "disabled", "unknown"])
    && OneOf(Given(v.members, "driverBlocklist"), ["enabled", "disabled", "unknown"])
    && OneOf(Given(v.members, "iommu"), ["enabled", "disabled", "unknown"])
    && OneOf(Given(v.members, "virtualizationBasedSecurity"), ["enabled", "disabled", "unknown"])
  }

  ghost predicate TpmOk(v: Value) {
    && v.Obj?
    && OnlyKeys(v.members, ["present", "manufacturer", "specVersion", "attestationKeyId"])
    && IsBool(Given(v.members, "present"))
    && (Given(v.members, "manufacturer").None? || UpToChars(Given(v.members, "manufacturer"), 64))
    && (Given(v.members, "specVersion").None? || UpToChars(Given(v.members, "specVersion"), 32))
    && var key := Given(v.members, "attestationKeyId");
       key.None? || (UpToChars(key, 128) && Hexes(key.value.s))
  }

  ghost predicate GameProcessOk(lib: FloatLib, v: Value) {
    && v.Obj?
    && OnlyKeys(v.members, ["pid", "startedAtUnixMs", "imageName", "mainWindowPresent"])
    && AtLeastNumber(lib, Given(v.members, "pid"), 1)
    && AtLeastNumber(lib, Given(v.members, "startedAtUnixMs"), 0)
    && UpToChars(Given(v.members, "imageName"), 128)
    && IsBool(Given(v.members, "mainWindowPresent"))
  }

  ghost predicate SnapshotOk(lib: FloatLib, v: Value) {
    && v.Obj?
    && OnlyKeys(v.members, ["schemaVersion", "collectedAt", "companionVersion", "companionBuildHash", "osBuild",
                            "features", "tpm", "gameProcess", "probeErrors"])
    && AtLeastNumber(lib, Given(v.members, "schemaVersion"), 1)
    && IsString(Given(v.members, "collectedAt")) && HasFormat(Datetime, Given(v.members, "collectedAt").value.s)
    && UpToChars(Given(v.members, "companionVersion"), 32)
    && HasFormat(Semver, Given(v.members, "companionVersion").value.s)
    && IsString(Given(v.members, "companionBuildHash"))
    && |Given(v.members, "companionBuildHash").value.s| == 64
    && Hexes(Given(v.members, "companionBuildHash").value.s)
    && UpToChars(Given(v.members, "osBuild"), 64)
    && Given(v.members, "features").Some? && FeaturesOk(Given(v.members, "features").value)
    && Given(v.members, "tpm").Some? && TpmOk(Given(v.members, "tpm").value)
    && (Given(v.members, "gameProcess").Some? ==> GameProcessOk(lib, Given(v.members, "gameProcess").value))
    && NotesOk(Given(v.members, "probeErrors"))
  }

  ghost predicate NotesOk(v: Option<Value>) {
    && v.Some? && v.value.Arr? && |v.value.items| <= 32
    && forall i | 0 <= i < |v.value.items| :: UpToChars(Some(v.value.items[i]), 200)
  }

  ghost predicate QuoteOk(lib: FloatLib, v: Value) {
    && v.Obj?
    && OnlyKeys(v.members, ["akPublicKeyId", "pcrSelection", "pcrDigest", "quoteBlob", "signature"])
    && UpToChars(Given(v.members, "akPublicKeyId"), 128) && Hexes(Given(v.members, "akPublicKeyId").value.s)
    && SelectionOk(lib, Given(v.members, "pcrSelection"))
    && UpToChars(Given(v.members, "pcrDigest"), 128) && Hexes(Given(v.members, "pcrDigest").value.s)
    && UpToChars(Given(v.members, "quoteBlob"), 8192)
    && HasFormat(Format.Base64, Given(v.members, "quoteBlob").value.s)
    && UpToChars(Given(v.members, "signature"), 2048)
    && HasFormat(Format.Base64, Given(v.members, "signature").value.s)
  }

  ghost predicate SelectionOk(lib: FloatLib, v: Option<Value>) {
    && v.Some? && v.value.Arr? && |v.value.items| <= 24
    && forall i | 0 <= i < |v.value.items| ::
         AtLeastNumber(lib, Some(v.value.items[i]), 0) && Whole(lib, v.value.items[i]) <= 23
  }

  /** Everything about a request but its nonce. */
  ghost predicate RestOk(lib: FloatLib, v: Value) {
    && v.Obj?
    && OnlyKeys(v.members, ["nonce", "snapshot", "quote", "protocolVersion"])
    && Given(v.members, "snapshot").Some? && SnapshotOk(lib, Given(v.members, "snapshot").value)
    && (Given(v.members, "quote").Some? ==> QuoteOk(lib, Given(v.members, "quote").value))
    && AtLeastNumber(lib, Given(v.members, "protocolVersion"), 1)
  }

  ghost predicate RequirementOk(v: Value) {
    && v.Obj?
    && OnlyKeys(v.members, ["requirement", "status", "detail"])
    && OneOf(Given(v.members, "requirement"), [
         "companion_attested", "test_signing_disabled", "kernel_debugging_disabled", "secure_boot_enabled",
         "tpm_attestation_valid", "hvci_enabled", "driver_blocklist_enabled", "iommu_enabled",
         "vulnerable_drivers_absent", "game_process_present", "network_origin_matches"])
    && OneOf(Given(v.members, "status"), ["pass", "fail", "warn", "skipped", "unknown"])
    && (Given(v.members, "detail").None? || UpToChars(Given(v.members, "detail"), 200))
  }

  predicate IsDenyReason(v: Value) {
    OneOf(Some(v), [
      "companion_missing", "companion_timeout", "companion_outdated", "attestation_invalid",
      "nonce_expired", "nonce_reused", "network_origin_mismatch", "game_process_missing",
      "policy_not_met", "heartbeat_lost", "backend_unavailable", "banned"])
  }

  ghost predicate ReasonsOk(v: Option<Value>) {
    && v.Some? && v.value.Arr? && |v.value.items| <= 16
    && forall i | 0 <= i < |v.value.items| :: IsDenyReason(v.value.items[i])
  }

  ghost predicate RequirementsOk(v: Option<Value>) {
    && v.Some? && v.value.Arr? && |v.value.items| <= 32
    && forall i | 0 <= i < |v.value.items| :: RequirementOk(v.value.items[i])
  }

  ghost predicate VerdictOk(v: Value) {
    && v.Obj?
    && OnlyKeys(v.members, ["decision", "sessionId", "reasons", "requirements", "remediation", "policyTier",
                            "evaluatedAt", "failOpen"])
    && OneOf(Given(v.members, "decision"), ["allow", "deny", "pending"])
    && IsString(Given(v.members, "sessionId")) && HasFormat(Format.Uuid, Given(v.members, "sessionId").value.s)
    && ReasonsOk(Given(v.members, "reasons"))
    && RequirementsOk(Given(v.members, "requirements"))
    && (Given(v.members, "remediation").None? || UpToChars(Given(v.members, "remediation"), 500))
    && OneOf(Given(v.members, "policyTier"), ["relaxed", "standard", "strict"])
    && IsString(Given(v.members, "evaluatedAt")) && HasFormat(Datetime, Given(v.members, "evaluatedAt").value.s)
    && IsBool(Given(v.members, "failOpen"))
  }

  // --- The decoders accept exactly these ------------------------------------------------

  lemma EnumFound(i: nat)
    requires i < 6
    ensures FindEnum(PROTOCOL.enums, ENUMS[i].name) == Some(ENUMS[i])
  {
    assert forall p | 0 <= p < 6 && p != i :: ENUMS[p].name != ENUMS[i].name;
    assert ENUMS[i] in ENUMS;
  }

  lemma StructFound(k: nat, j: nat)
    requires j < k <= 8
    ensures FindStruct(PROTOCOL, k, PROTOCOL.structs[j].name) == Some(j)
  {
    StructNamesDistinct();
  }

  /** The fields from the `n`th on. */
  ghost predicate From(lib: FloatLib, j: nat, fields: seq<FieldDef>, members: Object, n: nat)
    requires j < 8 && n <= |fields|
    decreases |fields| - n
  {
    n == |fields| || (AcceptsField(lib, PROTOCOL, j, fields[n], members) && From(lib, j, fields, members, n + 1))
  }

  lemma {:induction false} FromAll(lib: FloatLib, j: nat, fields: seq<FieldDef>, members: Object, n: nat)
    requires j < 8 && n <= |fields|
    ensures From(lib, j, fields, members, n) <==>
      forall i | n <= i < |fields| :: AcceptsField(lib, PROTOCOL, j, fields[i], members)
    decreases |fields| - n
  {
    if n < |fields| {
      FromAll(lib, j, fields, members, n + 1);
    }
  }

  lemma DeclaredExactly(fields: seq<FieldDef>, key: string)
    ensures Declared(fields, key) <==> key in FieldNames(fields)
  {
    if Declared(fields, key) {
      var i :| 0 <= i < |fields| && fields[i].name == key;
      assert FieldNames(fields)[i] == key;
    }
  }

  /** A struct is accepted when its keys are, and each of its fields is. */
  lemma StructByFields(lib: FloatLib, j: nat, fields: seq<FieldDef>, v: Value)
    requires j < 8 && PROTOCOL.structs[j].fields == fields
    ensures AcceptsStruct(lib, PROTOCOL, j, v) <==>
      v.Obj? && OnlyKeys(v.members, FieldNames(fields)) && From(lib, j, fields, v.members, 0)
  {
    if v.Obj? {
      FromAll(lib, j, fields, v.members, 0);
      forall p | 0 <= p < |v.members|
        ensures Declared(fields, v.members[p].key) <==> v.members[p].key in FieldNames(fields)
      {
        DeclaredExactly(fields, v.members[p].key);
      }
    }
  }

  lemma EnumField(lib: FloatLib, j: nat, f: FieldDef, members: Object, i: nat)
    requires j < 8 && i < 6 && f.ftype == TEnum(ENUMS[i].name)
    ensures AcceptsField(lib, PROTOCOL, j, f, members) <==> OneOf(Given(members, f.name), ENUMS[i].values)
  {
    EnumFound(i);
  }

  lemma FourFields(lib: FloatLib, j: nat, fields: seq<FieldDef>, members: Object, n: nat)
    requires j < 8 && n + 4 <= |fields|
    ensures From(lib, j, fields, members, n) <==>
      && AcceptsField(lib, PROTOCOL, j, fields[n], members)
      && AcceptsField(lib, PROTOCOL, j, fields[n + 1], members)
      && AcceptsField(lib, PROTOCOL, j, fields[n + 2], members)
      && AcceptsField(lib, PROTOCOL, j, fields[n + 3], members)
      && From(lib, j, fields, members, n + 4)
  {
    assert From(lib, j, fields, members, n + 2) <==>
      && AcceptsField(lib, PROTOCOL, j, fields[n + 2], members)
      && AcceptsField(lib, PROTOCOL, j, fields[n + 3], members)
      && From(lib, j, fields, members, n + 4);
  }

  lemma FeatureField(lib: FloatLib, f: FieldDef, members: Object)
    requires f.ftype == TEnum("FeatureState")
    ensures AcceptsField(lib, PROTOCOL, 0, f, members) <==>
      OneOf(Given(members, f.name), ["enabled", "disabled", "unknown"])
  {
    EnumField(lib, 0, f, members, 1);
  }

  lemma ThreeFields(lib: FloatLib, j: nat, fields: seq<FieldDef>, members: Object, n: nat)
    requires j < 8 && n + 3 == |fields|
    ensures From(lib, j, fields, members, n) <==>
      && AcceptsField(lib, PROTOCOL, j, fields[n], members)
      && AcceptsField(lib, PROTOCOL, j, fields[n + 1], members)
      && AcceptsField(lib, PROTOCOL, j, fields[n + 2], members)
  {
    assert From(lib, j, fields, members, n + 3);
    assert From(lib, j, fields, members, n + 2) <==> AcceptsField(lib, PROTOCOL, j, fields[n + 2], members);
  }

  lemma FirstFeatures(lib: FloatLib, members: Object)
    ensures From(lib, 0, SECURITY_FEATURES.fields, members, 0) <==>
      && OneOf(Given(members, "secureBoot"), ["enabled", "disabled", "unknown"])
      && OneOf(Given(members, "hvci"), ["enabled", "disabled", "unknown"])
      && OneOf(Given(members, "testSigning"), ["enabled", "disabled", "unknown"])
      && OneOf(Given(members, "kernelDebugging"), ["enabled", "disabled", "unknown"])
      && From(lib, 0, SECURITY_FEATURES.fields, members, 4)
  {
    var fields := SECURITY_FEATURES.fields;
    FourFields(lib, 0, fields, members, 0);
    FeatureField(lib, fields[0], members);
    FeatureField(lib, fields[1], members);
    FeatureField(lib, fields[2], members);
    FeatureField(lib, fields[3], members);
  }

  lemma LastFeatures(lib: FloatLib, members: Object)
    ensures From(lib, 0, SECURITY_FEATURES.fields, members, 4) <==>
      && OneOf(Given(members, "driverBlocklist"), ["enabled", "disabled", "unknown"])
      && OneOf(Given(members, "iommu"), ["enabled", "disabled", "unknown"])
      && OneOf(Given(members, "virtualizationBasedSecurity"), ["enabled", "disabled", "unknown"])
  {
    var fields := SECURITY_FEATURES.fields;
    ThreeFields(lib, 0, fields, members, 4);
    FeatureField(lib, fields[4], members);
    FeatureField(lib, fields[5], members);
    FeatureField(lib, fields[6], members);
  }

  lemma FeaturesAccepted(lib: FloatLib, v: Value)
    ensures AcceptsStruct(lib, PROTOCOL, 0, v) <==> FeaturesOk(v)
  {
    var fields := SECURITY_FEATURES.fields;
    assert FieldNames(fields) == ["secureBoot", "hvci", "testSigning", "kernelDebugging", "driverBlocklist", "iommu",
                                  "virtualizationBasedSecurity"];
    StructByFields(lib, 0, fields, v);
    if v.Obj? {
      FirstFeatures(lib, v.members);
      LastFeatures(lib, v.members);
    }
  }

  lemma TextField(lib: FloatLib, j: nat, f: FieldDef, members: Object, most: nat)
    requires j < 8 && f.ftype == TString(None, None, Some(most))
    ensures AcceptsField(lib, PROTOCOL, j, f, members) <==> UpToChars(Given(members, f.name), most)
  {
  }

  lemma OptionalTextField(lib: FloatLib, j: nat, f: FieldDef, members: Object, most: nat)
    requires j < 8 && f.ftype == TOptional(TString(None, None, Some(most)))
    ensures AcceptsField(lib, PROTOCOL, j, f, members) <==>
      Given(members, f.name).None? || UpToChars(Given(members, f.name), most)
  {
  }

  lemma FormattedField(lib: FloatLib, j: nat, f: FieldDef, members: Object, format: Format, most: Option<nat>)
    requires j < 8 && f.ftype == TString(Some(format), None, most)
    ensures AcceptsField(lib, PROTOCOL, j, f, members) <==>
      && IsString(Given(members, f.name)) && (most.Some? ==> |Given(members, f.name).value.s| <= most.value)
      && HasFormat(format, Given(members, f.name).value.s)
  {
  }

  lemma NumberField(lib: FloatLib, j: nat, f: FieldDef, members: Object, least: int)
    requires j < 8 && f.ftype == TInt(Some(least), None)
    ensures AcceptsField(lib, PROTOCOL, j, f, members) <==> AtLeastNumber(lib, Given(members, f.name), least)
  {
  }

  lemma StructField(lib: FloatLib, k: nat, f: FieldDef, members: Object, j: nat)
    requires j < k < 8 && (f.ftype == TStruct(PROTOCOL.structs[j].name)
                           || f.ftype == TOptional(TStruct(PROTOCOL.structs[j].name)))
    ensures AcceptsField(lib, PROTOCOL, k, f, members) <==>
      match Given(members, f.name)
      case None => f.ftype.TOptional?
      case Some(v) => AcceptsStruct(lib, PROTOCOL, j, v)
  {
    StructFound(k, j);
  }

  lemma TpmAccepted(lib: FloatLib, v: Value)
    ensures AcceptsStruct(lib, PROTOCOL, 1, v) <==> TpmOk(v)
  {
    var fields := TPM_INFO.fields;
    assert FieldNames(fields) == ["present", "manufacturer", "specVersion", "attestationKeyId"];
    StructByFields(lib, 1, fields, v);
    if v.Obj? {
      FourFields(lib, 1, fields, v.members, 0);
      OptionalTextField(lib, 1, fields[1], v.members, 64);
      OptionalTextField(lib, 1, fields[2], v.members, 32);
      assert AcceptsField(lib, PROTOCOL, 1, fields[0], v.members) <==> IsBool(Given(v.members, "present"));
      assert AcceptsField(lib, PROTOCOL, 1, fields[3], v.members) <==>
        var key := Given(v.members, "attestationKeyId"); key.None? || (UpToChars(key, 128) && Hexes(key.value.s));
    }
  }

  lemma GameProcessAccepted(lib: FloatLib, v: Value)
    ensures AcceptsStruct(lib, PROTOCOL, 2, v) <==> GameProcessOk(lib, v)
  {
    var fields := GAME_PROCESS.fields;
    assert FieldNames(fields) == ["pid", "startedAtUnixMs", "imageName", "mainWindowPresent"];
    StructByFields(lib, 2, fields, v);
    if v.Obj? {
      FourFields(lib, 2, fields, v.members, 0);
      NumberField(lib, 2, fields[0], v.members, 1);
      NumberField(lib, 2, fields[1], v.members, 0);
      TextField(lib, 2, fields[2], v.members, 128);
      assert AcceptsField(lib, PROTOCOL, 2, fields[3], v.members) <==> IsBool(Given(v.members, "mainWindowPresent"));
    }
  }

  lemma NotesAccepted(lib: FloatLib, f: FieldDef, members: Object)
    requires f.ftype == TArray(TString(None, None, Some(200)), Some(32))
    ensures AcceptsField(lib, PROTOCOL, 3, f, members) <==> NotesOk(Given(members, f.name))
  {
    var given := Given(members, f.name);
    if given.Some? && given.value.Arr? {
      forall i | 0 <= i < |given.value.items|
        ensures Accepts(lib, PROTOCOL, 3, TString(None, None, Some(200)), given.value.items[i]) <==>
          UpToChars(Some(given.value.items[i]), 200)
      {
      }
    }
  }

  lemma BuildHashAccepted(lib: FloatLib, j: nat, f: FieldDef, members: Object)
    requires j < 8 && f.ftype == TString(Some(Format.Hex), Some(64), Some(64))
    ensures AcceptsField(lib, PROTOCOL, j, f, members) <==>
      && IsString(Given(members, f.name)) && |Given(members, f.name).value.s| == 64
      && Hexes(Given(members, f.name).value.s)
  {
  }

  lemma SnapshotStart(lib: FloatLib, members: Object)
    ensures From(lib, 3, SYSTEM_SNAPSHOT.fields, members, 0) <==>
      && AtLeastNumber(lib, Given(members, "schemaVersion"), 1)
      && IsString(Given(members, "collectedAt")) && HasFormat(Datetime, Given(members, "collectedAt").value.s)
      && UpToChars(Given(members, "companionVersion"), 32)
      && HasFormat(Semver, Given(members, "companionVersion").value.s)
      && IsString(Given(members, "companionBuildHash"))
      && |Given(members, "companionBuildHash").value.s| == 64
      && Hexes(Given(members, "companionBuildHash").value.s)
      && From(lib, 3, SYSTEM_SNAPSHOT.fields, members, 4)
  {
    var fields := SYSTEM_SNAPSHOT.fields;
    FourFields(lib, 3, fields, members, 0);
    NumberField(lib, 3, fields[0], members, 1);
    FormattedField(lib, 3, fields[1], members, Datetime, None);
    FormattedField(lib, 3, fields[2], members, Semver, Some(32));
    BuildHashAccepted(lib, 3, fields[3], members);
  }

  lemma SnapshotMiddle(lib: FloatLib, members: Object)
    ensures From(lib, 3, SYSTEM_SNAPSHOT.fields, members, 4) <==>
      && UpToChars(Given(members, "osBuild"), 64)
      && Given(members, "features").Some? && FeaturesOk(Given(members, "features").value)
      && Given(members, "tpm").Some? && TpmOk(Given(members, "tpm").value)
      && (Given(members, "gameProcess").Some? ==> GameProcessOk(lib, Given(members, "gameProcess").value))
      && From(lib, 3, SYSTEM_SNAPSHOT.fields, members, 8)
  {
    var fields := SYSTEM_SNAPSHOT.fields;
    FourFields(lib, 3, fields, members, 4);
    TextField(lib, 3, fields[4], members, 64);
    StructField(lib, 3, fields[5], members, 0);
    StructField(lib, 3, fields[6], members, 1);
    StructField(lib, 3, fields[7], members, 2);
    if Given(members, "features").Some? { FeaturesAccepted(lib, Given(members, "features").value); }
    if Given(members, "tpm").Some? { TpmAccepted(lib, Given(members, "tpm").value); }
    if Given(members, "gameProcess").Some? { GameProcessAccepted(lib, Given(members, "gameProcess").value); }
  }

  /** A snapshot is accepted if and only if it is one of these objects. */
  lemma SnapshotAccepted(lib: FloatLib, v: Value)
    ensures AcceptsStruct(lib, PROTOCOL, 3, v) <==> SnapshotOk(lib, v)
    ensures DecodeStruct(lib, PROTOCOL, 3, v).Some? <==> SnapshotOk(lib, v)
  {
    var fields := SYSTEM_SNAPSHOT.fields;
    StructDecodesExactly(lib, PROTOCOL, 3, v);
    assert FieldNames(fields) == ["schemaVersion", "collectedAt", "companionVersion", "companionBuildHash", "osBuild",
                                  "features", "tpm", "gameProcess", "probeErrors"];
    StructByFields(lib, 3, fields, v);
    if v.Obj? {
      SnapshotStart(lib, v.members);
      SnapshotMiddle(lib, v.members);
      NotesAccepted(lib, fields[8], v.members);
    }
  }

  lemma SelectionAccepted(lib: FloatLib, f: FieldDef, members: Object)
    requires f.ftype == TArray(TInt(Some(0), Some(23)), Some(24))
    ensures AcceptsField(lib, PROTOCOL, 4, f, members) <==> SelectionOk(lib, Given(members, f.name))
  {
    var given := Given(members, f.name);
    if given.Some? && given.value.Arr? {
      forall i | 0 <= i < |given.value.items|
        ensures Accepts(lib, PROTOCOL, 4, TInt(Some(0), Some(23)), given.value.items[i]) <==>
          AtLeastNumber(lib, Some(given.value.items[i]), 0) && Whole(lib, given.value.items[i]) <= 23
      {
      }
    }
  }

  lemma QuoteFields(lib: FloatLib, members: Object)
    ensures From(lib, 4, ATTESTATION_QUOTE.fields, members, 0) <==>
      && UpToChars(Given(members, "akPublicKeyId"), 128) && Hexes(Given(members, "akPublicKeyId").value.s)
      && SelectionOk(lib, Given(members, "pcrSelection"))
      && UpToChars(Given(members, "pcrDigest"), 128) && Hexes(Given(members, "pcrDigest").value.s)
      && UpToChars(Given(members, "quoteBlob"), 8192)
      && HasFormat(Format.Base64, Given(members, "quoteBlob").value.s)
      && AcceptsField(lib, PROTOCOL, 4, ATTESTATION_QUOTE.fields[4], members)
  {
    var fields := ATTESTATION_QUOTE.fields;
    FourFields(lib, 4, fields, members, 0);
    FormattedField(lib, 4, fields[0], members, Format.Hex, Some(128));
    SelectionAccepted(lib, fields[1], members);
    FormattedField(lib, 4, fields[2], members, Format.Hex, Some(128));
    FormattedField(lib, 4, fields[3], members, Format.Base64, Some(8192));
  }

  lemma QuoteAccepted(lib: FloatLib, v: Value)
    ensures AcceptsStruct(lib, PROTOCOL, 4, v) <==> QuoteOk(lib, v)
  {
    var fields := ATTESTATION_QUOTE.fields;
    assert FieldNames(fields) == ["akPublicKeyId", "pcrSelection", "pcrDigest", "quoteBlob", "signature"];
    StructByFields(lib, 4, fields, v);
    if v.Obj? {
      QuoteFields(lib, v.members);
      FormattedField(lib, 4, fields[4], v.members, Format.Base64, Some(2048));
    }
  }

  lemma RequestFields(lib: FloatLib, v: Value)
    requires v.Obj?
    ensures From(lib, 5, ATTESTATION_REQUEST.fields, v.members, 0) <==>
      && IsString(Given(v.members, "nonce")) && |Given(v.members, "nonce").value.s| == 64
      && Hexes(Given(v.members, "nonce").value.s)
      && Given(v.members, "snapshot").Some? && SnapshotOk(lib, Given(v.members, "snapshot").value)
      && (Given(v.members, "quote").Some? ==> QuoteOk(lib, Given(v.members, "quote").value))
      && AtLeastNumber(lib, Given(v.members, "protocolVersion"), 1)
  {
    var fields := ATTESTATION_REQUEST.fields;
    FourFields(lib, 5, fields, v.members, 0);
    BuildHashAccepted(lib, 5, fields[0], v.members);
    StructField(lib, 5, fields[1], v.members, 3);
    StructField(lib, 5, fields[2], v.members, 4);
    NumberField(lib, 5, fields[3], v.members, 1);
    if Given(v.members, "snapshot").Some? { SnapshotAccepted(lib, Given(v.members, "snapshot").value); }
    if Given(v.members, "quote").Some? { QuoteAccepted(lib, Given(v.members, "quote").value); }
  }

  /** The request the gate decodes: accepted if and only if the rest conforms and the nonce is
      exactly 64 hex digits. With 63 or 65 characters it is refused, whatever they are. */
  lemma RequestAccepted(lib: FloatLib, v: Value)
    ensures DecodeStruct(lib, PROTOCOL, 5, v).Some? <==>
      RestOk(lib, v)
      && IsString(Given(v.members, "nonce")) && |Given(v.members, "nonce").value.s| == 64
      && Hexes(Given(v.members, "nonce").value.s)
  {
    var fields := ATTESTATION_REQUEST.fields;
    StructDecodesExactly(lib, PROTOCOL, 5, v);
    assert FieldNames(fields) == ["nonce", "snapshot", "quote", "protocolVersion"];
    StructByFields(lib, 5, fields, v);
    if v.Obj? {
      RequestFields(lib, v);
    }
  }

  lemma RequirementAccepted(lib: FloatLib, v: Value)
    ensures AcceptsStruct(lib, PROTOCOL, 6, v) <==> RequirementOk(v)
  {
    var fields := REQUIREMENT_RESULT.fields;
    assert FieldNames(fields) == ["requirement", "status", "detail"];
    StructByFields(lib, 6, fields, v);
    if v.Obj? {
      EnumField(lib, 6, fields[0], v.members, 3);
      EnumField(lib, 6, fields[1], v.members, 4);
      OptionalTextField(lib, 6, fields[2], v.members, 200);
      assert From(lib, 6, fields, v.members, 1) <==>
        AcceptsField(lib, PROTOCOL, 6, fields[1], v.members) && AcceptsField(lib, PROTOCOL, 6, fields[2], v.members);
    }
  }

  lemma DenyReasonAccepted(lib: FloatLib, v: Value)
    ensures Accepts(lib, PROTOCOL, 7, TEnum("DenyReason"), v) <==> IsDenyReason(v)
  {
    EnumFound(5);
  }

  /** An array type is accepted when its length is and each of its items is. */
  lemma ArrayField(lib: FloatLib, j: nat, f: FieldDef, members: Object, items: FieldType, most: nat)
    requires j < 8 && f.ftype == TArray(items, Some(most))
    ensures AcceptsField(lib, PROTOCOL, j, f, members) <==>
      var v := Given(members, f.name);
      && v.Some? && v.value.Arr? && |v.value.items| <= most
      && forall i | 0 <= i < |v.value.items| :: Accepts(lib, PROTOCOL, j, items, v.value.items[i])
  {
  }

  lemma ReasonsAccepted(lib: FloatLib, f: FieldDef, members: Object)
    requires f.ftype == TArray(TEnum("DenyReason"), Some(16))
    ensures AcceptsField(lib, PROTOCOL, 7, f, members) <==> ReasonsOk(Given(members, f.name))
  {
    ArrayField(lib, 7, f, members, TEnum("DenyReason"), 16);
    forall v ensures Accepts(lib, PROTOCOL, 7, TEnum("DenyReason"), v) <==> IsDenyReason(v) {
      DenyReasonAccepted(lib, v);
    }
  }

  lemma RequirementsAccepted(lib: FloatLib, f: FieldDef, members: Object)
    requires f.ftype == TArray(TStruct("RequirementResult"), Some(32))
    ensures AcceptsField(lib, PROTOCOL, 7, f, members) <==> RequirementsOk(Given(members, f.name))
  {
    StructFound(7, 6);
    var given := Given(members, f.name);
    if given.Some? && given.value.Arr? {
      forall i | 0 <= i < |given.value.items|
        ensures Accepts(lib, PROTOCOL, 7, TStruct("RequirementResult"), given.value.items[i]) <==>
          RequirementOk(given.value.items[i])
      {
        RequirementAccepted(lib, given.value.items[i]);
      }
    }
  }

  lemma VerdictStart(lib: FloatLib, members: Object)
    ensures From(lib, 7, VERDICT.fields, members, 0) <==>
      && OneOf(Given(members, "decision"), ["allow", "deny", "pending"])
      && IsString(Given(members, "sessionId")) && HasFormat(Format.Uuid, Given(members, "sessionId").value.s)
      && ReasonsOk(Given(members, "reasons"))
      && RequirementsOk(Given(members, "requirements"))
      && From(lib, 7, VERDICT.fields, members, 4)
  {
    var fields := VERDICT.fields;
    FourFields(lib, 7, fields, members, 0);
    EnumField(lib, 7, fields[0], members, 2);
    FormattedField(lib, 7, fields[1], members, Format.Uuid, None);
    ReasonsAccepted(lib, fields[2], members);
    RequirementsAccepted(lib, fields[3], members);
  }

  lemma VerdictEnd(lib: FloatLib, members: Object)
    ensures From(lib, 7, VERDICT.fields, members, 4) <==>
      && (Given(members, "remediation").None? || UpToChars(Given(members, "remediation"), 500))
      && OneOf(Given(members, "policyTier"), ["relaxed", "standard", "strict"])
      && IsString(Given(members, "evaluatedAt")) && HasFormat(Datetime, Given(members, "evaluatedAt").value.s)
      && IsBool(Given(members, "failOpen"))
  {
    var fields := VERDICT.fields;
    FourFields(lib, 7, fields, members, 4);
    OptionalTextField(lib, 7, fields[4], members, 500);
    EnumField(lib, 7, fields[5], members, 0);
    FormattedField(lib, 7, fields[6], members, Datetime, None);
    assert AcceptsField(lib, PROTOCOL, 7, fields[7], members) <==> IsBool(Given(members, "failOpen"));
  }

  lemma VerdictAccepted(lib: FloatLib, v: Value)
    ensures DecodeStruct(lib, PROTOCOL, 7, v).Some? <==> VerdictOk(v)
  {
    var fields := VERDICT.fields;
    StructDecodesExactly(lib, PROTOCOL, 7, v);
    assert FieldNames(fields) == ["decision", "sessionId", "reasons", "requirements", "remediation", "policyTier",
                                  "evaluatedAt", "failOpen"];
    StructByFields(lib, 7, fields, v);
    if v.Obj? {
      VerdictStart(lib, v.members);
      VerdictEnd(lib, v.members);
    }
  }
}
