/** The messages of the connect gate as the schema files declare them, and their codec. */
module Messages {
  import opened Common
  import opened JsonValue
  import opened JsonPrinter
  import opened JsonGrammar
  import opened Schema
  import opened Codec
  import opened CodecRoundTrip

  function UpTo(n: nat): FieldType { TString(None, None, Some(n)) }
  function Formatted(f: Format): FieldType { TString(Some(f), None, None) }
  function FormattedUpTo(f: Format, n: nat): FieldType { TString(Some(f), None, Some(n)) }
  function HexOf(n: nat): FieldType { TString(Some(Format.Hex), Some(n), Some(n)) }
  function From(n: int): FieldType { TInt(Some(n), None) }

  const ENUMS := [
    EnumDef("PolicyTier", ["relaxed", "standard", "strict"]),
    EnumDef("FeatureState", ["enabled", "disabled", "unknown"]),
    EnumDef("VerdictDecision", ["allow", "deny", "pending"]),
    EnumDef("RequirementId", [
      "companion_attested", "test_signing_disabled", "kernel_debugging_disabled", "secure_boot_enabled",
      "tpm_attestation_valid", "hvci_enabled", "driver_blocklist_enabled", "iommu_enabled",
      "vulnerable_drivers_absent", "game_process_present", "network_origin_matches"]),
    EnumDef("RequirementStatus", ["pass", "fail", "warn", "skipped", "unknown"]),
    EnumDef("DenyReason", [
      "companion_missing", "companion_timeout", "companion_outdated", "attestation_invalid",
      "nonce_expired", "nonce_reused", "network_origin_mismatch", "game_process_missing",
      "policy_not_met", "heartbeat_lost", "backend_unavailable", "banned"])
  ]

  const SECURITY_FEATURES := StructDef("SecurityFeatures", [
    FieldDef("secureBoot", TEnum("FeatureState")),
    FieldDef("hvci", TEnum("FeatureState")),
    FieldDef("testSigning", TEnum("FeatureState")),
    FieldDef("kernelDebugging", TEnum("FeatureState")),
    FieldDef("driverBlocklist", TEnum("FeatureState")),
    FieldDef("iommu", TEnum("FeatureState")),
    FieldDef("virtualizationBasedSecurity", TEnum("FeatureState"))])

  const TPM_INFO := StructDef("TpmInfo", [
    FieldDef("present", TBool),
    FieldDef("manufacturer", TOptional(UpTo(64))),
    FieldDef("specVersion", TOptional(UpTo(32))),
    FieldDef("attestationKeyId", TOptional(FormattedUpTo(Format.Hex, 128)))])

  const GAME_PROCESS := StructDef("GameProcessEvidence", [
    FieldDef("pid", From(1)),
    FieldDef("startedAtUnixMs", From(0)),
    FieldDef("imageName", UpTo(128)),
    FieldDef("mainWindowPresent", TBool)])

  const SYSTEM_SNAPSHOT := StructDef("SystemSnapshot", [
    FieldDef("schemaVersion", From(1)),
    FieldDef("collectedAt", Formatted(Datetime)),
    FieldDef("companionVersion", FormattedUpTo(Semver, 32)),
    FieldDef("companionBuildHash", HexOf(64)),
    FieldDef("osBuild", UpTo(64)),
    FieldDef("features", TStruct("SecurityFeatures")),
    FieldDef("tpm", TStruct("TpmInfo")),
    FieldDef("gameProcess", TOptional(TStruct("GameProcessEvidence"))),
    FieldDef("probeErrors", TArray(UpTo(200), Some(32)))])

  const ATTESTATION_QUOTE := StructDef("AttestationQuote", [
    FieldDef("akPublicKeyId", FormattedUpTo(Format.Hex, 128)),
    FieldDef("pcrSelection", TArray(TInt(Some(0), Some(23)), Some(24))),
    FieldDef("pcrDigest", FormattedUpTo(Format.Hex, 128)),
    FieldDef("quoteBlob", FormattedUpTo(Format.Base64, 8192)),
    FieldDef("signature", FormattedUpTo(Format.Base64, 2048))])

  const ATTESTATION_REQUEST := StructDef("AttestationRequest", [
    FieldDef("nonce", HexOf(64)),
    FieldDef("snapshot", TStruct("SystemSnapshot")),
    FieldDef("quote", TOptional(TStruct("AttestationQuote"))),
    FieldDef("protocolVersion", From(1))])

  const REQUIREMENT_RESULT := StructDef("RequirementResult", [
    FieldDef("requirement", TEnum("RequirementId")),
    FieldDef("status", TEnum("RequirementStatus")),
    FieldDef("detail", TOptional(UpTo(200)))])

  const VERDICT := StructDef("Verdict", [
    FieldDef("decision", TEnum("VerdictDecision")),
    FieldDef("sessionId", Formatted(Uuid)),
    FieldDef("reasons", TArray(TEnum("DenyReason"), Some(16))),
    FieldDef("requirements", TArray(TStruct("RequirementResult"), Some(32))),
    FieldDef("remediation", TOptional(UpTo(500))),
    FieldDef("policyTier", TEnum("PolicyTier")),
    FieldDef("evaluatedAt", Formatted(Datetime)),
    FieldDef("failOpen", TBool)])

  const PROTOCOL := Registry(ENUMS, [
    SECURITY_FEATURES, TPM_INFO, GAME_PROCESS, SYSTEM_SNAPSHOT,
    ATTESTATION_QUOTE, ATTESTATION_REQUEST, REQUIREMENT_RESULT, VERDICT])

  // --- The registry is one the generator turns into a working codec ---------------------

  lemma RequirementIdsDistinct()
    ensures Distinct(ENUMS[3].values)
  {
  }

  lemma DenyReasonsDistinct()
    ensures Distinct(ENUMS[5].values)
  {
  }

  lemma EnumValuesDistinct(i: nat)
    requires i < 6
    ensures Distinct(ENUMS[i].values)
  {
    match i {
      case 3 => RequirementIdsDistinct();
      case 5 => DenyReasonsDistinct();
      case _ =>
    }
  }

  lemma FieldNamesDistinct(k: nat)
    requires k < 8
    ensures PROTOCOL.structs[k].fields != [] && Distinct(FieldNames(PROTOCOL.structs[k].fields))
  {
  }

  lemma EnumResolves(k: nat, i: nat)
    requires k < 8 && i < 6
    ensures Resolves(PROTOCOL, k, TEnum(ENUMS[i].name))
  {
    assert ENUMS[i] in PROTOCOL.enums;
  }

  lemma StructResolves(k: nat, j: nat)
    requires j < k < 8
    ensures Resolves(PROTOCOL, k, TStruct(PROTOCOL.structs[j].name))
  {
  }

  lemma PlainFields(k: nat, i: nat)
    requires k < 8 && i < |PROTOCOL.structs[k].fields|
    ensures PlainType(Unwrap(PROTOCOL.structs[k].fields[i].ftype))
  {
  }

  lemma SnapshotResolves(i: nat)
    requires i < |SYSTEM_SNAPSHOT.fields|
    ensures Resolves(PROTOCOL, 3, SYSTEM_SNAPSHOT.fields[i].ftype)
  {
    match i {
      case 5 => StructResolves(3, 0);
      case 6 => StructResolves(3, 1);
      case 7 => StructResolves(3, 2);
      case _ =>
    }
  }

  lemma VerdictResolves(i: nat)
    requires i < |VERDICT.fields|
    ensures Resolves(PROTOCOL, 7, VERDICT.fields[i].ftype)
  {
    match i {
      case 0 => EnumResolves(7, 2);
      case 2 => EnumResolves(7, 5);
      case 3 => StructResolves(7, 6);
      case 5 => EnumResolves(7, 0);
      case _ =>
    }
  }

  lemma RequestResolves(i: nat)
    requires i < |ATTESTATION_REQUEST.fields|
    ensures Resolves(PROTOCOL, 5, ATTESTATION_REQUEST.fields[i].ftype)
  {
    StructResolves(5, if i == 1 then 3 else 4);
  }

  lemma RequirementResolves(i: nat)
    requires i < |REQUIREMENT_RESULT.fields|
    ensures Resolves(PROTOCOL, 6, REQUIREMENT_RESULT.fields[i].ftype)
  {
    EnumResolves(6, if i == 0 then 3 else 4);
  }

  lemma ScalarsResolve(k: nat, i: nat)
    requires k in {1, 2, 4} && i < |PROTOCOL.structs[k].fields|
    ensures Resolves(PROTOCOL, k, PROTOCOL.structs[k].fields[i].ftype)
  {
  }

  lemma FeaturesResolve(i: nat)
    requires i < |SECURITY_FEATURES.fields|
    ensures Resolves(PROTOCOL, 0, SECURITY_FEATURES.fields[i].ftype)
  {
    EnumResolves(0, 1);
  }

  lemma ReferencesResolve(k: nat, i: nat)
    requires k < 8 && i < |PROTOCOL.structs[k].fields|
    ensures Resolves(PROTOCOL, k, PROTOCOL.structs[k].fields[i].ftype)
  {
    if k == 0 {
      FeaturesResolve(i);
    } else if k == 3 {
      SnapshotResolves(i);
    } else if k == 5 {
      RequestResolves(i);
    } else if k == 6 {
      RequirementResolves(i);
    } else if k == 7 {
      VerdictResolves(i);
    } else {
      ScalarsResolve(k, i);
    }
  }

  lemma ProtocolReady()
    ensures Ready(PROTOCOL)
  {
    forall i | 0 <= i < 6 ensures Distinct(ENUMS[i].values) { EnumValuesDistinct(i); }
    forall k, i | 0 <= k < 8 && 0 <= i < |PROTOCOL.structs[k].fields|
      ensures Resolves(PROTOCOL, k, PROTOCOL.structs[k].fields[i].ftype)
      ensures PlainType(Unwrap(PROTOCOL.structs[k].fields[i].ftype))
    {
      ReferencesResolve(k, i);
      PlainFields(k, i);
    }
    forall k | 0 <= k < 8 ensures ValidStruct(PROTOCOL, k) { FieldNamesDistinct(k); }
  }

  // --- Their values stay far from the depth limit ------------------------------------------

  lemma StructNamesDistinct()
    ensures forall i, j | 0 <= i < j < 8 :: PROTOCOL.structs[i].name != PROTOCOL.structs[j].name
  {
  }

  lemma {:induction false} FieldsHeightBound(j: nat, n: nat, h: nat)
    requires j < 8 && n <= |PROTOCOL.structs[j].fields|
    requires forall i | 0 <= i < n :: TypeHeight(PROTOCOL, j, Unwrap(PROTOCOL.structs[j].fields[i].ftype)) <= h
    ensures FieldsHeight(PROTOCOL, j, n) <= h
  {
    if n > 0 { FieldsHeightBound(j, n - 1, h); }
  }

  /** A struct of plain scalars encodes to height 1. */
  lemma FlatHeight(j: nat)
    requires j in {0, 1, 2, 6}
    ensures StructHeight(PROTOCOL, j) == 1
  {
    FieldsHeightBound(j, |PROTOCOL.structs[j].fields|, 0);
  }

  lemma ReferenceHeight(k: nat, j: nat)
    requires j < k < 8
    ensures TypeHeight(PROTOCOL, k, TStruct(PROTOCOL.structs[j].name)) == StructHeight(PROTOCOL, j)
  {
    StructNamesDistinct();
  }

  lemma SnapshotFieldHeight(i: nat)
    requires i < 9
    ensures TypeHeight(PROTOCOL, 3, Unwrap(SYSTEM_SNAPSHOT.fields[i].ftype)) <= 1
  {
    match i {
      case 5 => ReferenceHeight(3, 0); FlatHeight(0);
      case 6 => ReferenceHeight(3, 1); FlatHeight(1);
      case 7 => ReferenceHeight(3, 2); FlatHeight(2);
      case _ =>
    }
  }

  lemma SnapshotHeight()
    ensures StructHeight(PROTOCOL, 3) <= 2
  {
    forall i | 0 <= i < 9 ensures TypeHeight(PROTOCOL, 3, Unwrap(SYSTEM_SNAPSHOT.fields[i].ftype)) <= 1 {
      SnapshotFieldHeight(i);
    }
    FieldsHeightBound(3, 9, 1);
  }

  lemma QuoteHeight()
    ensures StructHeight(PROTOCOL, 4) <= 2
  {
    FieldsHeightBound(4, 5, 1);
  }

  lemma RequestHeight()
    ensures StructHeight(PROTOCOL, 5) <= 3
  {
    SnapshotHeight();
    QuoteHeight();
    ReferenceHeight(5, 3);
    ReferenceHeight(5, 4);
    FieldsHeightBound(5, 4, 2);
  }

  lemma VerdictHeight()
    ensures StructHeight(PROTOCOL, 7) <= 3
  {
    FlatHeight(6);
    ReferenceHeight(7, 6);
    FieldsHeightBound(7, 8, 2);
  }

  // --- End to end ---------------------------------------------------------------------------

  /** The gate's three messages: the system snapshot, the attestation request, the verdict. */
  const GATE_MESSAGES: set<nat> := {3, 5, 7}

  lemma GateMessagesShallow(j: nat)
    requires j in GATE_MESSAGES
    ensures StructHeight(PROTOCOL, j) <= 3
  {
    SnapshotHeight();
    RequestHeight();
    VerdictHeight();
  }

  lemma GateMessageHeight(reg: Registry, j: nat, m: Msg)
    requires reg == PROTOCOL && j in GATE_MESSAGES && StructConforms(reg, j, m, false)
    ensures Height(EncodeStruct(reg, j, m)) <= 3
  {
    ProtocolReady();
    GateMessagesShallow(j);
    EncodedStructShape(reg, j, m);
  }

  /** Every constraint-satisfying snapshot, request and verdict survives the wire unchanged. */
  lemma GateMessageWireRoundTrip(lib: FloatLib, reg: Registry, j: nat, m: Msg)
    requires reg == PROTOCOL && j in GATE_MESSAGES && StructConforms(reg, j, m, true)
    ensures StructConforms(reg, j, m, false)
    ensures var parsed := Parse(lib, Text(lib, EncodeStruct(reg, j, m)));
      parsed.Some? && DecodeStruct(lib, reg, j, parsed.value) == Some(m)
  {
    ProtocolReady();
    GateMessagesShallow(j);
    WireRoundTrip(lib, reg, j, m);
  }
}
