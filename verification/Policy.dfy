/** The policy evaluator: which requirements a snapshot meets, and what follows at a tier.
    A `char` stands for one UTF-16 unit. */
module Policy {
  import opened Common

  datatype Tier = Relaxed | Standard | Strict
  datatype Enforcement = Block | Warn | Skip
  datatype FeatureState = Enabled | Disabled | Unknown
  datatype Decision = Allow | Deny

  datatype RequirementId =
    | CompanionAttested | TestSigningDisabled | KernelDebuggingDisabled | VulnerableDriversAbsent
    | SecureBootEnabled | TpmAttestationValid | HvciEnabled | DriverBlocklistEnabled | IommuEnabled
    | GameProcessPresent | NetworkOriginMatches

  datatype DenyReason =
    | CompanionMissing | CompanionTimeout | CompanionOutdated | AttestationInvalid | NonceExpired
    | NonceReused | NetworkOriginMismatch | GameProcessMissing | PolicyNotMet | HeartbeatLost
    | BackendUnavailable | Banned

  datatype Status = Pass | Failed | Warned | Skipped | Undetermined

  /** The German explanations beside a status. */
  datatype Detail =
    | Unreadable | BlockedBy(driver: string) | NoTpm | TpmPresent | NoGameProcess | OtherAddress
    | DriverCheckLater | NoAttestation

  datatype RequirementResult = RequirementResult(requirement: RequirementId, status: Status, detail: Option<Detail>)

  datatype Features = Features(secureBoot: FeatureState, hvci: FeatureState, testSigning: FeatureState,
    kernelDebugging: FeatureState, driverBlocklist: FeatureState, iommu: FeatureState)

  datatype Snapshot = Snapshot(features: Features, tpmPresent: bool, gameProcess: bool,
    probeErrors: seq<string>, buildHash: string)

  datatype Input = Input(tier: Tier, snapshot: Snapshot, gameIp: string, attestationIp: string, buildAccepted: bool)

  datatype Outcome = Outcome(decision: Decision, reasons: seq<DenyReason>, requirements: seq<RequirementResult>)

  // --- The table -------------------------------------------------------------------

  /** What a tier enforces: one column of a policy table. */
  type Column = RequirementId -> Enforcement

  function Target(id: RequirementId, tier: Tier): Enforcement {
    match id
    case VulnerableDriversAbsent => if tier == Relaxed then Warn else Block
    case IommuEnabled => (match tier case Relaxed => Skip case Standard => Warn case Strict => Block)
    case SecureBootEnabled | TpmAttestationValid | HvciEnabled | DriverBlocklistEnabled =>
      if tier == Relaxed then Skip else Block
    case _ => Block
  }

  function Override(id: RequirementId): Option<Enforcement> {
    if id == VulnerableDriversAbsent then Some(Skip) else None
  }

  /** The table in force: the targets with the overrides applied. */
  function InForce(tier: Tier): Column {
    (id: RequirementId) => match Override(id) case Some(e) => e case None => Target(id, tier)
  }

  const REPORT_ORDER := [
    CompanionAttested, TestSigningDisabled, KernelDebuggingDisabled, GameProcessPresent, NetworkOriginMatches,
    SecureBootEnabled, TpmAttestationValid, HvciEnabled, DriverBlocklistEnabled, VulnerableDriversAbsent,
    IommuEnabled]

  /** Every requirement is reported, once. */
  function Position(id: RequirementId): (i: nat)
    ensures i < |REPORT_ORDER| == 11 && REPORT_ORDER[i] == id
  {
    match id
    case CompanionAttested => 0 case TestSigningDisabled => 1 case KernelDebuggingDisabled => 2
    case GameProcessPresent => 3 case NetworkOriginMatches => 4 case SecureBootEnabled => 5
    case TpmAttestationValid => 6 case HvciEnabled => 7 case DriverBlocklistEnabled => 8
    case VulnerableDriversAbsent => 9 case IommuEnabled => 10
  }

  // --- Findings --------------------------------------------------------------------

  datatype Met = Yes | No | CannotTell
  datatype Finding = Finding(met: Met, detail: Option<Detail>)

  const HVCI_PREFIX := "hvci_blocked_by:"

  function Expect(actual: FeatureState, wanted: FeatureState): Finding {
    if actual == wanted then Finding(Yes, None)
    else if actual == Unknown then Finding(CannotTell, Some(Unreadable))
    else Finding(No, None)
  }

  function FirstWithPrefix(prefix: string, entries: seq<string>): (r: Option<string>)
    ensures r.Some? ==> exists i :: 0 <= i < |entries| && entries[i] == r.value && prefix <= r.value
    ensures r.None? ==> forall i | 0 <= i < |entries| :: !(prefix <= entries[i])
  {
    if entries == [] then None
    else if prefix <= entries[0] then Some(entries[0])
    else FirstWithPrefix(prefix, entries[1..])
  }

  function HvciFinding(state: FeatureState, snapshot: Snapshot): Finding {
    if state != Disabled then Expect(state, Enabled)
    else match FirstWithPrefix(HVCI_PREFIX, snapshot.probeErrors)
      case None => Finding(No, None)
      case Some(entry) => Finding(No, Some(BlockedBy(entry[|HVCI_PREFIX|..])))
  }

  function Find(input: Input, id: RequirementId): Finding {
    var features := input.snapshot.features;
    match id
    case CompanionAttested => Finding(Yes, None)
    case TestSigningDisabled => Expect(features.testSigning, Disabled)
    case KernelDebuggingDisabled => Expect(features.kernelDebugging, Disabled)
    case SecureBootEnabled => Expect(features.secureBoot, Enabled)
    case HvciEnabled => HvciFinding(features.hvci, input.snapshot)
    case DriverBlocklistEnabled => Expect(features.driverBlocklist, Enabled)
    case IommuEnabled => Expect(features.iommu, Enabled)
    case TpmAttestationValid =>
      if input.snapshot.tpmPresent then Finding(Yes, Some(TpmPresent)) else Finding(No, Some(NoTpm))
    case VulnerableDriversAbsent => Finding(CannotTell, Some(DriverCheckLater))
    case GameProcessPresent =>
      if input.snapshot.gameProcess then Finding(Yes, None) else Finding(No, Some(NoGameProcess))
    case NetworkOriginMatches =>
      if NormaliseIp(input.gameIp) == NormaliseIp(input.attestationIp) then Finding(Yes, None)
      else Finding(No, Some(OtherAddress))
  }

  // --- The declarative reading --------------------------------------------------------

  function ReasonFor(id: RequirementId): DenyReason {
    match id
    case GameProcessPresent => GameProcessMissing
    case NetworkOriginMatches => NetworkOriginMismatch
    case _ => PolicyNotMet
  }

  /** The requirement is enforced as `block` and the evidence does not meet it. */
  predicate Blocks(column: Column, input: Input, id: RequirementId) {
    column(id) == Block && Find(input, id).met != Yes
  }

  function Judge(enforcement: Enforcement, met: Met): Status {
    if enforcement == Skip then Skipped
    else match met
      case Yes => Pass
      case CannotTell => Undetermined
      case No => if enforcement == Warn then Warned else Failed
  }

  function ResultOf(column: Column, input: Input, id: RequirementId): RequirementResult {
    RequirementResult(id, Judge(column(id), Find(input, id).met), Find(input, id).detail)
  }

  /** A set that remembers the order of first insertion. */
  function Insert(reasons: seq<DenyReason>, reason: DenyReason): (r: seq<DenyReason>) {
    if reason in reasons then reasons else reasons + [reason]
  }

  function ReasonsOf(column: Column, input: Input, n: nat): seq<DenyReason>
    requires n <= |REPORT_ORDER|
  {
    if n == 0 then []
    else
      var front, id := ReasonsOf(column, input, n - 1), REPORT_ORDER[n - 1];
      if Blocks(column, input, id) then Insert(front, ReasonFor(id)) else front
  }

  function Reasons(column: Column, input: Input): seq<DenyReason> {
    var reasons := ReasonsOf(column, input, |REPORT_ORDER|);
    if input.buildAccepted then reasons else Insert(reasons, CompanionOutdated)
  }

  function Evaluate(column: Column, input: Input): Outcome {
    var reasons := Reasons(column, input);
    Outcome(if reasons == [] then Allow else Deny, reasons,
      seq(|REPORT_ORDER|, i requires 0 <= i < |REPORT_ORDER| => ResultOf(column, input, REPORT_ORDER[i])))
  }

  method EvaluatePolicy(column: Column, input: Input) returns (outcome: Outcome)
    ensures outcome == Evaluate(column, input)
  {
    var requirements: seq<RequirementResult> := [];
    var reasons: seq<DenyReason> := [];
    for i := 0 to |REPORT_ORDER|
      invariant |requirements| == i
      invariant forall j | 0 <= j < i :: requirements[j] == ResultOf(column, input, REPORT_ORDER[j])
      invariant reasons == ReasonsOf(column, input, i)
    {
      var id := REPORT_ORDER[i];
      var enforcement, finding := column(id), Find(input, id);
      if enforcement == Skip {
        requirements := requirements + [RequirementResult(id, Skipped, finding.detail)];
        continue;
      }
      if finding.met == Yes {
        requirements := requirements + [RequirementResult(id, Pass, finding.detail)];
        continue;
      }
      var status := if finding.met == CannotTell then Undetermined else if enforcement == Warn then Warned else Failed;
      requirements := requirements + [RequirementResult(id, status, finding.detail)];
      if enforcement == Block {
        reasons := Insert(reasons, ReasonFor(id));
      }
    }
    if !input.buildAccepted {
      reasons := Insert(reasons, CompanionOutdated);
    }
    outcome := Outcome(if |reasons| == 0 then Allow else Deny, reasons, requirements);
  }

  // --- What it decides -----------------------------------------------------------------

  /** The reasons, up to a position: each once, and exactly those of a blocking requirement. */
  lemma {:induction false} ReasonsOfExact(column: Column, input: Input, n: nat)
    requires n <= |REPORT_ORDER|
    ensures var rs := ReasonsOf(column, input, n);
      && |rs| <= n
      && (forall i, j | 0 <= i < j < |rs| :: rs[i] != rs[j])
      && (forall r :: r in rs <==>
            exists i :: 0 <= i < n && Blocks(column, input, REPORT_ORDER[i]) && r == ReasonFor(REPORT_ORDER[i]))
  {
    if n > 0 { ReasonsOfExact(column, input, n - 1); }
  }

  predicate Justified(column: Column, input: Input, reason: DenyReason) {
    || (reason == CompanionOutdated && !input.buildAccepted)
    || exists id :: Blocks(column, input, id) && reason == ReasonFor(id)
  }

  lemma ReasonsExact(column: Column, input: Input)
    ensures var rs := Reasons(column, input);
      && |rs| <= 12
      && (forall i, j | 0 <= i < j < |rs| :: rs[i] != rs[j])
      && (forall r :: r in rs <==> Justified(column, input, r))
  {
    ReasonsOfExact(column, input, |REPORT_ORDER|);
    forall id | Blocks(column, input, id) ensures ReasonFor(id) in ReasonsOf(column, input, |REPORT_ORDER|) {
      assert REPORT_ORDER[Position(id)] == id;
    }
  }

  /** Allowed if and only if the build is accepted and every requirement enforced as `block`
      is met. */
  lemma AllowedExactly(column: Column, input: Input)
    ensures Evaluate(column, input).decision == Allow
      <==> input.buildAccepted && forall id | column(id) == Block :: Find(input, id).met == Yes
  {
    ReasonsExact(column, input);
    var rs := Reasons(column, input);
    assert rs == [] <==> forall r :: r !in rs by { assert rs != [] ==> rs[0] in rs; }
    if rs == [] && !input.buildAccepted {
      assert Justified(column, input, CompanionOutdated);
    }
    forall id | rs == [] && column(id) == Block ensures Find(input, id).met == Yes {
      assert !Justified(column, input, ReasonFor(id));
    }
  }

  /** What every tier demands. */
  predicate BaselineMet(input: Input) {
    && input.snapshot.features.testSigning == Disabled && input.snapshot.features.kernelDebugging == Disabled
    && input.snapshot.gameProcess
    && NormaliseIp(input.gameIp) == NormaliseIp(input.attestationIp)
  }

  /** What `standard` and `strict` demand on top. */
  predicate PlatformMet(snapshot: Snapshot) {
    && snapshot.features.secureBoot == Enabled && snapshot.features.hvci == Enabled
    && snapshot.features.driverBlocklist == Enabled && snapshot.tpmPresent
  }

  /** Every requirement the table in force blocks on is met. */
  predicate AllMet(tier: Tier, input: Input) {
    forall id | InForce(tier)(id) == Block :: Find(input, id).met == Yes
  }

  /** What a machine has to be to be let in at a tier. */
  predicate Demanded(tier: Tier, input: Input) {
    && BaselineMet(input)
    && (tier != Relaxed ==> PlatformMet(input.snapshot))
    && (tier == Strict ==> input.snapshot.features.iommu == Enabled)
  }

  lemma BlockedIsMet(tier: Tier, input: Input, id: RequirementId)
    requires AllMet(tier, input) && InForce(tier)(id) == Block
    ensures Find(input, id).met == Yes
  {
  }

  lemma MetIsBaseline(tier: Tier, input: Input)
    requires AllMet(tier, input)
    ensures BaselineMet(input)
  {
    BlockedIsMet(tier, input, TestSigningDisabled);
    BlockedIsMet(tier, input, KernelDebuggingDisabled);
    BlockedIsMet(tier, input, GameProcessPresent);
    BlockedIsMet(tier, input, NetworkOriginMatches);
  }

  lemma MetIsPlatform(tier: Tier, input: Input)
    requires AllMet(tier, input) && tier != Relaxed
    ensures PlatformMet(input.snapshot)
  {
    BlockedIsMet(tier, input, SecureBootEnabled);
    BlockedIsMet(tier, input, HvciEnabled);
    BlockedIsMet(tier, input, DriverBlocklistEnabled);
    BlockedIsMet(tier, input, TpmAttestationValid);
  }

  lemma MetIsIommu(input: Input)
    requires AllMet(Strict, input)
    ensures input.snapshot.features.iommu == Enabled
  {
    BlockedIsMet(Strict, input, IommuEnabled);
  }

  lemma MetIsDemanded(tier: Tier, input: Input)
    requires AllMet(tier, input)
    ensures Demanded(tier, input)
  {
    MetIsBaseline(tier, input);
    if tier != Relaxed { MetIsPlatform(tier, input); }
    if tier == Strict { MetIsIommu(input); }
  }

  lemma DemandedIsMet(tier: Tier, input: Input, id: RequirementId)
    requires Demanded(tier, input) && InForce(tier)(id) == Block
    ensures Find(input, id).met == Yes
  {
  }

  /** The table in force, read as a whole. */
  lemma AllowedAtTier(tier: Tier, input: Input)
    ensures Evaluate(InForce(tier), input).decision == Allow <==> input.buildAccepted && Demanded(tier, input)
  {
    AllowedExactly(InForce(tier), input);
    if AllMet(tier, input) {
      MetIsDemanded(tier, input);
    }
    if Demanded(tier, input) {
      forall id | InForce(tier)(id) == Block ensures Find(input, id).met == Yes { DemandedIsMet(tier, input, id); }
    }
  }

  // --- Stricter tables ------------------------------------------------------------------

  function Rank(e: Enforcement): nat {
    match e case Skip => 0 case Warn => 1 case Block => 2
  }

  ghost predicate NoStricter(a: Column, b: Column) {
    forall id :: Rank(a(id)) <= Rank(b(id))
  }

  /** A pointwise stricter table only adds reasons, so it allows no more. */
  lemma StricterAddsReasons(a: Column, b: Column, input: Input)
    requires NoStricter(a, b)
    ensures forall r :: r in Reasons(a, input) ==> r in Reasons(b, input)
    ensures Evaluate(b, input).decision == Allow ==> Evaluate(a, input).decision == Allow
  {
    ReasonsExact(a, input);
    ReasonsExact(b, input);
    forall r | Justified(a, input, r) ensures Justified(b, input, r) {
      if r != CompanionOutdated || input.buildAccepted {
        var id :| Blocks(a, input, id) && r == ReasonFor(id);
        assert Blocks(b, input, id);
      }
    }
    if Reasons(a, input) != [] {
      assert Reasons(a, input)[0] in Reasons(b, input);
    }
  }

  /** Allowed at `strict` implies allowed at `standard` implies allowed at `relaxed`. */
  lemma TiersNest(input: Input)
    ensures Evaluate(InForce(Strict), input).decision == Allow ==> Evaluate(InForce(Standard), input).decision == Allow
    ensures Evaluate(InForce(Standard), input).decision == Allow ==> Evaluate(InForce(Relaxed), input).decision == Allow
  {
    StricterAddsReasons(InForce(Standard), InForce(Strict), input);
    StricterAddsReasons(InForce(Relaxed), InForce(Standard), input);
  }

  // --- Addresses -------------------------------------------------------------------------

  predicate IsSpace(c: char) {
    c == ' ' || c == '\t' || c == '\n' || c == '\r' || c == '\U{B}' || c == '\U{C}'
  }

  function TrimStart(s: string): (r: string)
    ensures r == "" || !IsSpace(r[0])
    ensures s != "" && !IsSpace(s[0]) ==> r == s
  {
    if s != "" && IsSpace(s[0]) then TrimStart(s[1..]) else s
  }

  function TrimEnd(s: string): (r: string)
    ensures r <= s
    ensures r == "" || !IsSpace(r[|r| - 1])
    ensures s != "" && !IsSpace(s[|s| - 1]) ==> r == s
  {
    if s != "" && IsSpace(s[|s| - 1]) then TrimEnd(s[..|s| - 1]) else s
  }

  function LowerChar(c: char): char {
    if 'A' <= c <= 'Z' then c - 'A' + 'a' else c
  }

  function Lower(s: string): (r: string)
    ensures |r| == |s| && forall i | 0 <= i < |s| :: r[i] == LowerChar(s[i])
  {
    seq(|s|, i requires 0 <= i < |s| => LowerChar(s[i]))
  }

  /** `dots + 1` groups of one to three digits, joined by dots, and nothing else. */
  predicate IsGroups(s: string, dots: nat) {
    var n := DigitRun(s);
    && 1 <= n <= 3
    && if dots == 0 then n == |s| else n < |s| && s[n] == '.' && IsGroups(s[n + 1..], dots - 1)
  }

  predicate IsQuad(s: string) {
    IsGroups(s, 3)
  }

  const MAPPED_PREFIX := "::ffff:"

  function NormaliseIp(address: string): string {
    var lowered := Lower(TrimEnd(TrimStart(address)));
    if MAPPED_PREFIX <= lowered && IsQuad(lowered[|MAPPED_PREFIX|..]) then lowered[|MAPPED_PREFIX|..] else lowered
  }

  predicate DigitOrDot(c: char) {
    IsDigit(c) || c == '.'
  }

  lemma GroupsJoined(s: string, n: nat, rest: string)
    requires 0 < n < |s| - 1 && s[n] == '.' && rest == s[n + 1..]
    requires (forall i | 0 <= i < n :: IsDigit(s[i])) && forall i | 0 <= i < |rest| :: DigitOrDot(rest[i])
    ensures (forall i | 0 <= i < |s| :: DigitOrDot(s[i])) && s[|s| - 1] == rest[|rest| - 1]
  {
    forall i | 0 <= i < |s| ensures DigitOrDot(s[i]) {
      if i > n { assert s[i] == rest[i - n - 1]; }
    }
  }

  lemma {:induction false} GroupsAreDigitsAndDots(s: string, dots: nat)
    requires IsGroups(s, dots)
    ensures s != "" && forall i | 0 <= i < |s| :: DigitOrDot(s[i])
    ensures IsDigit(s[0]) && IsDigit(s[|s| - 1])
  {
    var n := DigitRun(s);
    if dots > 0 {
      GroupsAreDigitsAndDots(s[n + 1..], dots - 1);
      GroupsJoined(s, n, s[n + 1..]);
    }
  }

  lemma TrimmedIsFixed(s: string)
    requires s == "" || (!IsSpace(s[0]) && !IsSpace(s[|s| - 1]))
    ensures TrimEnd(TrimStart(s)) == s
  {
  }

  lemma QuadIsNormal(s: string)
    requires IsQuad(s)
    ensures NormaliseIp(s) == s
  {
    GroupsAreDigitsAndDots(s, 3);
    TrimmedIsFixed(s);
    forall i | 0 <= i < |s| ensures LowerChar(s[i]) == s[i] { assert DigitOrDot(s[i]); }
    assert Lower(s) == s;
  }

  /** Trimmed and lower-cased once, nothing is left to trim or to lower. */
  lemma LoweredIsFixed(address: string)
    ensures var s := Lower(TrimEnd(TrimStart(address))); Lower(TrimEnd(TrimStart(s))) == s
  {
    var started := TrimStart(address);
    var trimmed := TrimEnd(started);
    var s := Lower(trimmed);
    if trimmed != "" {
      assert trimmed[0] == started[0];
      assert s[0] == LowerChar(trimmed[0]) && s[|s| - 1] == LowerChar(trimmed[|trimmed| - 1]);
    }
    TrimmedIsFixed(s);
    assert Lower(s) == s;
  }

  lemma NormaliseIdempotent(address: string)
    ensures NormaliseIp(NormaliseIp(address)) == NormaliseIp(address)
  {
    var s := Lower(TrimEnd(TrimStart(address)));
    LoweredIsFixed(address);
    if MAPPED_PREFIX <= s && IsQuad(s[|MAPPED_PREFIX|..]) { QuadIsNormal(s[|MAPPED_PREFIX|..]); }
  }

  lemma QuadLower(quad: string)
    requires IsQuad(quad)
    ensures Lower(quad) == quad && quad != "" && !IsSpace(quad[|quad| - 1])
  {
    GroupsAreDigitsAndDots(quad, 3);
    forall i | 0 <= i < |quad| ensures LowerChar(quad[i]) == quad[i] { assert DigitOrDot(quad[i]); }
  }

  lemma LowerAppend(a: string, b: string)
    ensures Lower(a + b) == Lower(a) + Lower(b)
  {
  }

  lemma TrimmedAppend(prefix: string, quad: string)
    requires prefix != "" && !IsSpace(prefix[0]) && quad != "" && !IsSpace(quad[|quad| - 1])
    ensures TrimEnd(TrimStart(prefix + quad)) == prefix + quad
  {
    var s := prefix + quad;
    assert s[|s| - 1] == quad[|quad| - 1];
    TrimmedIsFixed(s);
  }

  lemma MappedForm(lowered: string, quad: string)
    requires IsQuad(quad) && lowered == MAPPED_PREFIX + quad
    ensures MAPPED_PREFIX <= lowered && lowered[|MAPPED_PREFIX|..] == quad
  {
  }

  lemma PrefixStarts(prefix: string)
    requires Lower(prefix) == MAPPED_PREFIX
    ensures prefix != "" && !IsSpace(prefix[0])
  {
    assert |prefix| == |MAPPED_PREFIX| && LowerChar(prefix[0]) == MAPPED_PREFIX[0];
  }

  /** An IPv4-mapped IPv6 address, in either case, counts as its IPv4 form. */
  lemma MappedMatchesPlain(quad: string, prefix: string)
    requires IsQuad(quad) && Lower(prefix) == MAPPED_PREFIX
    ensures NormaliseIp(prefix + quad) == NormaliseIp(quad)
  {
    QuadLower(quad);
    QuadIsNormal(quad);
    PrefixStarts(prefix);
    TrimmedAppend(prefix, quad);
    LowerAppend(prefix, quad);
    MappedForm(Lower(prefix + quad), quad);
  }
}
