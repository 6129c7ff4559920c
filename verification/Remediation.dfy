/** The player-facing explanation, and the verdicts it goes into. The German texts are named,
    and known by their length in UTF-16 units. */
module Remediation {
  import opened Common
  import opened Policy

  datatype Text =
    | ForRequirement(requirement: RequirementId, detail: Option<Detail>, uncertain: bool)
    | ForReason(reason: DenyReason)
    | NoAnswerInTime

  datatype FailMode = FailOpen | FailClosed

  /** The verdict fields that `recordVerdict` writes and `toVerdict` answers. */
  datatype Verdict = Verdict(decision: Decision, reasons: seq<DenyReason>, requirements: seq<RequirementResult>,
    remediation: Option<Text>, failOpen: bool)

  // --- Which requirements and reasons have a text -------------------------------------

  predicate HasRequirementText(id: RequirementId) {
    id != CompanionAttested
  }

  predicate HasReasonText(reason: DenyReason) {
    reason != NetworkOriginMismatch && reason != GameProcessMissing && reason != PolicyNotMet
  }

  predicate Stuck(entry: RequirementResult) {
    entry.status == Failed || entry.status == Undetermined
  }

  /** The first failed or undetermined entry. */
  function FirstStuck(requirements: seq<RequirementResult>): (r: Option<nat>)
    ensures r.Some? ==> r.value < |requirements| && Stuck(requirements[r.value])
    ensures r.Some? ==> forall i | 0 <= i < r.value :: !Stuck(requirements[i])
    ensures r.None? ==> forall i | 0 <= i < |requirements| :: !Stuck(requirements[i])
  {
    if requirements == [] then None
    else if Stuck(requirements[0]) then Some(0)
    else match FirstStuck(requirements[1..])
      case None => None
      case Some(i) => Some(i + 1)
  }

  function FirstReasonText(reasons: seq<DenyReason>): (r: Option<Text>)
    ensures r.Some? <==> exists i :: 0 <= i < |reasons| && HasReasonText(reasons[i])
  {
    if reasons == [] then None
    else if HasReasonText(reasons[0]) then Some(ForReason(reasons[0]))
    else FirstReasonText(reasons[1..])
  }

  function BuildRemediation(reasons: seq<DenyReason>, requirements: seq<RequirementResult>): Option<Text> {
    match FirstStuck(requirements)
    case Some(i) =>
      var entry := requirements[i];
      if HasRequirementText(entry.requirement)
      then Some(ForRequirement(entry.requirement, entry.detail, entry.status == Undetermined))
      else FirstReasonText(reasons)
    case None => FirstReasonText(reasons)
  }

  lemma {:induction false} FirstReasonExactly(reasons: seq<DenyReason>, k: nat)
    requires k <= |reasons|
    requires forall i | 0 <= i < k :: reasons[i] in [NetworkOriginMismatch, GameProcessMissing, PolicyNotMet]
    ensures k == |reasons| ==> FirstReasonText(reasons) == None
    ensures k < |reasons| && reasons[k] !in [NetworkOriginMismatch, GameProcessMissing, PolicyNotMet] ==>
      FirstReasonText(reasons) == Some(ForReason(reasons[k]))
  {
    if k > 0 { FirstReasonExactly(reasons[1..], k - 1); }
  }

  /** What is explained: the first entry that failed or could not be determined, unless it is the
      attestation itself; else the first reason that is none of the three with a requirement. */
  lemma ExplainedExactly(reasons: seq<DenyReason>, requirements: seq<RequirementResult>, i: nat, k: nat)
    requires i <= |requirements| && k <= |reasons|
    requires forall j | 0 <= j < i :: requirements[j].status in [Pass, Warned, Skipped]
    requires i < |requirements| ==> requirements[i].status in [Failed, Undetermined]
    requires forall j | 0 <= j < k :: reasons[j] in [NetworkOriginMismatch, GameProcessMissing, PolicyNotMet]
    requires k < |reasons| ==> reasons[k] !in [NetworkOriginMismatch, GameProcessMissing, PolicyNotMet]
    ensures BuildRemediation(reasons, requirements)
         == if i < |requirements| && requirements[i].requirement != CompanionAttested then
              Some(ForRequirement(requirements[i].requirement, requirements[i].detail,
                                  requirements[i].status == Undetermined))
            else if k < |reasons| then Some(ForReason(reasons[k])) else None
  {
    FirstReasonExactly(reasons, k);
    assert forall j | 0 <= j < i :: !Stuck(requirements[j]);
    assert FirstStuck(requirements) == if i < |requirements| then Some(i) else None;
  }

  // --- The two kinds of verdict ---------------------------------------------------------

  function PolicyVerdict(input: Input): Verdict {
    var o := Evaluate(InForce(input.tier), input);
    Verdict(o.decision, o.reasons, o.requirements, BuildRemediation(o.reasons, o.requirements), false)
  }

  function TimeoutVerdict(mode: FailMode): Verdict {
    var requirements := [RequirementResult(CompanionAttested, Failed, Some(NoAttestation))];
    match mode
    case FailOpen => Verdict(Allow, [], requirements, None, true)
    case FailClosed =>
      var text := match BuildRemediation([CompanionTimeout], requirements)
        case Some(t) => t
        case None => NoAnswerInTime;
      Verdict(Deny, [CompanionTimeout], requirements, Some(text), false)
  }

  // --- What gets explained -----------------------------------------------------------------

  /** The one entry that can be undetermined without blocking: the IOMMU, at `standard`. */
  predicate UndeterminedWarning(input: Input) {
    input.tier == Standard && input.snapshot.features.iommu == Unknown
  }

  lemma StuckExactly(input: Input, id: RequirementId)
    ensures Stuck(ResultOf(InForce(input.tier), input, id))
      <==> Blocks(InForce(input.tier), input, id) || (id == IommuEnabled && UndeterminedWarning(input))
  {
  }

  predicate AnyBlocks(input: Input) {
    exists id :: Blocks(InForce(input.tier), input, id)
  }

  /** The blocking requirement that comes first in report order. */
  ghost predicate FirstBlocker(input: Input, id: RequirementId) {
    && Blocks(InForce(input.tier), input, id)
    && forall other | Position(other) < Position(id) :: !Blocks(InForce(input.tier), input, other)
  }

  lemma {:induction false} FirstBlockerExists(input: Input, id: RequirementId)
    requires Blocks(InForce(input.tier), input, id)
    ensures exists first :: FirstBlocker(input, first)
    decreases Position(id)
  {
    if !FirstBlocker(input, id) {
      var other :| Position(other) < Position(id) && Blocks(InForce(input.tier), input, other);
      FirstBlockerExists(input, other);
    }
  }

  /** If any requirement blocked, the one explained is a blocking one: the first in report
      order. */
  lemma ExplainsABlockingRequirement(input: Input, id: RequirementId)
    requires FirstBlocker(input, id)
    ensures PolicyVerdict(input).remediation
      == Some(ForRequirement(id, Find(input, id).detail, Find(input, id).met == CannotTell))
  {
    var rs := Evaluate(InForce(input.tier), input).requirements;
    var entry := ResultOf(InForce(input.tier), input, id);
    StuckExactly(input, id);
    assert rs[Position(id)] == entry;
    forall i | 0 <= i < Position(id) ensures !Stuck(rs[i]) { EarlierNotStuck(input, id, i); }
    FirstStuckExplained(Reasons(InForce(input.tier), input), rs, Position(id));
  }

  lemma EarlierNotStuck(input: Input, id: RequirementId, i: nat)
    requires FirstBlocker(input, id) && i < Position(id)
    ensures !Stuck(ResultOf(InForce(input.tier), input, REPORT_ORDER[i]))
  {
    StuckExactly(input, REPORT_ORDER[i]);
    assert Position(REPORT_ORDER[i]) == i;
  }

  lemma FirstStuckExplained(reasons: seq<DenyReason>, rs: seq<RequirementResult>, i: nat)
    requires i < |rs| && Stuck(rs[i]) && HasRequirementText(rs[i].requirement)
    requires forall j | 0 <= j < i :: !Stuck(rs[j])
    ensures BuildRemediation(reasons, rs)
      == Some(ForRequirement(rs[i].requirement, rs[i].detail, rs[i].status == Undetermined))
  {
    assert FirstStuck(rs) == Some(i);
  }

  lemma {:induction false} NothingBlocksNoReasons(input: Input, n: nat)
    requires !AnyBlocks(input) && n <= |REPORT_ORDER|
    ensures ReasonsOf(InForce(input.tier), input, n) == []
  {
    if n > 0 { NothingBlocksNoReasons(input, n - 1); }
  }

  /** With nothing blocking, an undetermined IOMMU at `standard` is explained all the same,
      and otherwise an outdated build. */
  lemma ExplainsWithoutBlocker(input: Input)
    requires !AnyBlocks(input)
    ensures PolicyVerdict(input).remediation ==
      if UndeterminedWarning(input) then Some(ForRequirement(IommuEnabled, Some(Unreadable), true))
      else if input.buildAccepted then None
      else Some(ForReason(CompanionOutdated))
  {
    var rs := Evaluate(InForce(input.tier), input).requirements;
    forall i | 0 <= i < |rs| ensures Stuck(rs[i]) <==> REPORT_ORDER[i] == IommuEnabled && UndeterminedWarning(input) {
      StuckExactly(input, REPORT_ORDER[i]);
    }
    NothingBlocksNoReasons(input, |REPORT_ORDER|);
    if UndeterminedWarning(input) {
      assert Stuck(rs[10]);
    }
  }

  lemma DeniedExactly(input: Input)
    ensures PolicyVerdict(input).decision == Deny <==> AnyBlocks(input) || !input.buildAccepted
  {
    var column := InForce(input.tier);
    AllowedExactly(column, input);
    if id :| Blocks(column, input, id) {
      assert column(id) == Block && Find(input, id).met != Yes;
    } else {
      forall id | column(id) == Block ensures Find(input, id).met == Yes { assert !Blocks(column, input, id); }
    }
  }

  /** Every deny carries a remediation, and the only allow that does is the one with an
      undetermined IOMMU at `standard`. */
  lemma RemediationExactly(input: Input)
    ensures PolicyVerdict(input).remediation.Some?
      <==> PolicyVerdict(input).decision == Deny || UndeterminedWarning(input)
  {
    DeniedExactly(input);
    if id :| Blocks(InForce(input.tier), input, id) {
      FirstBlockerExists(input, id);
      var first :| FirstBlocker(input, first);
      ExplainsABlockingRequirement(input, first);
    } else {
      ExplainsWithoutBlocker(input);
    }
  }

  /** What a denied player is told names the cause, unless an outdated build hides behind an
      undetermined IOMMU. */
  lemma ExplainsTheCauseExactly(input: Input)
    requires PolicyVerdict(input).decision == Deny
    ensures
      (match PolicyVerdict(input).remediation
       case Some(ForRequirement(id, _, _)) => Blocks(InForce(input.tier), input, id)
       case Some(ForReason(reason)) => reason in PolicyVerdict(input).reasons
       case _ => false)
      <==> AnyBlocks(input) || !UndeterminedWarning(input)
  {
    DeniedExactly(input);
    if id :| Blocks(InForce(input.tier), input, id) {
      FirstBlockerExists(input, id);
      var first :| FirstBlocker(input, first);
      ExplainsABlockingRequirement(input, first);
    } else {
      ExplainsWithoutBlocker(input);
      ReasonsExact(InForce(input.tier), input);
      assert Justified(InForce(input.tier), input, CompanionOutdated);
    }
  }

  /** Such a player: denied for an outdated build only, and told to look after the IOMMU. */
  lemma HiddenCause(ip: string, build: string)
    ensures var features := Features(Enabled, Enabled, Disabled, Disabled, Enabled, Unknown);
      var v := PolicyVerdict(Input(Standard, Snapshot(features, true, true, [], build), ip, ip, false));
      && v.decision == Deny && v.reasons == [CompanionOutdated]
      && v.remediation == Some(ForRequirement(IommuEnabled, Some(Unreadable), true))
  {
    var features := Features(Enabled, Enabled, Disabled, Disabled, Enabled, Unknown);
    var input := Input(Standard, Snapshot(features, true, true, [], build), ip, ip, false);
    forall id ensures !Blocks(InForce(Standard), input, id) { MeetsStandard(input, id); }
    ExplainsWithoutBlocker(input);
    NothingBlocksNoReasons(input, |REPORT_ORDER|);
  }

  lemma MeetsStandard(input: Input, id: RequirementId)
    requires input.tier == Standard && BaselineMet(input) && PlatformMet(input.snapshot)
    ensures !Blocks(InForce(Standard), input, id)
  {
    if InForce(Standard)(id) == Block { DemandedIsMet(Standard, input, id); }
  }

  // --- Wire bounds -----------------------------------------------------------------------------

  function DetailLength(d: Detail): nat {
    match d
    case Unreadable => 37
    case BlockedBy(driver) => 16 + |driver|
    case NoTpm => 21
    case TpmPresent => 51
    case NoGameProcess => 37
    case OtherAddress => 65
    case DriverCheckLater => 31
    case NoAttestation => 44
  }

  function RequirementTextLength(id: RequirementId, detail: Option<Detail>): nat {
    match id
    case CompanionAttested => 0
    case SecureBootEnabled => 241
    case HvciEnabled => (match detail case None => 172 case Some(d) => 242 + DetailLength(d))
    case TpmAttestationValid => 217
    case TestSigningDisabled => 150
    case KernelDebuggingDisabled => 127
    case DriverBlocklistEnabled => 204
    case IommuEnabled => 153
    case GameProcessPresent => 127
    case NetworkOriginMatches => 101
    case VulnerableDriversAbsent => 133
  }

  function ReasonTextLength(reason: DenyReason): nat {
    match reason
    case CompanionMissing => 78
    case CompanionTimeout => 100
    case CompanionOutdated => 130
    case AttestationInvalid => 80
    case NonceExpired => 67
    case NonceReused => 63
    case HeartbeatLost => 95
    case BackendUnavailable => 95
    case Banned => 46
    case _ => 0
  }

  const HINT_LENGTH := 169

  function TextLength(t: Text): nat {
    match t
    case ForRequirement(id, detail, uncertain) =>
      RequirementTextLength(id, detail) + if uncertain then HINT_LENGTH else 0
    case ForReason(reason) => ReasonTextLength(reason)
    case NoAnswerInTime => 46
  }

  /** The bounds the schema puts on a verdict. */
  ghost predicate FitsTheWire(v: Verdict) {
    && |v.reasons| <= 16
    && (forall i, j | 0 <= i < j < |v.reasons| :: v.reasons[i] != v.reasons[j])
    && |v.requirements| <= 32
    && (forall i | 0 <= i < |v.requirements| ::
          v.requirements[i].detail.Some? ==> DetailLength(v.requirements[i].detail.value) <= 200)
    && (v.remediation.Some? ==> TextLength(v.remediation.value) <= 500)
  }

  /** The bound the schema puts on a probe note. */
  ghost predicate SchemaValid(snapshot: Snapshot) {
    forall i | 0 <= i < |snapshot.probeErrors| :: |snapshot.probeErrors[i]| <= 200
  }

  lemma FindingFits(input: Input, id: RequirementId)
    requires SchemaValid(input.snapshot)
    ensures var d := Find(input, id).detail; d.Some? ==> DetailLength(d.value) <= 200
    ensures id == HvciEnabled && Find(input, id).met == CannotTell ==> Find(input, id).detail == Some(Unreadable)
  {
  }

  lemma PolicyVerdictFits(input: Input)
    requires SchemaValid(input.snapshot)
    ensures FitsTheWire(PolicyVerdict(input))
  {
    ReasonsExact(InForce(input.tier), input);
    DetailsFit(input);
    RemediationFits(input);
  }

  lemma DetailsFit(input: Input)
    requires SchemaValid(input.snapshot)
    ensures var rs := PolicyVerdict(input).requirements;
      |rs| == 11 && forall i | 0 <= i < 11 :: rs[i].detail.Some? ==> DetailLength(rs[i].detail.value) <= 200
  {
    var rs := PolicyVerdict(input).requirements;
    forall i | 0 <= i < 11 ensures rs[i].detail.Some? ==> DetailLength(rs[i].detail.value) <= 200 {
      FindingFits(input, REPORT_ORDER[i]);
    }
  }

  lemma BlockerFits(input: Input, id: RequirementId)
    requires SchemaValid(input.snapshot) && FirstBlocker(input, id)
    ensures var text := PolicyVerdict(input).remediation; text.Some? && TextLength(text.value) <= 500
  {
    ExplainsABlockingRequirement(input, id);
    FindingFits(input, id);
  }

  lemma RemediationFits(input: Input)
    requires SchemaValid(input.snapshot)
    ensures var text := PolicyVerdict(input).remediation; text.Some? ==> TextLength(text.value) <= 500
  {
    if id :| Blocks(InForce(input.tier), input, id) {
      FirstBlockerExists(input, id);
      var first :| FirstBlocker(input, first);
      BlockerFits(input, first);
    } else {
      ExplainsWithoutBlocker(input);
    }
  }

  lemma TimeoutVerdictFits(mode: FailMode)
    ensures FitsTheWire(TimeoutVerdict(mode))
    ensures var missing := RequirementResult(CompanionAttested, Failed, Some(NoAttestation));
      TimeoutVerdict(mode) == match mode
        case FailOpen => Verdict(Allow, [], [missing], None, true)
        case FailClosed => Verdict(Deny, [CompanionTimeout], [missing], Some(ForReason(CompanionTimeout)), false)
  {
  }

  /** A longest probe note fills the 200 units exactly: the 16-unit note prefix gives way to
      the 16 units of its German rendering. */
  lemma DetailBoundIsTight(input: Input, entry: string)
    requires input.snapshot.features.hvci == Disabled
    requires |entry| == 200 && HVCI_PREFIX <= entry && input.snapshot.probeErrors == [entry]
    ensures Find(input, HvciEnabled).detail.Some? && DetailLength(Find(input, HvciEnabled).detail.value) == 200
  {
    assert |HVCI_PREFIX| == 16;
    assert FirstWithPrefix(HVCI_PREFIX, [entry]) == Some(entry);
  }
}
