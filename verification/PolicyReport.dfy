/** What the evaluator tells the player at every tier, written out: the reasons, the report line
    by line, and when two addresses count as one. */
module PolicyReport {
  import opened Common
  import opened Policy

  // --- Reasons --------------------------------------------------------------------------

  /** A feature demanded at the tier is missing. */
  predicate FeatureMissing(tier: Tier, snapshot: Snapshot) {
    var f := snapshot.features;
    || f.testSigning != Disabled || f.kernelDebugging != Disabled
    || (tier != Relaxed
        && (f.secureBoot != Enabled || !snapshot.tpmPresent || f.hvci != Enabled || f.driverBlocklist != Enabled))
    || (tier == Strict && f.iommu != Enabled)
  }

  predicate SameOrigin(input: Input) {
    NormaliseIp(input.gameIp) == NormaliseIp(input.attestationIp)
  }

  /** Why a requirement may stand in the way at a tier. */
  predicate StandsInTheWay(tier: Tier, input: Input, id: RequirementId) {
    var f := input.snapshot.features;
    match id
    case CompanionAttested => false
    case TestSigningDisabled => f.testSigning != Disabled
    case KernelDebuggingDisabled => f.kernelDebugging != Disabled
    case GameProcessPresent => !input.snapshot.gameProcess
    case NetworkOriginMatches => !SameOrigin(input)
    case SecureBootEnabled => tier != Relaxed && f.secureBoot != Enabled
    case TpmAttestationValid => tier != Relaxed && !input.snapshot.tpmPresent
    case HvciEnabled => tier != Relaxed && f.hvci != Enabled
    case DriverBlocklistEnabled => tier != Relaxed && f.driverBlocklist != Enabled
    case IommuEnabled => tier == Strict && f.iommu != Enabled
    case VulnerableDriversAbsent => false
  }

  lemma BlocksExactly(tier: Tier, input: Input, id: RequirementId)
    ensures Blocks(InForce(tier), input, id) <==> StandsInTheWay(tier, input, id)
  {
  }

  lemma OnlyTheWay(tier: Tier, input: Input, reason: DenyReason)
    ensures Justified(InForce(tier), input, reason) <==>
      || (reason == CompanionOutdated && !input.buildAccepted)
      || exists id :: StandsInTheWay(tier, input, id) && reason == ReasonFor(id)
  {
    forall id ensures Blocks(InForce(tier), input, id) <==> StandsInTheWay(tier, input, id) {
      BlocksExactly(tier, input, id);
    }
  }

  lemma StandsAlone(tier: Tier, input: Input, id: RequirementId)
    requires StandsInTheWay(tier, input, id)
    ensures Justified(InForce(tier), input, ReasonFor(id))
  {
    BlocksExactly(tier, input, id);
  }

  lemma MissingIsJustified(tier: Tier, input: Input)
    requires FeatureMissing(tier, input.snapshot)
    ensures Justified(InForce(tier), input, PolicyNotMet)
  {
    var f := input.snapshot.features;
    var id := if f.testSigning != Disabled then TestSigningDisabled
              else if f.kernelDebugging != Disabled then KernelDebuggingDisabled
              else if f.secureBoot != Enabled && tier != Relaxed then SecureBootEnabled
              else if !input.snapshot.tpmPresent && tier != Relaxed then TpmAttestationValid
              else if f.hvci != Enabled && tier != Relaxed then HvciEnabled
              else if f.driverBlocklist != Enabled && tier != Relaxed then DriverBlocklistEnabled
              else IommuEnabled;
    StandsAlone(tier, input, id);
  }

  lemma Unblocked(tier: Tier, input: Input, reason: DenyReason)
    requires Justified(InForce(tier), input, reason) && reason != CompanionOutdated
    ensures exists id :: StandsInTheWay(tier, input, id) && reason == ReasonFor(id)
  {
    OnlyTheWay(tier, input, reason);
  }

  lemma GameProcessReason(tier: Tier, input: Input)
    ensures Justified(InForce(tier), input, GameProcessMissing) <==> !input.snapshot.gameProcess
  {
    if Justified(InForce(tier), input, GameProcessMissing) { Unblocked(tier, input, GameProcessMissing); }
    if !input.snapshot.gameProcess { StandsAlone(tier, input, GameProcessPresent); }
  }

  lemma OriginReason(tier: Tier, input: Input)
    ensures Justified(InForce(tier), input, NetworkOriginMismatch) <==> !SameOrigin(input)
  {
    if Justified(InForce(tier), input, NetworkOriginMismatch) { Unblocked(tier, input, NetworkOriginMismatch); }
    if !SameOrigin(input) { StandsAlone(tier, input, NetworkOriginMatches); }
  }

  lemma FeatureReason(tier: Tier, input: Input)
    ensures Justified(InForce(tier), input, PolicyNotMet) <==> FeatureMissing(tier, input.snapshot)
  {
    if Justified(InForce(tier), input, PolicyNotMet) { Unblocked(tier, input, PolicyNotMet); }
    if FeatureMissing(tier, input.snapshot) { MissingIsJustified(tier, input); }
  }

  lemma NoOtherReason(tier: Tier, input: Input, reason: DenyReason)
    requires Justified(InForce(tier), input, reason)
    ensures reason == CompanionOutdated ==> !input.buildAccepted
    ensures reason in [GameProcessMissing, NetworkOriginMismatch, CompanionOutdated, PolicyNotMet]
  {
    OnlyTheWay(tier, input, reason);
  }

  /** Each reason is given exactly for its own cause, and there are no others. */
  lemma ReasonsAtTier(tier: Tier, input: Input)
    ensures var rs := Evaluate(InForce(tier), input).reasons;
      && (GameProcessMissing in rs <==> !input.snapshot.gameProcess)
      && (NetworkOriginMismatch in rs <==> NormaliseIp(input.gameIp) != NormaliseIp(input.attestationIp))
      && (CompanionOutdated in rs <==> !input.buildAccepted)
      && (PolicyNotMet in rs <==> FeatureMissing(tier, input.snapshot))
      && (forall r | r in rs :: r in [GameProcessMissing, NetworkOriginMismatch, CompanionOutdated, PolicyNotMet])
      && (forall i, j | 0 <= i < j < |rs| :: rs[i] != rs[j])
  {
    var column := InForce(tier);
    ReasonsExact(column, input);
    assert forall r :: r in Evaluate(column, input).reasons <==> Justified(column, input, r);
    GameProcessReason(tier, input);
    OriginReason(tier, input);
    FeatureReason(tier, input);
    forall r | Justified(column, input, r)
      ensures r in [GameProcessMissing, NetworkOriginMismatch, CompanionOutdated, PolicyNotMet]
      ensures r == CompanionOutdated ==> !input.buildAccepted
    {
      NoOtherReason(tier, input, r);
    }
  }

  function Given(reason: DenyReason, condition: bool): seq<DenyReason> {
    if condition then [reason] else []
  }

  function Added(reasons: seq<DenyReason>, reason: DenyReason, condition: bool): seq<DenyReason> {
    if condition && reason !in reasons then reasons + [reason] else reasons
  }

  /** One line of the report adds the reason of its requirement, if it stands in the way. */
  lemma ReasonAdded(tier: Tier, input: Input, n: nat, id: RequirementId, reason: DenyReason, condition: bool)
    requires n == Position(id) && ReasonFor(id) == reason
    requires condition <==> StandsInTheWay(tier, input, id)
    ensures ReasonsOf(InForce(tier), input, n + 1) == Added(ReasonsOf(InForce(tier), input, n), reason, condition)
  {
    BlocksExactly(tier, input, id);
  }

  lemma AddedOnce(reasons: seq<DenyReason>, reason: DenyReason, before: bool, condition: bool)
    requires reason !in reasons
    ensures Added(reasons + Given(reason, before), reason, condition) == reasons + Given(reason, before || condition)
  {
  }

  lemma AddedFresh(reasons: seq<DenyReason>, reason: DenyReason, condition: bool)
    requires reason !in reasons
    ensures Added(reasons, reason, condition) == reasons + Given(reason, condition)
  {
  }

  /** What was switched on that must be off. */
  predicate Unsigned(f: Features) {
    f.testSigning != Disabled || f.kernelDebugging != Disabled
  }

  /** A line that may add a reason not given yet. */
  lemma NewReason(tier: Tier, input: Input, n: nat, id: RequirementId, reason: DenyReason, condition: bool,
                  front: seq<DenyReason>)
    requires n == Position(id) && ReasonFor(id) == reason
    requires condition <==> StandsInTheWay(tier, input, id)
    requires ReasonsOf(InForce(tier), input, n) == front && reason !in front
    ensures ReasonsOf(InForce(tier), input, n + 1) == front + Given(reason, condition)
  {
    ReasonAdded(tier, input, n, id, reason, condition);
    AddedFresh(front, reason, condition);
  }

  /** A line that may add a reason that lines before may have added already. */
  lemma SameReason(tier: Tier, input: Input, n: nat, id: RequirementId, before: bool, condition: bool,
                   front: seq<DenyReason>)
    requires n == Position(id) && ReasonFor(id) == PolicyNotMet
    requires condition <==> StandsInTheWay(tier, input, id)
    requires ReasonsOf(InForce(tier), input, n) == front + Given(PolicyNotMet, PolicyNotMet !in front && before)
    ensures ReasonsOf(InForce(tier), input, n + 1)
         == front + Given(PolicyNotMet, PolicyNotMet !in front && (before || condition))
  {
    ReasonAdded(tier, input, n, id, PolicyNotMet, condition);
    if PolicyNotMet !in front { AddedOnce(front, PolicyNotMet, before, condition); }
  }

  lemma FirstThree(tier: Tier, input: Input, n: nat)
    requires n == 0
    ensures ReasonsOf(InForce(tier), input, n + 3) == Given(PolicyNotMet, Unsigned(input.snapshot.features))
  {
    var f := input.snapshot.features;
    assert ReasonsOf(InForce(tier), input, n) == [];
    NewReason(tier, input, n, CompanionAttested, PolicyNotMet, false, []);
    NewReason(tier, input, n + 1, TestSigningDisabled, PolicyNotMet, f.testSigning != Disabled, []);
    SameReason(tier, input, n + 2, KernelDebuggingDisabled, f.testSigning != Disabled, f.kernelDebugging != Disabled,
               []);
  }

  function FirstFive(input: Input): seq<DenyReason> {
    Given(PolicyNotMet, Unsigned(input.snapshot.features))
    + Given(GameProcessMissing, !input.snapshot.gameProcess)
    + Given(NetworkOriginMismatch, !SameOrigin(input))
  }

  lemma FirstFour(tier: Tier, input: Input, n: nat)
    requires n == 3
    ensures ReasonsOf(InForce(tier), input, n + 1)
         == Given(PolicyNotMet, Unsigned(input.snapshot.features))
            + Given(GameProcessMissing, !input.snapshot.gameProcess)
  {
    FirstThree(tier, input, n - 3);
    NewReason(tier, input, n, GameProcessPresent, GameProcessMissing, !input.snapshot.gameProcess,
              Given(PolicyNotMet, Unsigned(input.snapshot.features)));
  }

  lemma FirstReasons(tier: Tier, input: Input, n: nat)
    requires n == 4
    ensures ReasonsOf(InForce(tier), input, n + 1) == FirstFive(input)
  {
    FirstFour(tier, input, n - 1);
    NewReason(tier, input, n, NetworkOriginMatches, NetworkOriginMismatch, !SameOrigin(input),
              Given(PolicyNotMet, Unsigned(input.snapshot.features))
              + Given(GameProcessMissing, !input.snapshot.gameProcess));
  }

  lemma SixthReason(tier: Tier, input: Input, n: nat, first: seq<DenyReason>)
    requires n == 5 && ReasonsOf(InForce(tier), input, n) == first
    ensures ReasonsOf(InForce(tier), input, n + 1) == first + Given(PolicyNotMet,
      PolicyNotMet !in first && tier != Relaxed && input.snapshot.features.secureBoot != Enabled)
  {
    assert first + [] == first;
    SameReason(tier, input, n, SecureBootEnabled, false,
               tier != Relaxed && input.snapshot.features.secureBoot != Enabled, first);
  }

  lemma PlatformReasons(tier: Tier, input: Input, n: nat, first: seq<DenyReason>)
    requires n == 6 && ReasonsOf(InForce(tier), input, n - 1) == first
    ensures var s := input.snapshot;
      ReasonsOf(InForce(tier), input, n + 2) == first + Given(PolicyNotMet, PolicyNotMet !in first &&
        tier != Relaxed && (s.features.secureBoot != Enabled || !s.tpmPresent || s.features.hvci != Enabled))
  {
    var s, f, asked := input.snapshot, input.snapshot.features, tier != Relaxed;
    SixthReason(tier, input, n - 1, first);
    var before := asked && f.secureBoot != Enabled;
    SameReason(tier, input, n, TpmAttestationValid, before, asked && !s.tpmPresent, first);
    before := asked && (f.secureBoot != Enabled || !s.tpmPresent);
    SameReason(tier, input, n + 1, HvciEnabled, before, asked && f.hvci != Enabled, first);
  }

  lemma LastReasons(tier: Tier, input: Input, n: nat, before: bool, first: seq<DenyReason>)
    requires n == 8
    requires ReasonsOf(InForce(tier), input, n) == first + Given(PolicyNotMet, PolicyNotMet !in first && before)
    ensures var f := input.snapshot.features;
      ReasonsOf(InForce(tier), input, n + 3) == first + Given(PolicyNotMet, PolicyNotMet !in first &&
        (before || (tier != Relaxed && f.driverBlocklist != Enabled) || (tier == Strict && f.iommu != Enabled)))
  {
    var f := input.snapshot.features;
    var blocklist := tier != Relaxed && f.driverBlocklist != Enabled;
    SameReason(tier, input, n, DriverBlocklistEnabled, before, blocklist, first);
    SameReason(tier, input, n + 1, VulnerableDriversAbsent, before || blocklist, false, first);
    SameReason(tier, input, n + 2, IommuEnabled, before || blocklist, tier == Strict && f.iommu != Enabled, first);
  }

  /** The other requirements give one reason between them. */
  lemma ElevenReasons(tier: Tier, input: Input, n: nat)
    requires n == 11
    ensures ReasonsOf(InForce(tier), input, n)
         == FirstFive(input)
            + Given(PolicyNotMet, FeatureMissing(tier, input.snapshot) && !Unsigned(input.snapshot.features))
  {
    var s := input.snapshot;
    FirstReasons(tier, input, n - 7);
    PlatformReasons(tier, input, n - 5, FirstFive(input));
    var before := tier != Relaxed && (s.features.secureBoot != Enabled || !s.tpmPresent || s.features.hvci != Enabled);
    LastReasons(tier, input, n - 3, before, FirstFive(input));
    PolicyListed(input);
  }

  lemma PolicyListed(input: Input)
    ensures PolicyNotMet in FirstFive(input) <==> Unsigned(input.snapshot.features)
    ensures CompanionOutdated !in FirstFive(input)
  {
  }

  lemma BuildLast(tier: Tier, input: Input, front: seq<DenyReason>)
    requires ReasonsOf(InForce(tier), input, 11) == front && CompanionOutdated !in front
    ensures Evaluate(InForce(tier), input).reasons == front + Given(CompanionOutdated, !input.buildAccepted)
  {
  }

  /** The reasons as they are listed: a feature wrongly on, the game, the address, any other
      feature, the build. */
  lemma ReasonsInOrder(tier: Tier, input: Input)
    ensures Evaluate(InForce(tier), input).reasons
         == FirstFive(input)
            + Given(PolicyNotMet, FeatureMissing(tier, input.snapshot) && !Unsigned(input.snapshot.features))
            + Given(CompanionOutdated, !input.buildAccepted)
  {
    ElevenReasons(tier, input, 11);
    PolicyListed(input);
    var later := Given(PolicyNotMet, FeatureMissing(tier, input.snapshot) && !Unsigned(input.snapshot.features));
    assert CompanionOutdated !in FirstFive(input) + later;
    BuildLast(tier, input, FirstFive(input) + later);
  }

  // --- The report -----------------------------------------------------------------------

  /** A feature that has to have a value: met, unreadable, or not met. */
  function Line(id: RequirementId, actual: FeatureState, wanted: FeatureState, unmet: Status): RequirementResult {
    match actual
    case Unknown => RequirementResult(id, Undetermined, Some(Unreadable))
    case _ => RequirementResult(id, if actual == wanted then Pass else unmet, None)
  }

  /** The same line at a tier that does not ask for it. */
  function Unasked(line: RequirementResult): RequirementResult {
    line.(status := Skipped)
  }

  /** Memory integrity, with the driver that blocks it if the first note of that kind names one. */
  function HvciLine(snapshot: Snapshot): RequirementResult {
    match snapshot.features.hvci
    case Enabled => RequirementResult(HvciEnabled, Pass, None)
    case Unknown => RequirementResult(HvciEnabled, Undetermined, Some(Unreadable))
    case Disabled =>
      var named := Naming(snapshot.probeErrors, 0);
      RequirementResult(HvciEnabled, Failed,
        if named < |snapshot.probeErrors| then Some(BlockedBy(snapshot.probeErrors[named][16..])) else None)
  }

  predicate Names(note: string) {
    |note| >= 16 && note[..16] == "hvci_blocked_by:"
  }

  /** The first note from the `i`th on that names a driver. */
  function Naming(notes: seq<string>, i: nat): (r: nat)
    requires i <= |notes|
    ensures i <= r <= |notes| && (r < |notes| ==> Names(notes[r])) && forall k | i <= k < r :: !Names(notes[k])
    decreases |notes| - i
  {
    if i == |notes| || Names(notes[i]) then i else Naming(notes, i + 1)
  }

  function AboveRelaxed(tier: Tier, line: RequirementResult): RequirementResult {
    if tier == Relaxed then Unasked(line) else line
  }

  lemma NamesIsPrefix(note: string)
    ensures Names(note) <==> HVCI_PREFIX <= note
  {
  }

  lemma {:induction false} NamingIsFirst(notes: seq<string>, i: nat)
    requires i <= |notes|
    ensures var named := Naming(notes, i);
      FirstWithPrefix(HVCI_PREFIX, notes[i..]) == if named < |notes| then Some(notes[named]) else None
    decreases |notes| - i
  {
    if i < |notes| {
      NamesIsPrefix(notes[i]);
      assert notes[i..][1..] == notes[i + 1..];
      if !Names(notes[i]) { NamingIsFirst(notes, i + 1); }
    }
  }

  lemma HvciReported(input: Input)
    ensures var finding := Find(input, HvciEnabled);
      RequirementResult(HvciEnabled, Judge(Block, finding.met), finding.detail) == HvciLine(input.snapshot)
  {
    var notes := input.snapshot.probeErrors;
    NamingIsFirst(notes, 0);
    assert notes[0..] == notes;
  }

  /** What a tier reports of a requirement. */
  function LineFor(tier: Tier, input: Input, id: RequirementId): RequirementResult {
    var s, f := input.snapshot, input.snapshot.features;
    match id
    case CompanionAttested => RequirementResult(id, Pass, None)
    case TestSigningDisabled => Line(id, f.testSigning, Disabled, Failed)
    case KernelDebuggingDisabled => Line(id, f.kernelDebugging, Disabled, Failed)
    case GameProcessPresent =>
      if s.gameProcess then RequirementResult(id, Pass, None) else RequirementResult(id, Failed, Some(NoGameProcess))
    case NetworkOriginMatches =>
      if SameOrigin(input) then RequirementResult(id, Pass, None)
      else RequirementResult(id, Failed, Some(OtherAddress))
    case SecureBootEnabled => AboveRelaxed(tier, Line(id, f.secureBoot, Enabled, Failed))
    case TpmAttestationValid =>
      AboveRelaxed(tier, if s.tpmPresent then RequirementResult(id, Pass, Some(TpmPresent))
                         else RequirementResult(id, Failed, Some(NoTpm)))
    case HvciEnabled => AboveRelaxed(tier, HvciLine(s))
    case DriverBlocklistEnabled => AboveRelaxed(tier, Line(id, f.driverBlocklist, Enabled, Failed))
    case VulnerableDriversAbsent => RequirementResult(id, Skipped, Some(DriverCheckLater))
    case IommuEnabled => AboveRelaxed(tier, Line(id, f.iommu, Enabled, if tier == Strict then Failed else Warned))
  }

  lemma FeatureReported(id: RequirementId, actual: FeatureState, wanted: FeatureState, enforcement: Enforcement)
    requires wanted != Unknown
    ensures var finding := Expect(actual, wanted);
      RequirementResult(id, Judge(enforcement, finding.met), finding.detail)
        == match enforcement
           case Block => Line(id, actual, wanted, Failed)
           case Warn => Line(id, actual, wanted, Warned)
           case Skip => Unasked(Line(id, actual, wanted, Failed))
  {
  }

  lemma LineReported(tier: Tier, input: Input, id: RequirementId)
    ensures ResultOf(InForce(tier), input, id) == LineFor(tier, input, id)
  {
    var f := input.snapshot.features;
    match id {
      case TestSigningDisabled => FeatureReported(id, f.testSigning, Disabled, Block);
      case KernelDebuggingDisabled => FeatureReported(id, f.kernelDebugging, Disabled, Block);
      case SecureBootEnabled => FeatureReported(id, f.secureBoot, Enabled, InForce(tier)(id));
      case DriverBlocklistEnabled => FeatureReported(id, f.driverBlocklist, Enabled, InForce(tier)(id));
      case IommuEnabled => FeatureReported(id, f.iommu, Enabled, InForce(tier)(id));
      case HvciEnabled => HvciReported(input);
      case CompanionAttested => case TpmAttestationValid => case VulnerableDriversAbsent =>
      case GameProcessPresent => case NetworkOriginMatches =>
    }
  }

  /** What a tier in force reports: every line, in this order. */
  lemma ReportAtTier(tier: Tier, input: Input)
    ensures var lines, order := Evaluate(InForce(tier), input).requirements, [
        CompanionAttested, TestSigningDisabled, KernelDebuggingDisabled, GameProcessPresent, NetworkOriginMatches,
        SecureBootEnabled, TpmAttestationValid, HvciEnabled, DriverBlocklistEnabled, VulnerableDriversAbsent,
        IommuEnabled];
      |lines| == |order| && forall i | 0 <= i < |order| :: lines[i] == LineFor(tier, input, order[i])
  {
    forall i | 0 <= i < 11
      ensures Evaluate(InForce(tier), input).requirements[i] == LineFor(tier, input, REPORT_ORDER[i])
    {
      LineReported(tier, input, REPORT_ORDER[i]);
    }
  }

  /** The table in force is the target table but for the driver check, which is not in force
      yet and would warn at `relaxed` and block above. */
  lemma InForceExactly(tier: Tier, id: RequirementId)
    ensures id != VulnerableDriversAbsent ==> InForce(tier)(id) == Target(id, tier)
    ensures id == VulnerableDriversAbsent ==> InForce(tier)(id) == Skip
    ensures Target(VulnerableDriversAbsent, tier) == if tier == Relaxed then Warn else Block
  {
  }

  /** Under any table: skipped without a look, else passed, undetermined, or not met and then a
      warning or a failure. */
  lemma StatusesExact(column: Column, input: Input, i: nat)
    requires i < 11
    ensures var result, met := Evaluate(column, input).requirements[i], Find(input, REPORT_ORDER[i]).met;
      && result.requirement == REPORT_ORDER[i]
      && (result.status == Skipped <==> column(REPORT_ORDER[i]) == Skip)
      && (result.status == Pass <==> column(REPORT_ORDER[i]) != Skip && met == Yes)
      && (result.status == Undetermined <==> column(REPORT_ORDER[i]) != Skip && met == CannotTell)
      && (result.status == Warned <==> column(REPORT_ORDER[i]) == Warn && met == No)
      && (result.status == Failed <==> column(REPORT_ORDER[i]) == Block && met == No)
  {
  }

  // --- Addresses ------------------------------------------------------------------------

  predicate AllSpace(s: string) {
    forall i | 0 <= i < |s| :: s[i] in " \t\n\r\U{B}\U{C}"
  }

  predicate Trimmed(s: string) {
    s == "" || (s[0] !in " \t\n\r\U{B}\U{C}" && s[|s| - 1] !in " \t\n\r\U{B}\U{C}")
  }

  /** `t` is `s` with the letters A to Z in lower case. */
  predicate LowerOf(s: string, t: string) {
    |t| == |s| && forall i | 0 <= i < |s| ::
      t[i] as int == if 'A' <= s[i] <= 'Z' then s[i] as int + 32 else s[i] as int
  }

  predicate Octet(s: string) {
    1 <= |s| <= 3 && forall i | 0 <= i < |s| :: '0' <= s[i] <= '9'
  }

  predicate DottedQuad(s: string, a: string, b: string, c: string, d: string) {
    Octet(a) && Octet(b) && Octet(c) && Octet(d) && s == a + ("." + (b + ("." + (c + ("." + d)))))
  }

  lemma SpaceLiteral(c: char)
    ensures IsSpace(c) <==> c in " \t\n\r\U{B}\U{C}"
  {
  }

  lemma {:induction false} TrimLead(lead: string, rest: string)
    requires AllSpace(lead)
    ensures TrimStart(lead + rest) == TrimStart(rest)
  {
    if lead == "" {
      assert lead + rest == rest;
    } else {
      SpaceLiteral(lead[0]);
      assert (lead + rest)[1..] == lead[1..] + rest;
      TrimLead(lead[1..], rest);
    }
  }

  lemma {:induction false} TrimTail(core: string, tail: string)
    requires AllSpace(tail)
    ensures TrimEnd(core + tail) == TrimEnd(core)
  {
    if tail == "" {
      assert core + tail == core;
    } else {
      SpaceLiteral(tail[|tail| - 1]);
      assert (core + tail)[..|core + tail| - 1] == core + tail[..|tail| - 1];
      TrimTail(core, tail[..|tail| - 1]);
    }
  }

  lemma TrimsToCore(lead: string, core: string, tail: string)
    requires AllSpace(lead) && AllSpace(tail) && Trimmed(core)
    ensures TrimEnd(TrimStart(lead + (core + tail))) == core
  {
    TrimLead(lead, core + tail);
    if core == "" {
      assert core + tail == tail && tail + "" == tail;
      TrimLead(tail, "");
    } else {
      SpaceLiteral(core[0]);
      SpaceLiteral(core[|core| - 1]);
      assert (core + tail)[0] == core[0];
      TrimTail(core, tail);
    }
  }

  lemma {:induction false} Decomposes(address: string) returns (lead: string, core: string, tail: string)
    ensures address == lead + (core + tail) && AllSpace(lead) && AllSpace(tail) && Trimmed(core)
  {
    if address != "" && address[0] in " \t\n\r\U{B}\U{C}" {
      lead, core, tail := Decomposes(address[1..]);
      assert address == [address[0]] + address[1..];
      lead := [address[0]] + lead;
    } else if address != "" && address[|address| - 1] in " \t\n\r\U{B}\U{C}" {
      lead, core, tail := Decomposes(address[..|address| - 1]);
      assert address == address[..|address| - 1] + [address[|address| - 1]];
      tail := tail + [address[|address| - 1]];
    } else {
      lead, core, tail := "", address, "";
    }
  }

  lemma OctetThenDot(a: string, rest: string, dots: nat)
    requires Octet(a) && dots > 0
    ensures IsGroups(a + ("." + rest), dots) <==> IsGroups(rest, dots - 1)
  {
    var s := a + ("." + rest);
    assert forall i | 0 <= i < |a| :: s[i] == a[i];
    assert s[|a|] == '.' && s[|a| + 1..] == rest;
    assert DigitRun(s) == |a|;
  }

  lemma OctetAlone(d: string)
    ensures Octet(d) <==> IsGroups(d, 0)
  {
    if Octet(d) { assert DigitRun(d) == |d|; }
  }

  lemma TakeOctet(s: string, dots: nat) returns (a: string, rest: string)
    requires IsGroups(s, dots) && dots > 0
    ensures Octet(a) && s == a + ("." + rest) && IsGroups(rest, dots - 1)
  {
    var n := DigitRun(s);
    a, rest := s[..n], s[n + 1..];
    assert s == s[..n] + ([s[n]] + s[n + 1..]);
  }

  lemma QuadDotted(s: string, a: string, b: string, c: string, d: string)
    requires DottedQuad(s, a, b, c, d)
    ensures IsQuad(s)
  {
    OctetThenDot(a, b + ("." + (c + ("." + d))), 3);
    OctetThenDot(b, c + ("." + d), 2);
    OctetThenDot(c, d, 1);
    OctetAlone(d);
  }

  lemma DottedFound(s: string) returns (a: string, b: string, c: string, d: string)
    requires IsQuad(s)
    ensures DottedQuad(s, a, b, c, d)
  {
    var rest;
    a, rest := TakeOctet(s, 3);
    b, rest := TakeOctet(rest, 2);
    c, d := TakeOctet(rest, 1);
    OctetAlone(d);
  }

  lemma LowerExactly(s: string, t: string)
    requires LowerOf(s, t)
    ensures Lower(s) == t
  {
    forall i | 0 <= i < |s| ensures Lower(s)[i] == t[i] {
      assert LowerChar(s[i]) as int == t[i] as int;
    }
  }

  lemma NormalisedCore(lead: string, core: string, tail: string, lowered: string)
    requires AllSpace(lead) && AllSpace(tail) && Trimmed(core) && LowerOf(core, lowered)
    ensures NormaliseIp(lead + (core + tail))
         == if MAPPED_PREFIX <= lowered && IsQuad(lowered[7..]) then lowered[7..] else lowered
  {
    TrimsToCore(lead, core, tail);
    LowerExactly(core, lowered);
  }

  /** `::ffff:` and four groups of one to three digits. */
  ghost predicate MappedQuad(lowered: string, quad: string) {
    lowered == "::ffff:" + quad && exists a, b, c, d :: DottedQuad(quad, a, b, c, d)
  }

  lemma MappedExactly(lowered: string)
    ensures MAPPED_PREFIX <= lowered && IsQuad(lowered[7..]) <==> |lowered| >= 7 && MappedQuad(lowered, lowered[7..])
    ensures forall quad | MappedQuad(lowered, quad) :: quad == lowered[7..]
  {
    if |lowered| >= 7 && MappedQuad(lowered, lowered[7..]) {
      var a, b, c, d :| DottedQuad(lowered[7..], a, b, c, d);
      QuadDotted(lowered[7..], a, b, c, d);
    }
    if MAPPED_PREFIX <= lowered && IsQuad(lowered[7..]) {
      var a, b, c, d := DottedFound(lowered[7..]);
      assert lowered == "::ffff:" + lowered[7..];
    }
  }

  /** An address means what is between its white space, in lower case; and if that is `::ffff:` and
      four groups of one to three digits, the four groups. Every address can be read so. */
  lemma NormaliseExactly(lead: string, core: string, tail: string, lowered: string)
    requires AllSpace(lead) && AllSpace(tail) && Trimmed(core) && LowerOf(core, lowered)
    ensures forall quad | MappedQuad(lowered, quad) :: NormaliseIp(lead + (core + tail)) == quad
    ensures (forall quad :: !MappedQuad(lowered, quad)) ==> NormaliseIp(lead + (core + tail)) == lowered
  {
    NormalisedCore(lead, core, tail, lowered);
    MappedExactly(lowered);
  }
}
