/** When the updater acts on a manifest and why it refuses one, written out, and what that means
    for every manifest a run of installations has installed. */
module UpdaterDecisions {
  import opened Common
  import opened JsonGrammar
  import opened JsonPrinter
  import opened JsonTexts
  import opened Updater
  import Base64

  // --- Signatures and payloads --------------------------------------------------------

  /** An even number of hex digits stands for its pairs, and anything else is read as base64. */
  lemma SignatureExactly(value: string, raw: seq<Byte>)
    ensures DecodeSignature(value) == Some(raw) <==>
      if |value| % 2 == 0 && forall i | 0 <= i < |value| :: value[i] in "0123456789abcdefABCDEF" then
        |raw| * 2 == |value| && forall i | 0 <= i < |raw| ::
          IsHex(value[2 * i]) && IsHex(value[2 * i + 1])
          && raw[i] == HexValue(value[2 * i]) * 16 + HexValue(value[2 * i + 1])
      else Base64.Decoded(value) == Some(raw)
  {
    assert AllHex(value) <==> forall i | 0 <= i < |value| :: value[i] in "0123456789abcdefABCDEF" by {
      forall i | 0 <= i < |value| ensures IsHex(value[i]) <==> value[i] in "0123456789abcdefABCDEF" {
        HexExactly(value[i]);
      }
    }
    if |value| % 2 == 0 && AllHex(value) {
      PairsExactly(value);
      var bytes := HexBytes(value);
      if |raw| * 2 == |value| && forall i | 0 <= i < |raw| ::
           raw[i] == HexValue(value[2 * i]) * 16 + HexValue(value[2 * i + 1]) {
        forall i | 0 <= i < |raw| ensures raw[i] == bytes[i] { }
        assert raw == bytes;
      }
    }
  }

  lemma {:induction false} PairsExactly(value: string)
    requires |value| % 2 == 0 && AllHex(value)
    ensures forall i | 0 <= i < |HexBytes(value)| ::
      HexBytes(value)[i] == HexValue(value[2 * i]) * 16 + HexValue(value[2 * i + 1])
  {
    if value != "" {
      PairsExactly(value[2..]);
      forall i | 0 < i < |HexBytes(value)|
        ensures HexBytes(value)[i] == HexValue(value[2 * i]) * 16 + HexValue(value[2 * i + 1])
      {
        assert HexBytes(value)[i] == HexBytes(value[2..])[i - 1];
        assert value[2..][2 * (i - 1)] == value[2 * i] && value[2..][2 * (i - 1) + 1] == value[2 * i + 1];
      }
    }
  }

  /** The signed text: a tag and the five fields in this order, one to a line. */
  lemma PayloadExactly(m: Manifest)
    ensures SigningPayload(m)
         == "fiveprotect-update-v1\n" + m.version + "\n" + m.sha256 + "\n" + m.url + "\n" + m.channel + "\n"
            + Digits(m.rolloutPercent)
  {
    var percent := Digits(m.rolloutPercent);
    var channel := m.channel + "\n" + percent;
    var url := m.url + "\n" + channel;
    var hash := m.sha256 + "\n" + url;
    assert SigningPayload(m) == "fiveprotect-update-v1" + "\n" + (m.version + "\n" + hash);
    assert "fiveprotect-update-v1" + "\n" == "fiveprotect-update-v1\n";
    Joined("fiveprotect-update-v1\n" + m.version + "\n" + m.sha256 + "\n" + m.url + "\n", m.channel, percent);
    Joined("fiveprotect-update-v1\n" + m.version + "\n" + m.sha256 + "\n", m.url, channel);
    Joined("fiveprotect-update-v1\n" + m.version + "\n", m.sha256, url);
    Joined("fiveprotect-update-v1\n", m.version, hash);
  }

  lemma Joined(a: string, b: string, c: string)
    ensures a + b + "\n" + c == a + (b + "\n" + c)
  {
  }

  // --- Versions -----------------------------------------------------------------------

  /** A version text: three numbers below 2^32 with dots between them, leading zeros allowed, and
      behind them anything after a further dot, a dash or a plus. */
  predicate VersionText(s: string, v: Version, zeros: (nat, nat, nat), extra: string, suffix: string) {
    && v.major < 0x1_0000_0000 && v.minor < 0x1_0000_0000 && v.patch < 0x1_0000_0000
    && (extra == "" || extra[0] == '.') && (forall i | 0 <= i < |extra| :: extra[i] != '-' && extra[i] != '+')
    && (suffix == "" || suffix[0] == '-' || suffix[0] == '+')
    && s == Zeros(zeros.0) + Digits(v.major) + ("." + (Zeros(zeros.1) + Digits(v.minor) + ("."
            + (Zeros(zeros.2) + Digits(v.patch) + extra)))) + suffix
  }

  lemma DigitsStopNothing(s: string)
    requires AllDigits(s)
    ensures forall i | 0 <= i < |s| :: s[i] != '.' && s[i] != '-' && s[i] != '+'
  {
    forall i | 0 <= i < |s| ensures s[i] != '.' && s[i] != '-' && s[i] != '+' { assert IsDigit(s[i]); }
  }

  lemma GroupRead(digits: string, rest: string)
    requires digits != "" && AllDigits(digits) && (rest == "" || rest[0] == '.')
    requires DigitsValue(digits) < 0x1_0000_0000
    ensures NextNumber(Some(digits + rest)) == Some(DigitsValue(digits))
    ensures Rest(Some(digits + rest)) == if rest == "" then None else Some(rest[1..])
  {
    DigitsStopNothing(digits);
    UntilStop(digits, rest, ".");
    if rest != "" { assert (digits + rest)[|digits| + 1..] == rest[1..]; }
  }

  lemma DotBefore(s: string)
    ensures ("." + s)[0] == '.' && ("." + s)[1..] == s
  {
  }

  lemma NoStops(a: string, b: string)
    requires forall i | 0 <= i < |a| :: a[i] != '-' && a[i] != '+'
    requires forall i | 0 <= i < |b| :: b[i] != '-' && b[i] != '+'
    ensures forall i | 0 <= i < |a + b| :: (a + b)[i] !in "-+"
  {
  }

  lemma TextIsRead(s: string, v: Version, zeros: (nat, nat, nat), extra: string, suffix: string)
    requires VersionText(s, v, zeros, extra, suffix)
    ensures ParseVersion(s) == Some(v)
  {
    var a, b, c := Zeros(zeros.0) + Digits(v.major), Zeros(zeros.1) + Digits(v.minor), Zeros(zeros.2) + Digits(v.patch);
    ZerosRead(zeros.0, v.major);
    ZerosRead(zeros.1, v.minor);
    ZerosRead(zeros.2, v.patch);
    var third := c + extra;
    var second := b + ("." + third);
    var core := a + ("." + second);
    DigitsStopNothing(a);
    DigitsStopNothing(b);
    DigitsStopNothing(c);
    NoStops(c, extra);
    NoStops(".", third);
    NoStops(b, "." + third);
    NoStops(".", second);
    NoStops(a, "." + second);
    UntilStop(core, suffix, "-+");
    DotBefore(second);
    DotBefore(third);
    GroupRead(a, "." + second);
    GroupRead(b, "." + third);
    GroupRead(c, extra);
  }

  /** A part that is a number, and the text behind it. */
  lemma GroupFound(core: string) returns (zeros: nat, rest: string)
    requires NextNumber(Some(core)).Some?
    ensures var n := NextNumber(Some(core)).value; n < 0x1_0000_0000 && core == Zeros(zeros) + Digits(n) + rest
    ensures rest == "" || rest[0] == '.'
    ensures Rest(Some(core)) == if rest == "" then None else Some(rest[1..])
  {
    var part := Until(core, ".");
    zeros := DigitsFound(part);
    rest := core[|part|..];
    assert core == part + rest;
    if rest != "" { assert rest[1..] == core[|part| + 1..]; }
  }

  lemma Suffixes(s: string, a: string, b: string)
    requires s == a + b && forall i | 0 <= i < |s| :: s[i] !in "-+"
    ensures forall i | 0 <= i < |b| :: b[i] !in "-+"
  {
    forall i | 0 <= i < |b| ensures b[i] !in "-+" { assert s[|a| + i] == b[i]; }
  }

  /** A number, a dot, and the rest behind it. */
  lemma DottedGroupFound(core: string) returns (zeros: nat, rest: string)
    requires NextNumber(Some(core)).Some? && Rest(Some(core)).Some?
    requires forall i | 0 <= i < |core| :: core[i] !in "-+"
    ensures var n := NextNumber(Some(core)).value;
      n < 0x1_0000_0000 && core == Zeros(zeros) + Digits(n) + ("." + rest)
    ensures Rest(Some(core)) == Some(rest) && forall i | 0 <= i < |rest| :: rest[i] !in "-+"
  {
    var after;
    zeros, after := GroupFound(core);
    rest := after[1..];
    assert after == "." + rest;
    Suffixes(core, Zeros(zeros) + Digits(NextNumber(Some(core)).value), after);
    Suffixes(after, ".", rest);
  }

  lemma TextIsFound(s: string) returns (zeros: (nat, nat, nat), extra: string, suffix: string)
    requires ParseVersion(s).Some?
    ensures VersionText(s, ParseVersion(s).value, zeros, extra, suffix)
  {
    var core := Until(s, "-+");
    suffix := s[|core|..];
    assert s == core + suffix;
    var z0, second := DottedGroupFound(core);
    var z1, third := DottedGroupFound(second);
    var z2;
    z2, extra := GroupFound(third);
    Suffixes(third, Zeros(z2) + Digits(NextNumber(Some(third)).value), extra);
    zeros := (z0, z1, z2);
  }

  /** A text is read as a version exactly if it is a version text of it. */
  lemma VersionExactly(s: string, v: Version)
    ensures ParseVersion(s) == Some(v) <==> exists zeros, extra, suffix :: VersionText(s, v, zeros, extra, suffix)
  {
    if zeros, extra, suffix :| VersionText(s, v, zeros, extra, suffix) {
      TextIsRead(s, v, zeros, extra, suffix);
    }
    if ParseVersion(s) == Some(v) {
      var zeros, extra, suffix := TextIsFound(s);
    }
  }

  // --- Decisions ----------------------------------------------------------------------

  predicate Signed(m: Manifest, verifies: Key) {
    var raw := DecodeSignature(m.signature);
    raw.Some? && |raw.value| == 64 && verifies(SigningPayload(m), raw.value)
  }

  ghost predicate FromOrigin(url: string, origin: string) {
    exists scheme, authority, t, u ::
      Addresses(url, scheme, authority, t) && Addresses(origin, scheme, authority, u)
  }

  /** The offered triple comes after the current one in lexicographic order. */
  predicate Newer(offered: Option<Version>, current: Option<Version>) {
    && offered.Some? && current.Some?
    && var o, c := offered.value, current.value;
       || o.major > c.major
       || (o.major == c.major && o.minor > c.minor)
       || (o.major == c.major && o.minor == c.minor && o.patch > c.patch)
  }

  lemma NewerExactly(offered: Version, current: Version)
    ensures Older(current, offered) <==> Newer(Some(offered), Some(current))
  {
  }

  /** A manifest is acted on if and only if it is signed, of this channel, from this origin, newer,
      and the machine is in the rollout; outside the rollout everything else holds. */
  lemma ActsExactly(m: Manifest, policy: UpdatePolicy, verifies: Key)
    ensures var passed :=
        && Signed(m, verifies) && m.channel == policy.channel && FromOrigin(m.url, policy.downloadOrigin)
        && Newer(ParseVersion(m.version), ParseVersion(policy.currentVersion));
      var outcome := EvaluateManifest(m, policy, verifies);
      && (outcome == Evaluation.Ok(true) <==> passed && policy.rolloutBucket < m.rolloutPercent)
      && (outcome == Evaluation.Ok(false) <==> passed && policy.rolloutBucket >= m.rolloutPercent)
  {
    SameOriginExactly(m.url, policy.downloadOrigin);
    var offered, current := ParseVersion(m.version), ParseVersion(policy.currentVersion);
    if offered.Some? && current.Some? { NewerExactly(offered.value, current.value); }
  }

  /** Every refusal has its own cause, the first that applies in this order. */
  lemma RefusesExactly(m: Manifest, policy: UpdatePolicy, verifies: Key, error: UpdateError)
    ensures EvaluateManifest(m, policy, verifies) == Refused(error) <==> (
      var raw, offered, current :=
        DecodeSignature(m.signature), ParseVersion(m.version), ParseVersion(policy.currentVersion);
      if raw.None? || |raw.value| != 64 then error == MalformedSignature
      else if !verifies(SigningPayload(m), raw.value) then error == BadSignature
      else if m.channel != policy.channel then error == WrongChannel
      else if !FromOrigin(m.url, policy.downloadOrigin) then error == UntrustedUrl
      else if offered.None? then error == MalformedVersion(m.version)
      else if current.None? then error == MalformedVersion(policy.currentVersion)
      else !Newer(offered, current) && error == NotNewer)
  {
    SameOriginExactly(m.url, policy.downloadOrigin);
    var offered, current := ParseVersion(m.version), ParseVersion(policy.currentVersion);
    if offered.Some? && current.Some? { NewerExactly(offered.value, current.value); }
  }

  // --- Runs ---------------------------------------------------------------------------

  /** Whatever a run installs was signed, of the channel followed and from the origin trusted at
      the time, within its rollout, and newer than what it replaced. */
  lemma InstalledIsTrusted(start: string, offers: seq<Offer>, verifies: Key, i: nat)
    requires Installed(start, offers, verifies) && i < |offers|
    ensures var m, policy := offers[i].manifest, offers[i].policy;
      && Signed(m, verifies)
      && m.channel == policy.channel && FromOrigin(m.url, policy.downloadOrigin)
      && policy.rolloutBucket < m.rolloutPercent
      && Newer(ParseVersion(m.version),
               ParseVersion(if i == 0 then start else offers[i - 1].manifest.version))
  {
    var policy := offers[i].policy.(currentVersion := VersionAt(start, offers, i));
    assert EvaluateManifest(offers[i].manifest, policy, verifies) == Evaluation.Ok(true);
    ActsExactly(offers[i].manifest, policy, verifies);
  }

  lemma RisesIsNewer(a: Option<Version>, b: Option<Version>)
    requires Rises(a, b)
    ensures Newer(b, a)
  {
    NewerExactly(b.value, a.value);
  }

  /** And the version is newer after any installations than before them. */
  lemma LaterIsNewer(start: string, offers: seq<Offer>, verifies: Key, i: nat, j: nat)
    requires Installed(start, offers, verifies) && i < j <= |offers|
    ensures Newer(ParseVersion(VersionAt(start, offers, j)), ParseVersion(VersionAt(start, offers, i)))
  {
    VersionsIncrease(start, offers, verifies, i, j);
    RisesIsNewer(ParseVersion(VersionAt(start, offers, i)), ParseVersion(VersionAt(start, offers, j)));
  }
}
