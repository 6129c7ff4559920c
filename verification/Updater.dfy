/** The signed auto-updater: which signatures it reads, what a signature covers, and which
    manifests it acts on. */
module Updater {
  import opened Common
  import opened JsonGrammar
  import opened JsonPrinter
  import opened JsonRoundTrip
  import Policy
  import Base64

  type Byte = Base64.Byte

  // --- Signatures: hex first, then base64 ------------------------------------------

  predicate AllHex(s: string) {
    forall i | 0 <= i < |s| :: IsHex(s[i])
  }

  function HexBytes(s: string): (r: seq<Byte>)
    requires |s| % 2 == 0 && AllHex(s)
    ensures |r| == |s| / 2
  {
    if s == "" then [] else [HexValue(s[0]) * 16 + HexValue(s[1])] + HexBytes(s[2..])
  }

  /** `hex::decode`. */
  function HexDecode(s: string): Option<seq<Byte>> {
    if |s| % 2 == 0 && AllHex(s) then Some(HexBytes(s)) else None
  }

  function DecodeSignature(value: string): Option<seq<Byte>> {
    match HexDecode(value)
    case Some(bytes) => Some(bytes)
    case None => Base64.Decoded(value)
  }

  /** The hex spelling, in either case. */
  function Hex(bytes: seq<Byte>, upper: bool): string {
    if bytes == [] then ""
    else [HexDigit(bytes[0] / 16, upper), HexDigit(bytes[0] % 16, upper)] + Hex(bytes[1..], upper)
  }

  lemma {:induction false} HexRead(bytes: seq<Byte>, upper: bool)
    ensures HexDecode(Hex(bytes, upper)) == Some(bytes)
  {
    if bytes != [] {
      var s := Hex(bytes, upper);
      HexRead(bytes[1..], upper);
      HexDigitRead(bytes[0] / 16, upper);
      HexDigitRead(bytes[0] % 16, upper);
      var rest := Hex(bytes[1..], upper);
      assert s[2..] == rest;
      forall i | 0 <= i < |s| ensures IsHex(s[i]) {
        if i >= 2 { assert s[i] == rest[i - 2]; }
      }
      assert |s| == |rest| + 2 && AllHex(s);
      assert HexBytes(s) == [bytes[0]] + HexBytes(rest);
      assert bytes == [bytes[0]] + bytes[1..];
    }
  }

  /** A hex spelling always gives the signature back. */
  lemma SignatureFromHex(bytes: seq<Byte>, upper: bool)
    ensures DecodeSignature(Hex(bytes, upper)) == Some(bytes)
  {
    HexRead(bytes, upper);
  }

  lemma PaddingIsNotHex(bytes: seq<Byte>)
    requires |bytes| % 3 != 0
    ensures !AllHex(Base64.Encoded(bytes))
  {
    Base64.EncodedLength(bytes);
    var s := Base64.Encoded(bytes);
    assert s[|s| - 1] == '=';
  }

  lemma HexHalves(s: string, k: nat)
    requires |s| == 4 * k && AllHex(s)
    ensures HexDecode(s).Some? && |HexDecode(s).value| == 2 * k
  {
    assert |s| % 2 == 0;
  }

  lemma HexShortens(bytes: seq<Byte>)
    requires bytes != [] && |bytes| % 3 == 0 && AllHex(Base64.Encoded(bytes))
    ensures HexDecode(Base64.Encoded(bytes)).Some? && HexDecode(Base64.Encoded(bytes)) != Some(bytes)
  {
    var s, k := Base64.Encoded(bytes), |bytes| / 3;
    Base64.EncodedLength(bytes);
    assert |bytes| == 3 * k && (|bytes| + 2) / 3 == k;
    HexHalves(s, k);
  }

  /** The base64 spelling gives it back exactly when it could not be taken for hex. */
  lemma SignatureFromBase64Exactly(bytes: seq<Byte>)
    ensures DecodeSignature(Base64.Encoded(bytes)) == Some(bytes) <==> bytes == [] || !AllHex(Base64.Encoded(bytes))
  {
    Base64.RoundTrip(bytes);
    if bytes == [] {
      assert Base64.Encoded(bytes) == "";
    } else if |bytes| % 3 != 0 {
      PaddingIsNotHex(bytes);
    } else if AllHex(Base64.Encoded(bytes)) {
      HexShortens(bytes);
    }
  }

  /** Every length that is not a multiple of three, such as a signature's
      64 bytes, is recovered from both spellings. */
  lemma SignatureRecovered(bytes: seq<Byte>, upper: bool)
    requires |bytes| % 3 != 0
    ensures DecodeSignature(Hex(bytes, upper)) == Some(bytes)
    ensures DecodeSignature(Base64.Encoded(bytes)) == Some(bytes)
  {
    SignatureFromHex(bytes, upper);
    SignatureFromBase64Exactly(bytes);
    PaddingIsNotHex(bytes);
  }

  /** Three bytes whose base64 spelling is taken for hex. */
  lemma HexTakesPrecedence()
    ensures Base64.Encoded([105, 166, 154]) == "aaaa"
    ensures DecodeSignature("aaaa") == Some([170, 170])
  {
    var bytes: seq<Byte> := [105, 166, 154];
    Base64.SextetsOfThree(bytes);
    assert Base64.Sextets(bytes) == [26, 26, 26, 26];
    var one, two := "aa", "aaaa";
    assert one[2..] == "" && two[2..] == one;
    assert AllHex(one) && AllHex(two);
    var value: Byte := 170;
    assert HexBytes(one) == [value] + HexBytes("") == [value];
    assert HexBytes(two) == [value] + HexBytes(one) == [value, value];
  }

  // --- What the signature covers ------------------------------------------------------

  type Percent = x: int | 0 <= x < 256

  datatype Manifest = Manifest(version: string, sha256: string, url: string, channel: string,
    rolloutPercent: Percent, signature: string)

  function Line(text: string, rest: string): string {
    text + "\n" + rest
  }

  const PAYLOAD_TAG := "fiveprotect-update-v1"

  function SigningPayload(m: Manifest): string {
    Line(PAYLOAD_TAG, Line(m.version, Line(m.sha256, Line(m.url, Line(m.channel, Digits(m.rolloutPercent))))))
  }

  predicate OneLine(s: string) {
    forall i | 0 <= i < |s| :: s[i] != '\n'
  }

  predicate OneLineFields(m: Manifest) {
    OneLine(m.version) && OneLine(m.sha256) && OneLine(m.url) && OneLine(m.channel)
  }

  lemma LineInjective(a: string, r: string, b: string, t: string)
    requires OneLine(a) && OneLine(b) && Line(a, r) == Line(b, t)
    ensures a == b && r == t
  {
    var s := Line(a, r);
    assert s[|a|] == '\n' && s[|b|] == '\n';
    assert forall i | 0 <= i < |a| :: s[i] == a[i];
    assert forall i | 0 <= i < |b| :: s[i] == b[i];
    assert |a| == |b|;
    assert a == s[..|a|] && b == s[..|b|];
    assert r == s[|a| + 1..] && t == s[|b| + 1..];
  }

  lemma SameRest(a: string, r: string, t: string)
    requires Line(a, r) == Line(a, t)
    ensures r == t
  {
    assert r == Line(a, r)[|a| + 1..];
    assert t == Line(a, t)[|a| + 1..];
  }

  lemma DigitsInjective(m: nat, n: nat)
    requires Digits(m) == Digits(n)
    ensures m == n
  {
    DigitsRead(m);
    DigitsRead(n);
  }

  /** The payload determines everything the signature is meant to cover. */
  lemma PayloadInjective(m: Manifest, n: Manifest)
    requires OneLineFields(m) && OneLineFields(n) && SigningPayload(m) == SigningPayload(n)
    ensures m.(signature := n.signature) == n
  {
    var m4, n4 := Digits(m.rolloutPercent), Digits(n.rolloutPercent);
    var m3, n3 := Line(m.channel, m4), Line(n.channel, n4);
    var m2, n2 := Line(m.url, m3), Line(n.url, n3);
    var m1, n1 := Line(m.sha256, m2), Line(n.sha256, n2);
    SameRest(PAYLOAD_TAG, Line(m.version, m1), Line(n.version, n1));
    LineInjective(m.version, m1, n.version, n1);
    LineInjective(m.sha256, m2, n.sha256, n2);
    LineInjective(m.url, m3, n.url, n3);
    LineInjective(m.channel, m4, n.channel, n4);
    DigitsInjective(m.rolloutPercent, n.rolloutPercent);
  }

  lemma LineAssoc(a: string, b: string, r: string)
    ensures Line(Line(a, b), r) == Line(a, Line(b, r))
  {
    var s, t := Line(Line(a, b), r), Line(a, Line(b, r));
    assert |s| == |t|;
    forall i | 0 <= i < |s| ensures s[i] == t[i] { }
  }

  // --- Exactly when a payload determines its manifest -----------------------------------

  function Newlines(s: string): nat {
    multiset(s)['\n']
  }

  lemma NewlinesAppend(a: string, b: string)
    ensures Newlines(a + b) == Newlines(a) + Newlines(b)
  {
  }

  lemma NewlinesLine(a: string, r: string)
    ensures Newlines(Line(a, r)) == Newlines(a) + 1 + Newlines(r)
  {
    NewlinesAppend(a + "\n", r);
    NewlinesAppend(a, "\n");
  }

  lemma OneLineIsNone(s: string)
    ensures OneLine(s) <==> Newlines(s) == 0
  {
    assert OneLine(s) <==> '\n' !in s;
  }

  function FieldNewlines(m: Manifest): nat {
    Newlines(m.version) + Newlines(m.sha256) + Newlines(m.url) + Newlines(m.channel)
  }

  lemma DigitsOneLine(n: nat)
    ensures Newlines(Digits(n)) == 0
  {
    DigitsRead(n);
    forall i | 0 <= i < |Digits(n)| ensures Digits(n)[i] != '\n' { assert IsDigit(Digits(n)[i]); }
    OneLineIsNone(Digits(n));
  }

  /** A payload has five newlines of its own. */
  lemma PayloadNewlines(m: Manifest)
    ensures Newlines(SigningPayload(m)) == Newlines(PAYLOAD_TAG) + 5 + FieldNewlines(m)
  {
    var m4 := Digits(m.rolloutPercent);
    var m3 := Line(m.channel, m4);
    var m2 := Line(m.url, m3);
    var m1 := Line(m.sha256, m2);
    var m0 := Line(m.version, m1);
    DigitsOneLine(m.rolloutPercent);
    NewlinesLine(m.channel, m4);
    NewlinesLine(m.url, m3);
    NewlinesLine(m.sha256, m2);
    NewlinesLine(m.version, m1);
    NewlinesLine(PAYLOAD_TAG, m0);
  }

  lemma OneLineFieldsAreNone(m: Manifest)
    ensures OneLineFields(m) <==> FieldNewlines(m) == 0
  {
    OneLineIsNone(m.version);
    OneLineIsNone(m.sha256);
    OneLineIsNone(m.url);
    OneLineIsNone(m.channel);
  }

  /** A manifest without newlines in its fields shares its payload with no other, whatever the
      other contains. */
  lemma PayloadDetermines(m: Manifest, n: Manifest)
    requires OneLineFields(m) && SigningPayload(m) == SigningPayload(n)
    ensures m.(signature := n.signature) == n
  {
    PayloadNewlines(m);
    PayloadNewlines(n);
    OneLineFieldsAreNone(m);
    OneLineFieldsAreNone(n);
    PayloadInjective(m, n);
  }

  lemma CutAtNewline(s: string) returns (a: string, b: string)
    requires !OneLine(s)
    ensures s == Line(a, b) && |a| < |s|
  {
    var i :| 0 <= i < |s| && s[i] == '\n';
    a, b := s[..i], s[i + 1..];
    assert s == Line(a, b);
  }

  lemma VersionSpills(m: Manifest) returns (n: Manifest)
    requires !OneLine(m.version)
    ensures SigningPayload(n) == SigningPayload(m) && n.(signature := m.signature) != m
  {
    var a, b := CutAtNewline(m.version);
    n := m.(version := a, sha256 := Line(b, m.sha256));
    var rest := Line(m.url, Line(m.channel, Digits(m.rolloutPercent)));
    LineAssoc(a, b, Line(m.sha256, rest));
    LineAssoc(b, m.sha256, rest);
  }

  lemma HashSpills(m: Manifest) returns (n: Manifest)
    requires !OneLine(m.sha256)
    ensures SigningPayload(n) == SigningPayload(m) && n.(signature := m.signature) != m
  {
    var a, b := CutAtNewline(m.sha256);
    n := m.(sha256 := a, url := Line(b, m.url));
    var rest := Line(m.channel, Digits(m.rolloutPercent));
    LineAssoc(a, b, Line(m.url, rest));
    LineAssoc(b, m.url, rest);
  }

  lemma UrlSpills(m: Manifest) returns (n: Manifest)
    requires !OneLine(m.url)
    ensures SigningPayload(n) == SigningPayload(m) && n.(signature := m.signature) != m
  {
    var a, b := CutAtNewline(m.url);
    n := m.(url := a, channel := Line(b, m.channel));
    var rest := Digits(m.rolloutPercent);
    LineAssoc(a, b, Line(m.channel, rest));
    LineAssoc(b, m.channel, rest);
  }

  /** The last field spills backwards. */
  lemma ChannelSpills(m: Manifest) returns (n: Manifest)
    requires !OneLine(m.channel)
    ensures SigningPayload(n) == SigningPayload(m) && n.(signature := m.signature) != m
  {
    var a, b := CutAtNewline(m.channel);
    n := m.(url := Line(m.url, a), channel := b);
    var rest := Digits(m.rolloutPercent);
    LineAssoc(m.url, a, Line(b, rest));
    LineAssoc(a, b, rest);
    assert |b| < |m.channel|;
  }

  /** With a newline in any field, another manifest has the same payload. */
  lemma NewlineConfuses(m: Manifest) returns (n: Manifest)
    requires !OneLineFields(m)
    ensures SigningPayload(n) == SigningPayload(m) && n.(signature := m.signature) != m
  {
    if !OneLine(m.version) {
      n := VersionSpills(m);
    } else if !OneLine(m.sha256) {
      n := HashSpills(m);
    } else if !OneLine(m.url) {
      n := UrlSpills(m);
    } else {
      n := ChannelSpills(m);
    }
  }

  /** The signature covers one manifest only, if and only if no field of it has a newline. */
  lemma PayloadInjectiveExactly(m: Manifest)
    ensures OneLineFields(m)
      <==> forall n: Manifest | SigningPayload(n) == SigningPayload(m) :: n.(signature := m.signature) == m
  {
    if OneLineFields(m) {
      forall n: Manifest | SigningPayload(n) == SigningPayload(m) ensures n.(signature := m.signature) == m {
        PayloadDetermines(m, n);
      }
    } else {
      var n := NewlineConfuses(m);
    }
  }

  // --- Versions --------------------------------------------------------------------------

  datatype Version = Version(major: nat, minor: nat, patch: nat)

  predicate Older(a: Version, b: Version) {
    || a.major < b.major
    || (a.major == b.major && a.minor < b.minor)
    || (a.major == b.major && a.minor == b.minor && a.patch < b.patch)
  }

  /** Up to the first of the stops. */
  function Until(s: string, stops: string): (r: string)
    ensures r <= s && (forall i | 0 <= i < |r| :: r[i] !in stops) && (|r| < |s| ==> s[|r|] in stops)
  {
    if s == "" || s[0] in stops then "" else [s[0]] + Until(s[1..], stops)
  }

  function ParseU32(s: string): Option<nat> {
    if s != "" && AllDigits(s) && DigitsValue(s) < Base64.U32 then Some(DigitsValue(s)) else None
  }

  /** What the iterator over the parts has left after one part. */
  function Beyond(core: string): Option<string> {
    var part := Until(core, ".");
    if |part| < |core| then Some(core[|part| + 1..]) else None
  }

  /** The next part as a number; `None` also when there is no next part. */
  function NextNumber(left: Option<string>): Option<nat> {
    match left case None => None case Some(core) => ParseU32(Until(core, "."))
  }

  function Rest(left: Option<string>): Option<string> {
    match left case None => None case Some(core) => Beyond(core)
  }

  function ParseVersion(value: string): Option<Version> {
    var parts := Some(Until(value, "-+"));
    var major, minor, patch := NextNumber(parts), NextNumber(Rest(parts)), NextNumber(Rest(Rest(parts)));
    if major.Some? && minor.Some? && patch.Some? then Some(Version(major.value, minor.value, patch.value)) else None
  }

  lemma {:induction false} UntilStop(a: string, rest: string, stops: string)
    requires forall i | 0 <= i < |a| :: a[i] !in stops
    requires rest == "" || rest[0] in stops
    ensures Until(a + rest, stops) == a
  {
    if a == "" {
      assert a + rest == rest;
    } else {
      assert (a + rest)[1..] == a[1..] + rest;
      UntilStop(a[1..], rest, stops);
    }
  }

  lemma DigitsStop(n: nat)
    ensures forall i | 0 <= i < |Digits(n)| :: Digits(n)[i] != '.' && Digits(n)[i] != '-' && Digits(n)[i] != '+'
  {
    DigitsRead(n);
    forall i | 0 <= i < |Digits(n)| ensures IsDigit(Digits(n)[i]) { }
  }

  lemma NumberRead(n: nat, rest: string)
    requires n < Base64.U32 && (rest == "" || rest[0] == '.')
    ensures NextNumber(Some(Digits(n) + rest)) == Some(n)
    ensures Rest(Some(Digits(n) + rest)) == if rest == "" then None else Some(rest[1..])
  {
    DigitsRead(n);
    DigitsStop(n);
    UntilStop(Digits(n), rest, ".");
    if rest != "" { assert (Digits(n) + rest)[|Digits(n)| + 1..] == rest[1..]; }
  }

  function Dotted(v: Version, extra: string): string {
    Digits(v.major) + ("." + (Digits(v.minor) + ("." + (Digits(v.patch) + extra))))
  }

  predicate Fits(v: Version) {
    v.major < Base64.U32 && v.minor < Base64.U32 && v.patch < Base64.U32
  }

  /** A dotted triple reads back, whatever follows a further dot, a dash or a plus. */
  lemma VersionRead(v: Version, extra: string, suffix: string)
    requires Fits(v) && (extra == "" || extra[0] == '.')
    requires forall i | 0 <= i < |extra| :: extra[i] != '-' && extra[i] != '+'
    requires suffix == "" || suffix[0] == '-' || suffix[0] == '+'
    ensures ParseVersion(Dotted(v, extra) + suffix) == Some(v)
  {
    var third := Digits(v.patch) + extra;
    var second := Digits(v.minor) + ("." + third);
    var core := Digits(v.major) + ("." + second);
    DigitsStop(v.major);
    DigitsStop(v.minor);
    DigitsStop(v.patch);
    UntilStop(core, suffix, "-+");
    NumberRead(v.major, "." + second);
    assert ("." + second)[1..] == second;
    NumberRead(v.minor, "." + third);
    assert ("." + third)[1..] == third;
    NumberRead(v.patch, extra);
  }

  // --- Origins ------------------------------------------------------------------------------

  function OriginOf(value: string): Option<string> {
    var lowered := Policy.Lower(Policy.TrimEnd(Policy.TrimStart(value)));
    if "https://" <= lowered then WithAuthority("https://", lowered[8..])
    else if "http://" <= lowered then WithAuthority("http://", lowered[7..])
    else None
  }

  function WithAuthority(scheme: string, rest: string): Option<string> {
    var authority := Until(rest, "/?#");
    if authority == "" then None else Some(scheme + authority)
  }

  predicate SameOrigin(url: string, origin: string) {
    OriginOf(url).Some? && OriginOf(url) == OriginOf(origin)
  }

  predicate Tail(t: string) {
    t == "" || t[0] in "/?#"
  }

  /** Trimmed and lower-cased, the text is a scheme, a non-empty authority, and a path, query or
      fragment if anything. */
  predicate Addresses(value: string, scheme: string, authority: string, tail: string) {
    && (scheme == "https://" || scheme == "http://")
    && authority != "" && (forall i | 0 <= i < |authority| :: authority[i] !in "/?#")
    && Tail(tail)
    && Policy.Lower(Policy.TrimEnd(Policy.TrimStart(value))) == scheme + (authority + tail)
  }

  lemma AuthorityRead(scheme: string, authority: string, tail: string)
    requires authority != "" && (forall i | 0 <= i < |authority| :: authority[i] !in "/?#") && Tail(tail)
    ensures WithAuthority(scheme, authority + tail) == Some(scheme + authority)
  {
    UntilStop(authority, tail, "/?#");
  }

  lemma HttpIsNotHttps(rest: string)
    ensures !("https://" <= "http://" + rest)
  {
    assert ("http://" + rest)[4] != "https://"[4];
  }

  lemma OriginRead(value: string, scheme: string, authority: string, tail: string)
    requires Addresses(value, scheme, authority, tail)
    ensures OriginOf(value) == Some(scheme + authority)
  {
    var rest := authority + tail;
    var lowered := scheme + rest;
    AuthorityRead(scheme, authority, tail);
    assert lowered[|scheme|..] == rest;
    if scheme == "http://" { HttpIsNotHttps(rest); }
  }

  lemma AuthoritySplits(scheme: string, rest: string) returns (authority: string, tail: string)
    requires WithAuthority(scheme, rest).Some?
    ensures rest == authority + tail && Tail(tail)
    ensures authority != "" && forall i | 0 <= i < |authority| :: authority[i] !in "/?#"
  {
    authority := Until(rest, "/?#");
    tail := rest[|authority|..];
  }

  lemma SchemeSplits(scheme: string, s: string)
    requires scheme <= s
    ensures s == scheme + s[|scheme|..]
  {
  }

  lemma OriginSplits(value: string) returns (scheme: string, authority: string, tail: string)
    requires OriginOf(value).Some?
    ensures Addresses(value, scheme, authority, tail)
  {
    var lowered := Policy.Lower(Policy.TrimEnd(Policy.TrimStart(value)));
    scheme := if "https://" <= lowered then "https://" else "http://";
    SchemeSplits(scheme, lowered);
    authority, tail := AuthoritySplits(scheme, lowered[|scheme|..]);
  }

  lemma OriginInjective(scheme: string, authority: string, scheme': string, authority': string)
    requires scheme == "https://" || scheme == "http://"
    requires scheme' == "https://" || scheme' == "http://"
    requires scheme + authority == scheme' + authority'
    ensures scheme == scheme' && authority == authority'
  {
    if scheme != scheme' {
      HttpIsNotHttps(if scheme == "http://" then authority else authority');
    } else {
      assert authority == (scheme + authority)[|scheme|..];
      assert authority' == (scheme' + authority')[|scheme|..];
    }
  }

  /** Origins are compared exactly, not by prefix: two texts have the same origin if and only if
      they have the same scheme and the same authority, case and surrounding space aside. */
  lemma SameOriginExactly(url: string, origin: string)
    ensures SameOrigin(url, origin) <==> exists scheme, authority, t, u ::
      Addresses(url, scheme, authority, t) && Addresses(origin, scheme, authority, u)
  {
    if SameOrigin(url, origin) {
      var scheme, authority, t := OriginSplits(url);
      var scheme', authority', u := OriginSplits(origin);
      OriginRead(url, scheme, authority, t);
      OriginRead(origin, scheme', authority', u);
      OriginInjective(scheme, authority, scheme', authority');
      assert Addresses(url, scheme, authority, t) && Addresses(origin, scheme, authority, u);
    }
    if scheme, authority, t, u :| Addresses(url, scheme, authority, t) && Addresses(origin, scheme, authority, u) {
      OriginRead(url, scheme, authority, t);
      OriginRead(origin, scheme, authority, u);
    }
  }

  // --- Evaluation ---------------------------------------------------------------------------

  datatype UpdatePolicy = UpdatePolicy(currentVersion: string, channel: string, downloadOrigin: string,
    rolloutBucket: Percent)

  datatype UpdateError =
    BadSignature | MalformedSignature | WrongChannel | NotNewer | MalformedVersion(value: string) | UntrustedUrl

  datatype Evaluation = Ok(act: bool) | Refused(error: UpdateError)

  /** Whether the compiled-in key verifies 64 signature bytes over a payload. */
  type Key = (string, seq<Byte>) -> bool

  function VerifySignature(m: Manifest, verifies: Key): Option<UpdateError> {
    match DecodeSignature(m.signature)
    case None => Some(MalformedSignature)
    case Some(raw) =>
      if |raw| != 64 then Some(MalformedSignature)
      else if verifies(SigningPayload(m), raw) then None
      else Some(BadSignature)
  }

  function EvaluateManifest(m: Manifest, policy: UpdatePolicy, verifies: Key): Evaluation {
    var failure := VerifySignature(m, verifies);
    if failure.Some? then Refused(failure.value)
    else if m.channel != policy.channel then Refused(WrongChannel)
    else if !SameOrigin(m.url, policy.downloadOrigin) then Refused(UntrustedUrl)
    else
      var offered, current := ParseVersion(m.version), ParseVersion(policy.currentVersion);
      if offered.None? then Refused(MalformedVersion(m.version))
      else if current.None? then Refused(MalformedVersion(policy.currentVersion))
      else if !Older(current.value, offered.value) then Refused(NotNewer)
      else Evaluation.Ok(policy.rolloutBucket < m.rolloutPercent)
  }

  // --- Runs of installations -------------------------------------------------------------------

  /** A manifest, and the policy it is evaluated under apart from the version then current. */
  datatype Offer = Offer(manifest: Manifest, policy: UpdatePolicy)

  /** The version current before the `i`-th installation. */
  function VersionAt(start: string, offers: seq<Offer>, i: nat): string
    requires i <= |offers|
  {
    if i == 0 then start else offers[i - 1].manifest.version
  }

  /** Each manifest was evaluated as `Ok(true)` while the one before it was current. */
  ghost predicate Installed(start: string, offers: seq<Offer>, verifies: Key) {
    forall i | 0 <= i < |offers| ::
      var policy := offers[i].policy.(currentVersion := VersionAt(start, offers, i));
      EvaluateManifest(offers[i].manifest, policy, verifies) == Evaluation.Ok(true)
  }

  predicate Rises(a: Option<Version>, b: Option<Version>) {
    a.Some? && b.Some? && Older(a.value, b.value)
  }

  lemma {:induction false} RisesThroughout(versions: seq<Option<Version>>, i: nat, j: nat)
    requires i < j < |versions|
    requires forall k, l | 0 <= k < l < |versions| && l == k + 1 :: Rises(versions[k], versions[l])
    ensures Rises(versions[i], versions[j])
    decreases j - i
  {
    if i + 1 < j { RisesThroughout(versions, i + 1, j); }
  }

  lemma OneInstallation(start: string, offers: seq<Offer>, verifies: Key, i: nat)
    requires Installed(start, offers, verifies) && i < |offers|
    ensures Rises(ParseVersion(VersionAt(start, offers, i)), ParseVersion(VersionAt(start, offers, i + 1)))
  {
  }

  lemma VersionsAlong(start: string, offers: seq<Offer>, verifies: Key) returns (versions: seq<Option<Version>>)
    requires Installed(start, offers, verifies)
    ensures |versions| == |offers| + 1
    ensures forall k | 0 <= k <= |offers| :: versions[k] == ParseVersion(VersionAt(start, offers, k))
    ensures forall k, l | 0 <= k < l < |versions| && l == k + 1 :: Rises(versions[k], versions[l])
  {
    versions := seq(|offers| + 1, k requires 0 <= k <= |offers| => ParseVersion(VersionAt(start, offers, k)));
    forall k, l | 0 <= k < l < |versions| && l == k + 1 ensures Rises(versions[k], versions[l]) {
      OneInstallation(start, offers, verifies, k);
    }
  }

  /** Versions only go up along any run of installations, so none is installed twice. */
  lemma VersionsIncrease(start: string, offers: seq<Offer>, verifies: Key, i: nat, j: nat)
    requires Installed(start, offers, verifies) && i < j <= |offers|
    ensures Rises(ParseVersion(VersionAt(start, offers, i)), ParseVersion(VersionAt(start, offers, j)))
    ensures VersionAt(start, offers, i) != VersionAt(start, offers, j)
  {
    var versions := VersionsAlong(start, offers, verifies);
    RisesThroughout(versions, i, j);
  }
}
