/** What parsing means: each function reads a prefix of `s` and gives the value read and the
    rest, or the message of the failure and how many characters were left when it happened. */
module JsonGrammar {
  import opened Common
  import opened JsonValue

  datatype Message =
    | TruncatedEscape | InvalidEscape | LoneHighSurrogate | InvalidLowSurrogate | UnterminatedString
    | UnterminatedEscape | UnknownEscape | ExpectedString | ExpectedNumber | NumberOutOfRange
    | UnexpectedToken | NestingTooDeep | UnexpectedEnd | UnterminatedArray | ExpectedCommaOrBracket
    | ExpectedColon | UnterminatedObject | ExpectedCommaOrBrace

  datatype Outcome<+T> = Ok(value: T, rest: string) | Err(message: Message, left: nat)

  const MAX_DEPTH := 32

  predicate IsSpace(c: char) { c == ' ' || c == '\t' || c == '\n' || c == '\r' }

  function SkipWs(s: string): (rest: string)
    ensures |rest| <= |s|
    ensures rest != "" ==> !IsSpace(rest[0])
  {
    if s != "" && IsSpace(s[0]) then SkipWs(s[1..]) else s
  }

  // --- Strings ------------------------------------------------------------------

  /** The bytes `append_utf8` adds for one code point. Joining disjoint bits is addition. */
  function Utf8(cp: nat): (out: string)
    requires cp < 0x20_0000
    ensures 1 <= |out| <= 4
  {
    if cp <= 0x7F then [cp as char]
    else if cp <= 0x7FF then [(0xC0 + cp / 64) as char, (0x80 + cp % 64) as char]
    else if cp <= 0xFFFF then
      [(0xE0 + cp / 4096) as char, (0x80 + cp / 64 % 64) as char, (0x80 + cp % 64) as char]
    else
      [(0xF0 + cp / 262144) as char, (0x80 + cp / 4096 % 64) as char,
       (0x80 + cp / 64 % 64) as char, (0x80 + cp % 64) as char]
  }

  function Hex4(s: string): (r: Outcome<nat>)
    ensures r.Ok? ==> |r.rest| < |s| && r.value < 0x1_0000
  {
    if |s| < 4 then Err(TruncatedEscape, |s|)
    else if IsHex(s[0]) && IsHex(s[1]) && IsHex(s[2]) && IsHex(s[3]) then
      Ok(((HexValue(s[0]) * 16 + HexValue(s[1])) * 16 + HexValue(s[2])) * 16 + HexValue(s[3]), s[4..])
    else Err(InvalidEscape, |s|)
  }

  predicate IsHigh(cp: nat) { 0xD800 <= cp <= 0xDBFF }

  predicate IsLow(cp: nat) { 0xDC00 <= cp <= 0xDFFF }

  function Combine(high: nat, low: nat): (cp: nat)
    requires IsHigh(high) && IsLow(low)
  {
    0x1_0000 + (high - 0xD800) * 0x400 + (low - 0xDC00)
  }

  /** What follows `\u`: one escape, or a high surrogate and the low one that must follow. */
  function Unicode(s: string): (r: Outcome<nat>)
    ensures r.Ok? ==> |r.rest| < |s| && r.value < 0x11_0000
  {
    match Hex4(s)
    case Err(m, left) => Err(m, left)
    case Ok(cp, rest) =>
      if !IsHigh(cp) then Ok(cp, rest)
      else if !("\\u" <= rest) then Err(LoneHighSurrogate, |rest|)
      else match Hex4(rest[2..])
        case Err(m, left) => Err(m, left)
        case Ok(low, rest') =>
          if IsLow(low) then Ok(Combine(cp, low), rest') else Err(InvalidLowSurrogate, |rest'|)
  }

  function SimpleEscape(c: char): Option<char> {
    match c
    case '"' => Some('"')
    case '\\' => Some('\\')
    case '/' => Some('/')
    case 'b' => Some('\U{08}')
    case 'f' => Some('\U{0C}')
    case 'n' => Some('\n')
    case 'r' => Some('\r')
    case 't' => Some('\t')
    case _ => None
  }

  /** The characters after the opening quote, appended to `acc`. */
  function Chars(s: string, acc: string): (r: Outcome<string>)
    ensures r.Ok? ==> |r.rest| < |s|
    decreases |s|
  {
    if s == "" then Err(UnterminatedString, 0)
    else if s[0] == '"' then Ok(acc, s[1..])
    else if s[0] != '\\' then Chars(s[1..], acc + [s[0]])
    else if |s| == 1 then Err(UnterminatedEscape, 0)
    else if s[1] == 'u' then
      match Unicode(s[2..])
      case Err(m, left) => Err(m, left)
      case Ok(cp, rest) => Chars(rest, acc + Utf8(cp))
    else
      match SimpleEscape(s[1])
      case Some(c) => Chars(s[2..], acc + [c])
      case None => Err(UnknownEscape, |s| - 2)
  }

  function String(s: string): (r: Outcome<string>)
    ensures r.Ok? ==> |r.rest| < |s|
  {
    if s == "" || s[0] != '"' then Err(ExpectedString, |s|) else Chars(s[1..], "")
  }

  // --- Numbers ------------------------------------------------------------------

  predicate IsNumberChar(c: char) {
    IsDigit(c) || c == '.' || c == 'e' || c == 'E' || c == '+' || c == '-'
  }

  function Span(s: string): (n: nat)
    ensures n <= |s|
  {
    if s != "" && IsNumberChar(s[0]) then 1 + Span(s[1..]) else 0
  }

  predicate AllDigits(s: string) {
    forall i | 0 <= i < |s| :: IsDigit(s[i])
  }

  lemma AllDigitsNext(s: string, c: char)
    ensures AllDigits(s + [c]) <==> AllDigits(s) && IsDigit(c)
  {
    assert forall i | 0 <= i < |s| :: (s + [c])[i] == s[i];
    assert (s + [c])[|s|] == c;
  }

  function DigitsValue(s: string): nat
    requires AllDigits(s)
  {
    if s == "" then 0
    else
      DigitsValue(s[..|s| - 1]) * 10 + HexValue(s[|s| - 1])
  }

  function SignLength(s: string): (n: nat)
    ensures n <= 1 && n <= |s|
  {
    if s != "" && (s[0] == '-' || s[0] == '+') then 1 else 0
  }

  predicate IsInteger(token: string) {
    AllDigits(token[SignLength(token)..])
  }

  /** `std::stoll` on an optional sign and digits; `None` stands for either exception. */
  function Stoll(token: string): Option<Int64>
    requires IsInteger(token)
  {
    var digits := token[SignLength(token)..];
    var n := if token != "" && token[0] == '-' then 0 - DigitsValue(digits) else DigitsValue(digits);
    if digits != "" && -0x8000_0000_0000_0000 <= n < 0x8000_0000_0000_0000 then Some(n) else None
  }

  /** The value of a number token; `None` stands for a library exception. */
  function NumberValue(lib: FloatLib, token: string): Option<Value> {
    if IsInteger(token) then
      match Stoll(token) { case Some(i) => Some(Int(i)) case None => None }
    else
      match lib.stod(token) { case Some(bits) => Some(Double(bits)) case None => None }
  }

  function TokenLength(s: string): (n: nat)
    ensures n <= |s|
  {
    SignLength(s) + Span(s[SignLength(s)..])
  }

  function Number(lib: FloatLib, s: string): (r: Outcome<Value>)
    ensures r.Ok? ==> |r.rest| < |s|
    ensures r.Ok? ==> r.value.Int? || r.value.Double?
  {
    var n := TokenLength(s);
    if n == 0 then Err(ExpectedNumber, |s|)
    else
      match NumberValue(lib, s[..n])
      case Some(v) => Ok(v, s[n..])
      case None => Err(NumberOutOfRange, |s| - n)
  }

  // --- Values -------------------------------------------------------------------

  function Literal(s: string, word: string, value: Value): (r: Outcome<Value>)
    requires word != ""
    ensures r.Ok? ==> |r.rest| < |s|
  {
    if word <= s then Ok(value, s[|word|..]) else Err(UnexpectedToken, |s|)
  }

  /** What follows an element: a comma, or the closing character. */
  function Separator(s: string, close: char, missing: Message, wrong: Message): (r: Outcome<bool>)
    ensures r.Ok? ==> |r.rest| < |s|
  {
    var t := SkipWs(s);
    if t == "" then Err(missing, 0)
    else if t[0] == ',' then Ok(true, t[1..])
    else if t[0] == close then Ok(false, t[1..])
    else Err(wrong, |t|)
  }

  /** A key and its colon. */
  function Key(s: string): (r: Outcome<string>)
    ensures r.Ok? ==> |r.rest| < |s|
  {
    match String(SkipWs(s))
    case Err(m, left) => Err(m, left)
    case Ok(key, rest) =>
      var t := SkipWs(rest);
      if t == "" || t[0] != ':' then Err(ExpectedColon, |t|) else Ok(key, t[1..])
  }

  /** The object built by inserting the members in the order they were read. */
  function Collapse(read: seq<Member>): Object {
    if read == [] then []
    else
      var last := read[|read| - 1];
      InsertOrAssign(Collapse(read[..|read| - 1]), last.key, last.value)
  }

  lemma CollapseNext(read: seq<Member>, next: Member)
    ensures Collapse(read + [next]) == InsertOrAssign(Collapse(read), next.key, next.value)
  {
    assert (read + [next])[..|read|] == read;
  }

  function ParseValue(lib: FloatLib, s: string, depth: nat): (r: Outcome<Value>)
    ensures r.Ok? ==> |r.rest| < |s|
    decreases |s|, 0
  {
    if depth > MAX_DEPTH then Err(NestingTooDeep, |s|)
    else
      var t := SkipWs(s);
      if t == "" then Err(UnexpectedEnd, 0)
      else match t[0]
        case 'n' => Literal(t, "null", Null)
        case 't' => Literal(t, "true", Bool(true))
        case 'f' => Literal(t, "false", Bool(false))
        case '"' =>
          (match String(t)
           case Err(m, left) => Err(m, left)
           case Ok(text, rest) => Ok(Str(text), rest))
        case '[' => ArrayBody(lib, t[1..], depth)
        case '{' => ObjectBody(lib, t[1..], depth)
        case _ => Number(lib, t)
  }

  /** What follows the opening bracket. */
  function ArrayBody(lib: FloatLib, s: string, depth: nat): (r: Outcome<Value>)
    ensures r.Ok? ==> |r.rest| < |s|
    decreases |s|, 3
  {
    var t := SkipWs(s);
    if t != "" && t[0] == ']' then Ok(Arr([]), t[1..]) else ParseItems(lib, t, depth, [])
  }

  /** What follows the opening brace. */
  function ObjectBody(lib: FloatLib, s: string, depth: nat): (r: Outcome<Value>)
    ensures r.Ok? ==> |r.rest| < |s|
    decreases |s|, 3
  {
    var t := SkipWs(s);
    if t != "" && t[0] == '}' then Ok(Obj([]), t[1..]) else ParseMembers(lib, t, depth, [])
  }

  /** The rest of a non-empty array whose items so far are `acc`. */
  function ParseItems(lib: FloatLib, s: string, depth: nat, acc: seq<Value>): (r: Outcome<Value>)
    ensures r.Ok? ==> |r.rest| < |s|
    decreases |s|, 1
  {
    match ParseValue(lib, s, depth + 1)
    case Err(m, left) => Err(m, left)
    case Ok(item, rest) =>
      match Separator(rest, ']', UnterminatedArray, ExpectedCommaOrBracket)
      case Err(m, left) => Err(m, left)
      case Ok(more, rest') =>
        if more then ParseItems(lib, rest', depth, acc + [item]) else Ok(Arr(acc + [item]), rest')
  }

  /** A key, a colon and a value. */
  function ParseMember(lib: FloatLib, s: string, depth: nat): (r: Outcome<Member>)
    ensures r.Ok? ==> |r.rest| < |s|
    decreases |s|, 1
  {
    match Key(s)
    case Err(m, left) => Err(m, left)
    case Ok(key, rest) =>
      match ParseValue(lib, rest, depth + 1)
      case Err(m, left) => Err(m, left)
      case Ok(item, rest') => Ok(Member(key, item), rest')
  }

  /** The rest of a non-empty object from which the members `acc` were read. */
  function ParseMembers(lib: FloatLib, s: string, depth: nat, acc: seq<Member>): (r: Outcome<Value>)
    ensures r.Ok? ==> |r.rest| < |s|
    decreases |s|, 2
  {
    match ParseMember(lib, s, depth)
    case Err(m, left) => Err(m, left)
    case Ok(member, rest) =>
      match Separator(rest, '}', UnterminatedObject, ExpectedCommaOrBrace)
      case Err(m, left) => Err(m, left)
      case Ok(more, rest') =>
        if more then ParseMembers(lib, rest', depth, acc + [member])
        else Ok(Obj(Collapse(acc + [member])), rest')
  }

  /** `parse`: a value with only white space after it. */
  function Parse(lib: FloatLib, text: string): Option<Value> {
    match ParseValue(lib, text, 0)
    case Err(_, _) => None
    case Ok(v, rest) => if SkipWs(rest) == "" then Some(v) else None
  }
}
