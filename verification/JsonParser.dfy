/** The recursive-descent parser: a cursor and an error message over a fixed text, each
    method proved to do what JsonGrammar says of the text from the cursor on. */
module JsonParser {
  import opened Common
  import opened JsonValue
  import opened JsonPrinter
  import opened JsonGrammar

  function Wording(message: Message): string {
    match message
    case TruncatedEscape => "truncated \\u escape"
    case InvalidEscape => "invalid \\u escape"
    case LoneHighSurrogate => "lone high surrogate"
    case InvalidLowSurrogate => "invalid low surrogate"
    case UnterminatedString => "unterminated string"
    case UnterminatedEscape => "unterminated escape"
    case UnknownEscape => "unknown escape"
    case ExpectedString => "expected string"
    case ExpectedNumber => "expected number"
    case NumberOutOfRange => "number out of range"
    case UnexpectedToken => "unexpected token"
    case NestingTooDeep => "nesting too deep"
    case UnexpectedEnd => "unexpected end of input"
    case UnterminatedArray => "unterminated array"
    case ExpectedCommaOrBracket => "expected , or ] in array"
    case ExpectedColon => "expected : after key"
    case UnterminatedObject => "unterminated object"
    case ExpectedCommaOrBrace => "expected , or } in object"
  }

  /** The `error` string of the parser, empty until something fails. */
  datatype Error = NoError | At(message: Message, offset: nat) {
    function Text(): (text: string)
      ensures text == "" <==> NoError?
    {
      match this
      case NoError => ""
      case At(message, offset) => Wording(message) + " at offset " + Decimal(offset)
    }
  }

  lemma TokenParts(text: string, start: nat, end: nat)
    requires start <= |text| && end == start + TokenLength(text[start..])
    ensures text[start..end] == text[start..][..TokenLength(text[start..])]
    ensures text[end..] == text[start..][TokenLength(text[start..])..]
    ensures IsInteger(text[start..end]) == AllDigits(text[start + SignLength(text[start..])..end])
  {
    var s, token := text[start..], text[start..end];
    assert SignLength(token) == SignLength(s);
    assert token[SignLength(token)..] == text[start + SignLength(s)..end];
  }

  class Parser {
    const text: string
    var pos: nat
    var error: Error

    constructor (text: string)
      ensures this.text == text && pos == 0 && error == NoError
    {
      this.text := text;
      pos := 0;
      error := NoError;
    }

    ghost predicate Ready()
      reads this
    {
      pos <= |text| && error == NoError
    }

    /** The call ended as `spec` says: value and new cursor on success, message and offset
        of the failure otherwise. */
    ghost predicate Did<T(!new)>(ok: bool, out: T, spec: Outcome<T>)
      reads this
    {
      && pos <= |text|
      && ok == spec.Ok?
      && (ok ==> out == spec.value && text[pos..] == spec.rest && error == NoError)
      && (!ok ==> spec.left <= |text| && error == At(spec.message, |text| - spec.left))
    }

    method Fail(message: Message) returns (ok: bool)
      requires pos <= |text|
      modifies this`error
      ensures !ok
      ensures error == if old(error) == NoError then At(message, pos) else old(error)
    {
      if error == NoError {
        error := At(message, pos);
      }
      ok := false;
    }

    method SkipSpaces()
      requires Ready()
      modifies this`pos
      ensures old(pos) <= pos <= |text| && text[pos..] == SkipWs(old(text[pos..]))
      ensures forall i | old(pos) <= i < pos :: text[i] in " \t\n\r"
      ensures pos < |text| ==> text[pos] !in " \t\n\r"
    {
      while pos < |text|
        invariant old(pos) <= pos <= |text|
        invariant forall i | old(pos) <= i < pos :: text[i] in " \t\n\r"
        invariant SkipWs(text[pos..]) == SkipWs(old(text[pos..]))
      {
        assert text[pos..][1..] == text[pos + 1..];
        var c := text[pos];
        if c == ' ' || c == '\t' || c == '\n' || c == '\r' {
          pos := pos + 1;
        } else {
          break;
        }
      }
    }

    method LiteralWord(word: string, value: Value) returns (ok: bool, out: Value)
      requires Ready() && word != ""
      modifies this
      ensures Did(ok, out, Literal(old(text[pos..]), word, value))
    {
      out := value;
      if pos + |word| <= |text| && text[pos..pos + |word|] == word {
        assert word <= text[pos..];
        assert text[pos..][|word|..] == text[pos + |word|..];
        pos := pos + |word|;
        ok := true;
      } else {
        ok := Fail(UnexpectedToken);
      }
    }

    method ParseHex4() returns (ok: bool, out: nat)
      requires Ready()
      modifies this
      ensures Did(ok, out, Hex4(old(text[pos..])))
    {
      out := 0;
      if pos + 4 > |text| {
        ok := Fail(TruncatedEscape);
        return;
      }
      ghost var s := text[pos..];
      var i := 0;
      while i < 4
        invariant 0 <= i <= 4 && pos == old(pos) && error == NoError
        invariant forall k | 0 <= k < i :: IsHex(s[k])
        invariant i >= 1 ==> out < 0x1_0000
        invariant i >= 1 ==> (out == HexValue(s[i - 1]) + (
          if i == 1 then 0
          else if i == 2 then HexValue(s[0]) * 16
          else if i == 3 then (HexValue(s[0]) * 16 + HexValue(s[1])) * 16
          else ((HexValue(s[0]) * 16 + HexValue(s[1])) * 16 + HexValue(s[2])) * 16))
        invariant i == 0 ==> out == 0
      {
        var c := text[pos + i];
        assert c == s[i];
        if !IsHex(c) {
          ok := Fail(InvalidEscape);
          return;
        }
        out := out * 16 + HexValue(c);
        i := i + 1;
      }
      assert text[pos + 4..] == s[4..];
      pos := pos + 4;
      ok := true;
    }

    /** The `u` case of an escape: the code point, with a surrogate pair combined. */
    method ParseUnicode() returns (ok: bool, cp: nat)
      requires Ready()
      modifies this
      ensures Did(ok, cp, Unicode(old(text[pos..])))
    {
      ok, cp := ParseHex4();
      if ok && 0xD800 <= cp <= 0xDBFF {
        ghost var s := text[pos..];
        if pos + 1 < |text| && text[pos] == '\\' && text[pos + 1] == 'u' {
          assert "\\u" <= s && text[pos + 2..] == s[2..];
          pos := pos + 2;
          var low;
          ok, low := ParseHex4();
          if ok {
            if low < 0xDC00 || low > 0xDFFF {
              ok := Fail(InvalidLowSurrogate);
            } else {
              cp := 0x1_0000 + (cp - 0xD800) * 0x400 + (low - 0xDC00);
            }
          }
        } else {
          assert !("\\u" <= s);
          ok := Fail(LoneHighSurrogate);
        }
      }
    }

    method ParseString() returns (ok: bool, out: string)
      requires Ready()
      modifies this
      ensures Did(ok, out, String(old(text[pos..])))
    {
      out := "";
      if pos >= |text| || text[pos] != '"' {
        ok := Fail(ExpectedString);
        return;
      }
      assert text[pos..][1..] == text[pos + 1..];
      pos := pos + 1;
      while true
        invariant Ready()
        invariant Chars(text[pos..], out) == String(old(text[pos..]))
        decreases |text| - pos
      {
        ghost var s := text[pos..];
        if pos >= |text| {
          ok := Fail(UnterminatedString);
          return;
        }
        var c := text[pos];
        pos := pos + 1;
        assert s[1..] == text[pos..];
        if c == '"' {
          ok := true;
          return;
        }
        if c != '\\' {
          out := out + [c];
          continue;
        }
        if pos >= |text| {
          ok := Fail(UnterminatedEscape);
          return;
        }
        var esc := text[pos];
        pos := pos + 1;
        assert s[1] == esc && s[2..] == text[pos..];
        if esc == 'u' {
          var cp;
          ok, cp := ParseUnicode();
          if !ok { return; }
          out := out + Utf8(cp);
        } else {
          match SimpleEscape(esc) {
            case Some(plain) => out := out + [plain];
            case None =>
              ok := Fail(UnknownEscape);
              return;
          }
        }
      }
    }

    method ParseNumber(lib: FloatLib) returns (ok: bool, out: Value)
      requires Ready()
      modifies this
      ensures Did(ok, out, Number(lib, old(text[pos..])))
    {
      out := Null;
      var token, isDouble := ScanToken();
      if token == "" {
        ok := Fail(ExpectedNumber);
      } else {
        ok, out := Convert(lib, token, isDouble);
      }
    }

    /** Runs over an optional sign and every number character after it. */
    method ScanToken() returns (token: string, isDouble: bool)
      requires Ready()
      modifies this`pos
      ensures pos <= |text| && token == old(text[pos..])[..TokenLength(old(text[pos..]))]
      ensures text[pos..] == old(text[pos..])[TokenLength(old(text[pos..]))..]
      ensures isDouble == !IsInteger(token)
    {
      var start := pos;
      ghost var s := text[pos..];
      if pos < |text| && (text[pos] == '-' || text[pos] == '+') { pos := pos + 1; }
      assert text[pos..] == s[SignLength(s)..];
      isDouble := ScanDigits();
      token := text[start..pos];
      TokenParts(text, start, pos);
    }

    /** The loop over number characters; tells whether one of them was no digit. */
    method ScanDigits() returns (isDouble: bool)
      requires Ready()
      modifies this`pos
      ensures pos == old(pos) + Span(old(text[pos..])) && pos <= |text|
      ensures isDouble == !AllDigits(text[old(pos)..pos])
    {
      isDouble := false;
      while pos < |text|
        invariant old(pos) <= pos <= |text|
        invariant pos + Span(text[pos..]) == old(pos) + Span(old(text[pos..]))
        invariant isDouble == !AllDigits(text[old(pos)..pos])
      {
        var c := text[pos];
        assert text[pos..][1..] == text[pos + 1..];
        assert text[old(pos)..pos + 1] == text[old(pos)..pos] + [c];
        AllDigitsNext(text[old(pos)..pos], c);
        if IsDigit(c) {
          pos := pos + 1;
        } else if c == '.' || c == 'e' || c == 'E' || c == '+' || c == '-' {
          isDouble := true;
          pos := pos + 1;
        } else {
          break;
        }
      }
    }

    /** The conversion of a number token; either library exception becomes a failure. */
    method Convert(lib: FloatLib, token: string, isDouble: bool) returns (ok: bool, out: Value)
      requires Ready() && isDouble == !IsInteger(token)
      modifies this`error
      ensures pos == old(pos) && ok == NumberValue(lib, token).Some?
      ensures ok ==> out == NumberValue(lib, token).value && error == NoError
      ensures !ok ==> error == At(NumberOutOfRange, pos)
    {
      out := Null;
      if isDouble {
        var bits := lib.stod(token);
        if bits.Some? { return true, Double(bits.value); }
      } else {
        var i := Stoll(token);
        if i.Some? { return true, Int(i.value); }
      }
      ok := Fail(NumberOutOfRange);
    }

    method ParseAny(lib: FloatLib, depth: nat) returns (ok: bool, out: Value)
      requires Ready()
      modifies this
      ensures Did(ok, out, ParseValue(lib, old(text[pos..]), depth))
      ensures ok ==> old(pos) < pos
      decreases |text| - pos, 1
    {
      out := Null;
      if depth > 32 {
        ok := Fail(NestingTooDeep);
        return;
      }
      SkipSpaces();
      if pos >= |text| {
        ok := Fail(UnexpectedEnd);
        return;
      }
      match text[pos] {
        case 'n' => ok, out := LiteralWord("null", Null);
        case 't' => ok, out := LiteralWord("true", Bool(true));
        case 'f' => ok, out := LiteralWord("false", Bool(false));
        case '"' =>
          var s;
          ok, s := ParseString();
          out := Str(s);
        case '[' =>
          assert text[pos..][1..] == text[pos + 1..];
          pos := pos + 1;
          ok, out := ParseArray(lib, depth);
        case '{' =>
          assert text[pos..][1..] == text[pos + 1..];
          pos := pos + 1;
          ok, out := ParseObject(lib, depth);
        case _ => ok, out := ParseNumber(lib);
      }
    }

    /** The array case of `parse_value`, after the opening bracket. */
    method ParseArray(lib: FloatLib, depth: nat) returns (ok: bool, out: Value)
      requires Ready()
      modifies this
      ensures Did(ok, out, ArrayBody(lib, old(text[pos..]), depth))
      decreases |text| - pos, 3
    {
      SkipSpaces();
      if pos < |text| && text[pos] == ']' {
        assert text[pos..][1..] == text[pos + 1..];
        pos := pos + 1;
        ok, out := true, Arr([]);
      } else {
        ok, out := ParseArrayItems(lib, depth);
      }
    }

    method ParseArrayItems(lib: FloatLib, depth: nat) returns (ok: bool, out: Value)
      requires Ready()
      modifies this
      ensures Did(ok, out, ParseItems(lib, old(text[pos..]), depth, []))
      decreases |text| - pos, 2
    {
      out := Null;
      ghost var spec := ParseItems(lib, text[pos..], depth, []);
      var items := [];
      while true
        invariant Ready() && old(pos) <= pos
        invariant ParseItems(lib, text[pos..], depth, items) == spec
        decreases |text| - pos
      {
        var item;
        ok, item := ParseAny(lib, depth + 1);
        if !ok { return; }
        items := items + [item];
        var more;
        ok, more := ParseSeparator(']', UnterminatedArray, ExpectedCommaOrBracket);
        if !ok { return; }
        if !more {
          out := Arr(items);
          return;
        }
      }
    }

    /** The end of a loop body in `parse_value`: another element, the end, or a failure. */
    method ParseSeparator(close: char, missing: Message, wrong: Message) returns (ok: bool, more: bool)
      requires Ready()
      modifies this
      ensures Did(ok, more, Separator(old(text[pos..]), close, missing, wrong))
      ensures old(pos) <= pos
    {
      more := true;
      SkipSpaces();
      if pos >= |text| {
        ok := Fail(missing);
        return;
      }
      assert text[pos..][1..] == text[pos + 1..];
      if text[pos] == ',' {
        pos := pos + 1;
        ok := true;
      } else if text[pos] == close {
        pos := pos + 1;
        ok, more := true, false;
      } else {
        ok := Fail(wrong);
      }
    }

    /** The object case of `parse_value`, after the opening brace. */
    method ParseObject(lib: FloatLib, depth: nat) returns (ok: bool, out: Value)
      requires Ready()
      modifies this
      ensures Did(ok, out, ObjectBody(lib, old(text[pos..]), depth))
      decreases |text| - pos, 3
    {
      SkipSpaces();
      if pos < |text| && text[pos] == '}' {
        assert text[pos..][1..] == text[pos + 1..];
        pos := pos + 1;
        ok, out := true, Obj([]);
      } else {
        ok, out := ParseObjectMembers(lib, depth);
      }
    }

    method ParseOneMember(lib: FloatLib, depth: nat) returns (ok: bool, member: Member)
      requires Ready()
      modifies this
      ensures Did(ok, member, ParseMember(lib, old(text[pos..]), depth))
      ensures ok ==> old(pos) < pos
      decreases |text| - pos, 1
    {
      var key, item := "", Null;
      ok, key := ParseKey();
      if ok {
        ok, item := ParseAny(lib, depth + 1);
      }
      member := Member(key, item);
    }

    method ParseKey() returns (ok: bool, key: string)
      requires Ready()
      modifies this
      ensures Did(ok, key, Key(old(text[pos..])))
    {
      SkipSpaces();
      ok, key := ParseString();
      if !ok { return; }
      SkipSpaces();
      if pos >= |text| || text[pos] != ':' {
        ok := Fail(ExpectedColon);
        return;
      }
      assert text[pos..][1..] == text[pos + 1..];
      pos := pos + 1;
    }

    method ParseObjectMembers(lib: FloatLib, depth: nat) returns (ok: bool, out: Value)
      requires Ready()
      modifies this
      ensures Did(ok, out, ParseMembers(lib, old(text[pos..]), depth, []))
      decreases |text| - pos, 2
    {
      out := Null;
      ghost var spec := ParseMembers(lib, text[pos..], depth, []);
      ghost var read: seq<Member> := [];
      var members := [];
      while true
        invariant Ready() && old(pos) <= pos
        invariant members == Collapse(read)
        invariant ParseMembers(lib, text[pos..], depth, read) == spec
        decreases |text| - pos
      {
        var member;
        ok, member := ParseOneMember(lib, depth);
        if !ok { return; }
        members := InsertOrAssign(members, member.key, member.value);
        CollapseNext(read, member);
        read := read + [member];
        var more;
        ok, more := ParseSeparator('}', UnterminatedObject, ExpectedCommaOrBrace);
        if !ok { return; }
        if !more {
          out := Obj(members);
          return;
        }
      }
    }
  }

  /** `parse`: total on every text; the message is that of the first failure with its offset, or
      tells of trailing content, and is empty exactly when there is a value. */
  method ParseText(lib: FloatLib, text: string) returns (result: Option<Value>, error: string)
    ensures result == Parse(lib, text)
    ensures result.None? <==> error != ""
    ensures match ParseValue(lib, text, 0)
      case Err(message, left) => error == Wording(message) + " at offset " + Decimal(|text| - left)
      case Ok(_, _) => result.None? ==> error == "trailing content after JSON value"
  {
    var parser := new Parser(text);
    assert text[0..] == text;
    var ok, value := parser.ParseAny(lib, 0);
    if !ok {
      return None, parser.error.Text();
    }
    parser.SkipSpaces();
    if parser.pos != |text| {
      return None, "trailing content after JSON value";
    }
    return Some(value), "";
  }
}
