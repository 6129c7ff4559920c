/** Printing and parsing undo each other, up to the nesting limit and no further. */
module JsonRoundTrip {
  import opened Common
  import opened JsonValue
  import opened JsonPrinter
  import opened JsonGrammar

  // --- Numbers ------------------------------------------------------------------

  lemma {:induction false} DigitsRead(n: nat)
    ensures Digits(n) != "" && AllDigits(Digits(n)) && DigitsValue(Digits(n)) == n
    ensures Digits(n)[0] == '0' ==> Digits(n) == "0"
  {
    if n >= 10 {
      DigitsRead(n / 10);
      assert Digits(n)[..|Digits(n)| - 1] == Digits(n / 10);
    } else {
      assert DigitsValue(Digits(n)[..0]) == 0;
    }
  }

  predicate Delimited(post: string) {
    post == "" || post[0] == ',' || post[0] == ']' || post[0] == '}'
  }

  lemma {:induction false} SpanDigits(digits: string, post: string)
    requires AllDigits(digits) && Delimited(post)
    ensures Span(digits + post) == |digits|
  {
    if digits != "" {
      assert (digits + post)[1..] == digits[1..] + post;
      SpanDigits(digits[1..], post);
    } else {
      assert digits + post == post;
    }
  }

  lemma SignedToken(sign: string, digits: string, post: string)
    requires sign == "" || sign == "-"
    requires digits != "" && AllDigits(digits) && Delimited(post)
    ensures TokenLength(sign + digits + post) == |sign + digits|
  {
    var s := sign + digits + post;
    SpanDigits(digits, post);
    if sign == "" {
      assert s == digits + post && s[0] == digits[0];
    } else {
      assert s[1..] == digits + post;
    }
  }

  lemma TokenPrinted(i: int, post: string)
    requires Delimited(post)
    ensures TokenLength(Decimal(i) + post) == |Decimal(i)|
  {
    var n := if i < 0 then -i else i;
    DigitsRead(n);
    SignedToken(if i < 0 then "-" else "", Digits(n), post);
    assert i >= 0 ==> "" + Digits(n) == Digits(n);
  }

  lemma StollPrinted(i: Int64)
    ensures IsInteger(Decimal(i)) && Stoll(Decimal(i)) == Some(i)
    ensures var c := Decimal(i)[0]; c == '-' || IsDigit(c)
  {
    var n: int := i;
    var token, digits := Decimal(n), Digits(if n < 0 then -n else n);
    DigitsRead(if n < 0 then -n else n);
    assert token[SignLength(token)..] == digits;
  }

  lemma NumberPrinted(lib: FloatLib, i: Int64, post: string)
    requires Delimited(post)
    ensures Number(lib, Decimal(i) + post) == Ok(Int(i), post)
  {
    TokenPrinted(i, post);
    StollPrinted(i);
    var s := Decimal(i) + post;
    assert s[..|Decimal(i)|] == Decimal(i) && s[|Decimal(i)|..] == post;
  }

  // --- Strings ------------------------------------------------------------------

  lemma ControlEscape(c: char, rest: string)
    requires c < '\U{20}'
    ensures var n := c as nat;
      Unicode(['0', '0', HexDigit(n / 16, false), HexDigit(n % 16, false)] + rest) == Ok(n, rest)
    ensures Utf8(c as nat) == [c]
  {
    var n := c as nat;
    var s := ['0', '0', HexDigit(n / 16, false), HexDigit(n % 16, false)] + rest;
    HexDigitRead(n / 16, false);
    HexDigitRead(n % 16, false);
    assert s[4..] == rest;
  }

  lemma ControlPrinted(c: char, rest: string, acc: string)
    requires c < '\U{20}' && |EscapeChar(c)| == 6
    ensures Chars(EscapeChar(c) + rest, acc) == Chars(rest, acc + [c])
  {
    ControlEscape(c, rest);
    var n := c as nat;
    assert (EscapeChar(c) + rest)[2..] == ['0', '0', HexDigit(n / 16, false), HexDigit(n % 16, false)] + rest;
  }

  lemma CharPrinted(c: char, rest: string, acc: string)
    ensures Chars(EscapeChar(c) + rest, acc) == Chars(rest, acc + [c])
  {
    if |EscapeChar(c)| == 6 {
      ControlPrinted(c, rest, acc);
    } else if |EscapeChar(c)| == 2 {
      assert SimpleEscape(EscapeChar(c)[1]) == Some(c);
      assert (EscapeChar(c) + rest)[2..] == rest;
    } else {
      assert (EscapeChar(c) + rest)[1..] == rest;
    }
  }

  lemma CharsEnd(post: string, acc: string)
    ensures Chars("\"" + post, acc) == Ok(acc, post)
  {
    assert ("\"" + post)[1..] == post;
  }

  lemma {:induction false} CharsPrinted(s: string, post: string, acc: string)
    ensures Chars(Escape(s, "\"" + post), acc) == Ok(acc + s, post)
  {
    if s == "" {
      CharsEnd(post, acc);
      assert acc + s == acc;
    } else {
      CharPrinted(s[0], Escape(s[1..], "\"" + post), acc);
      CharsPrinted(s[1..], post, acc + [s[0]]);
      Assoc(acc, [s[0]], s[1..]);
      assert [s[0]] + s[1..] == s;
    }
  }

  lemma StringPrinted(s: string, post: string)
    ensures String(Quoted(s, post)) == Ok(s, post)
  {
    assert Quoted(s, post)[1..] == Escape(s, "\"" + post);
    CharsPrinted(s, post, "");
    assert "" + s == s;
  }

  // --- Values -------------------------------------------------------------------

  lemma NoSpace(c: char, rest: string)
    requires !IsSpace(c)
    ensures SkipWs([c] + rest) == [c] + rest && ([c] + rest)[1..] == rest
  {
  }

  lemma LiteralPrinted(lib: FloatLib, word: string, post: string, depth: nat)
    requires word == "null" || word == "true" || word == "false"
    requires depth <= MAX_DEPTH
    ensures ParseValue(lib, word + post, depth)
         == Ok(if word == "null" then Null else Bool(word == "true"), post)
  {
    assert word <= word + post && (word + post)[|word|..] == post;
  }

  lemma NumberDispatch(lib: FloatLib, s: string, depth: nat)
    requires s != "" && (s[0] == '-' || IsDigit(s[0])) && depth <= MAX_DEPTH
    ensures ParseValue(lib, s, depth) == Number(lib, s)
  {
  }

  lemma TextPrinted(lib: FloatLib, text: string, post: string, depth: nat)
    requires depth <= MAX_DEPTH
    ensures ParseValue(lib, Quoted(text, post), depth) == Ok(Str(text), post)
  {
    StringPrinted(text, post);
  }

  lemma ScalarPrinted(lib: FloatLib, v: Value, post: string, depth: nat)
    requires (v.Null? || v.Bool? || v.Int? || v.Str?) && Delimited(post) && depth <= MAX_DEPTH
    ensures ParseValue(lib, Print(lib, v, post), depth) == Ok(v, post)
  {
    match v {
      case Null => LiteralPrinted(lib, "null", post, depth);
      case Bool(b) => LiteralPrinted(lib, if b then "true" else "false", post, depth);
      case Int(i) =>
        StollPrinted(i);
        NumberPrinted(lib, i, post);
        NumberDispatch(lib, Decimal(i) + post, depth);
      case Str(text) => TextPrinted(lib, text, post, depth);
    }
  }

  lemma BracketDispatch(lib: FloatLib, rest: string, depth: nat)
    requires depth <= MAX_DEPTH
    ensures ParseValue(lib, "[" + rest, depth) == ArrayBody(lib, rest, depth)
    ensures ParseValue(lib, "{" + rest, depth) == ObjectBody(lib, rest, depth)
  {
    NoSpace('[', rest);
    NoSpace('{', rest);
  }

  /** The parser reads back what was printed if the depth allows it, and fails if not. */
  lemma {:induction false} ValuePrinted(lib: FloatLib, v: Value, post: string, depth: nat)
    requires WellFormed(v) && DoubleFree(v) && Delimited(post)
    ensures var r := ParseValue(lib, Print(lib, v, post), depth);
      if depth + Height(v) <= MAX_DEPTH then r == Ok(v, post) else r.Err?
    decreases v, 0
  {
    if depth <= MAX_DEPTH {
      match v {
        case Arr(items) =>
          BracketDispatch(lib, PrintItems(lib, items, true, "]" + post), depth);
          ArrayPrinted(lib, items, post, depth);
        case Obj(members) =>
          BracketDispatch(lib, PrintMembers(lib, members, true, "}" + post), depth);
          CollapseAscending(members);
          ObjectPrinted(lib, members, post, depth);
        case _ => ScalarPrinted(lib, v, post, depth);
      }
    }
  }

  lemma FirstPrinted(lib: FloatLib, v: Value, post: string)
    requires DoubleFree(v)
    ensures var s := Print(lib, v, post); s != "" && s[0] != ']' && SkipWs(s) == s
  {
    match v {
      case Int(i) => StollPrinted(i);
      case _ =>
    }
  }

  lemma SeparatorPrinted(rest: string, close: char, post: string, missing: Message, wrong: Message)
    requires close == ']' || close == '}'
    ensures Separator("," + rest, close, missing, wrong) == Ok(true, rest)
    ensures Separator([close] + post, close, missing, wrong) == Ok(false, post)
  {
    NoSpace(',', rest);
    NoSpace(close, post);
  }

  lemma {:induction false} ArrayPrinted(lib: FloatLib, items: seq<Value>, post: string, depth: nat)
    requires (forall x | x in items :: WellFormed(x) && DoubleFree(x)) && depth <= MAX_DEPTH
    ensures var r := ArrayBody(lib, PrintItems(lib, items, true, "]" + post), depth);
      if depth + Height(Arr(items)) <= MAX_DEPTH then r == Ok(Arr(items), post) else r.Err?
    decreases items, 2
  {
    if items == [] {
      NoSpace(']', post);
    } else {
      FirstPrinted(lib, items[0], PrintItems(lib, items[1..], false, "]" + post));
      ItemsPrinted(lib, items, post, depth, []);
      assert [] + items == items;
    }
  }

  lemma {:induction false} ItemsPrinted(lib: FloatLib, items: seq<Value>, post: string, depth: nat, acc: seq<Value>)
    requires items != [] && forall x | x in items :: WellFormed(x) && DoubleFree(x)
    ensures var r := ParseItems(lib, PrintItems(lib, items, true, "]" + post), depth, acc);
      if depth + 1 + ItemsHeight(items) <= MAX_DEPTH then r == Ok(Arr(acc + items), post) else r.Err?
    decreases items, 1
  {
    var item, others := items[0], items[1..];
    ValuePrinted(lib, item, PrintItems(lib, others, false, "]" + post), depth + 1);
    SeparatorPrinted(PrintItems(lib, others, true, "]" + post), ']', post, UnterminatedArray, ExpectedCommaOrBracket);
    if others == [] {
      assert items == [item] && ItemsHeight(others) == 0;
    } else {
      ItemsPrinted(lib, others, post, depth, acc + [item]);
      assert acc + [item] + others == acc + items;
    }
  }

  lemma KeyPrinted(key: string, rest: string)
    ensures Key(Quoted(key, ":" + rest)) == Ok(key, rest)
  {
    StringPrinted(key, ":" + rest);
    NoSpace(':', rest);
  }

  lemma MembersStart(lib: FloatLib, members: Object, post: string)
    requires members != []
    ensures var s := PrintMembers(lib, members, true, post); SkipWs(s) == s && s != "" && s[0] == '"'
  {
    var rest := ":" + Print(lib, members[0].value, PrintMembers(lib, members[1..], false, post));
    NoSpace('"', Escape(members[0].key, "\"" + rest));
  }

  lemma EmptyObject(lib: FloatLib, post: string, depth: nat)
    ensures ObjectBody(lib, "}" + post, depth) == Ok(Obj([]), post)
  {
    NoSpace('}', post);
  }

  lemma BodyOfMembers(lib: FloatLib, s: string, depth: nat)
    requires SkipWs(s) == s && s != "" && s[0] == '"'
    ensures ObjectBody(lib, s, depth) == ParseMembers(lib, s, depth, [])
  {
  }

  lemma ObjectOfMembers(lib: FloatLib, members: Object, post: string, depth: nat)
    requires members != []
    ensures ObjectBody(lib, PrintMembers(lib, members, true, post), depth)
         == ParseMembers(lib, PrintMembers(lib, members, true, post), depth, [])
  {
    MembersStart(lib, members, post);
    BodyOfMembers(lib, PrintMembers(lib, members, true, post), depth);
  }

  /** An object reads back from the members read so far, none. */
  lemma ObjectOfNone(lib: FloatLib, members: Object, post: string, depth: nat)
    requires members != []
    requires var r := ParseMembers(lib, PrintMembers(lib, members, true, "}" + post), depth, []);
      if depth + 1 + MembersHeight(members) <= MAX_DEPTH then r == Ok(Obj(Collapse([] + members)), post) else r.Err?
    ensures var r := ObjectBody(lib, PrintMembers(lib, members, true, "}" + post), depth);
      if depth + Height(Obj(members)) <= MAX_DEPTH then r == Ok(Obj(Collapse(members)), post) else r.Err?
  {
    ObjectOfMembers(lib, members, "}" + post, depth);
    assert [] + members == members;
  }

  lemma {:induction false} ObjectPrinted(lib: FloatLib, members: Object, post: string, depth: nat)
    requires forall m | m in members :: WellFormed(m.value) && DoubleFree(m.value)
    requires depth <= MAX_DEPTH
    ensures var r := ObjectBody(lib, PrintMembers(lib, members, true, "}" + post), depth);
      if depth + Height(Obj(members)) <= MAX_DEPTH then r == Ok(Obj(Collapse(members)), post) else r.Err?
    decreases members, 2
  {
    if members == [] {
      EmptyObject(lib, post, depth);
    } else {
      MembersPrinted(lib, members, post, depth, []);
      ObjectOfNone(lib, members, post, depth);
    }
  }

  lemma {:induction false} MemberPrinted(lib: FloatLib, m: Member, post: string, depth: nat)
    requires WellFormed(m.value) && DoubleFree(m.value) && Delimited(post)
    ensures var r := ParseMember(lib, PrintMember(lib, m, post), depth);
      if depth + 1 + Height(m.value) <= MAX_DEPTH then r == Ok(m, post) else r.Err?
    decreases m, 1
  {
    KeyPrinted(m.key, Print(lib, m.value, post));
    ValuePrinted(lib, m.value, post, depth + 1);
  }

  lemma {:induction false} MembersPrinted(lib: FloatLib, members: Object, post: string, depth: nat, acc: seq<Member>)
    requires members != [] && forall m | m in members :: WellFormed(m.value) && DoubleFree(m.value)
    ensures var r := ParseMembers(lib, PrintMembers(lib, members, true, "}" + post), depth, acc);
      if depth + 1 + MembersHeight(members) <= MAX_DEPTH then r == Ok(Obj(Collapse(acc + members)), post) else r.Err?
    decreases members, 1
  {
    var m, others := members[0], members[1..];
    MemberPrinted(lib, m, PrintMembers(lib, others, false, "}" + post), depth);
    SeparatorPrinted(PrintMembers(lib, others, true, "}" + post), '}', post, UnterminatedObject, ExpectedCommaOrBrace);
    if others == [] {
      assert members == [m] && MembersHeight(others) == 0;
    } else {
      MembersPrinted(lib, others, post, depth, acc + [m]);
      assert acc + [m] + others == acc + members;
    }
  }

  lemma {:induction false} CollapseAscending(members: Object)
    requires Ascending(members)
    ensures Collapse(members) == members
  {
    if members != [] {
      var front, last := members[..|members| - 1], members[|members| - 1];
      CollapseAscending(front);
      InsertLast(front, last.key, last.value);
      assert front + [last] == members;
    }
  }

  // --- What the parser produces --------------------------------------------------

  /** The last value read under a key. */
  function LastValue(read: seq<Member>, key: string): Option<Value> {
    if read == [] then None
    else
      var last := read[|read| - 1];
      if last.key == key then Some(last.value) else LastValue(read[..|read| - 1], key)
  }

  /** Duplicate keys collapse to the last one, and the result is a map. */
  lemma {:induction false} CollapseSpec(read: seq<Member>)
    ensures Ascending(Collapse(read))
    ensures forall k :: Find(Collapse(read), k) == LastValue(read, k)
    ensures forall m | m in Collapse(read) :: m in read
  {
    if read != [] {
      var front, last := read[..|read| - 1], read[|read| - 1];
      CollapseSpec(front);
      InsertSpec(Collapse(front), last.key, last.value);
      InsertMembers(Collapse(front), last.key, last.value);
      assert front + [last] == read;
    }
  }

  lemma {:induction false} InsertMembers(o: Object, key: string, value: Value)
    ensures forall m | m in InsertOrAssign(o, key, value) :: m in o || m == Member(key, value)
  {
    if o != [] && !Less(key, o[0].key) && o[0].key != key {
      InsertMembers(o[1..], key, value);
    }
  }

  /** A value no taller than `h` in which every object is a map. */
  ghost predicate Bounded(v: Value, h: int) {
    WellFormed(v) && Height(v) <= h
  }

  lemma {:induction false} ItemsBounded(items: seq<Value>, h: nat)
    requires forall x | x in items :: Bounded(x, h)
    ensures Bounded(Arr(items), h + 1) && ItemsHeight(items) <= h
  {
    if items != [] {
      assert items[0] in items && forall x | x in items[1..] :: x in items;
      ItemsBounded(items[1..], h);
    }
  }

  lemma {:induction false} MembersBounded(members: Object, h: nat)
    requires forall m | m in members :: Bounded(m.value, h)
    ensures MembersHeight(members) <= h
  {
    if members != [] {
      assert members[0] in members && forall m | m in members[1..] :: m in members;
      MembersBounded(members[1..], h);
    }
  }

  lemma {:induction false} ParsedBounded(lib: FloatLib, s: string, depth: nat)
    ensures var r := ParseValue(lib, s, depth); r.Ok? ==> depth <= MAX_DEPTH && Bounded(r.value, MAX_DEPTH - depth)
    decreases |s|, 0
  {
    var t := SkipWs(s);
    if depth <= MAX_DEPTH && t != "" {
      var u := SkipWs(t[1..]);
      if t[0] == '[' {
        ParsedItemsBounded(lib, u, depth, []);
      } else if t[0] == '{' {
        ParsedMembersBounded(lib, u, depth, []);
      }
    }
  }

  lemma {:induction false} ParsedItemsBounded(lib: FloatLib, s: string, depth: nat, acc: seq<Value>)
    requires depth <= MAX_DEPTH && forall x | x in acc :: Bounded(x, MAX_DEPTH - depth - 1)
    ensures var r := ParseItems(lib, s, depth, acc); r.Ok? ==> Bounded(r.value, MAX_DEPTH - depth)
    decreases |s|, 1
  {
    ParsedBounded(lib, s, depth + 1);
    var r := ParseValue(lib, s, depth + 1);
    if r.Ok? {
      var next := Separator(r.rest, ']', UnterminatedArray, ExpectedCommaOrBracket);
      if next.Ok? && next.value {
        ParsedItemsBounded(lib, next.rest, depth, acc + [r.value]);
      } else if next.Ok? {
        ItemsBounded(acc + [r.value], MAX_DEPTH - depth - 1);
      }
    }
  }

  lemma {:induction false} ParsedMembersBounded(lib: FloatLib, s: string, depth: nat, acc: seq<Member>)
    requires depth <= MAX_DEPTH && forall m | m in acc :: Bounded(m.value, MAX_DEPTH - depth - 1)
    ensures var r := ParseMembers(lib, s, depth, acc); r.Ok? ==> Bounded(r.value, MAX_DEPTH - depth)
    decreases |s|, 1
  {
    var r := ParseMember(lib, s, depth);
    if r.Ok? {
      ParsedBounded(lib, Key(s).rest, depth + 1);
      var read := acc + [r.value];
      var next := Separator(r.rest, '}', UnterminatedObject, ExpectedCommaOrBrace);
      if next.Ok? && next.value {
        ParsedMembersBounded(lib, next.rest, depth, read);
      } else if next.Ok? {
        CollapseSpec(read);
        MembersBounded(Collapse(read), MAX_DEPTH - depth - 1);
      }
    }
  }

  // --- The theorems ---------------------------------------------------------------

  /** Parsing inverts printing exactly on the values of height at most 32. */
  lemma RoundTrip(lib: FloatLib, v: Value)
    requires WellFormed(v) && DoubleFree(v)
    ensures Parse(lib, Text(lib, v)) == if Height(v) <= MAX_DEPTH then Some(v) else None
  {
    ValuePrinted(lib, v, "", 0);
  }

  /** Whatever text was accepted, its value is bounded and survives a second round trip. */
  lemma ParsePrintFixedPoint(lib: FloatLib, text: string)
    requires Parse(lib, text).Some? && DoubleFree(Parse(lib, text).value)
    ensures var v := Parse(lib, text).value;
      WellFormed(v) && Height(v) <= MAX_DEPTH && Parse(lib, Text(lib, v)) == Some(v)
  {
    ParsedBounded(lib, text, 0);
    RoundTrip(lib, Parse(lib, text).value);
  }
}
