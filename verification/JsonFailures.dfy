/** What a rejected text is told: the message and the place of every failure, from the first
    character that does not fit, and how a failure inside brackets is the failure of the whole. */
module JsonFailures {
  import opened Common
  import opened JsonValue
  import opened JsonPrinter
  import opened JsonGrammar
  import opened JsonUnicode
  import opened JsonRoundTrip
  import opened JsonTexts

  // --- Strings ------------------------------------------------------------------------

  predicate Hexes(s: string) {
    forall i | 0 <= i < |s| :: '0' <= s[i] <= '9' || 'a' <= s[i] <= 'f' || 'A' <= s[i] <= 'F'
  }

  /** What follows a `\u` and is not four hex digits, with its message. */
  predicate BadHex(h: string, message: Message, left: nat) {
    left == |h| && (
      || (|h| < 4 && message == TruncatedEscape)
      || (|h| >= 4 && !Hexes(h[..4]) && message == InvalidEscape))
  }

  predicate HighHex(h: string) {
    |h| >= 4 && Hexes(h[..4]) && h[0] in "dD" && h[1] in "89abAB"
  }

  predicate LowHex(h: string) {
    |h| >= 4 && Hexes(h[..4]) && h[0] in "dD" && h[1] in "cdefCDEF"
  }

  /** Half a pair at the start of `h`, and what is wrong with the other half. */
  predicate BadPair(h: string, message: Message, left: nat) {
    HighHex(h) && (
      || (!("\\u" <= h[4..]) && message == LoneHighSurrogate && left == |h| - 4)
      || ("\\u" <= h[4..] && (
            || BadHex(h[6..], message, left)
            || (|h| >= 10 && Hexes(h[6..10]) && !LowHex(h[6..]) && message == InvalidLowSurrogate
                && left == |h| - 10))))
  }

  /** Where the body of a string stops being one. */
  predicate BadPiece(bad: string, message: Message, left: nat) {
    || (bad == "" && message == UnterminatedString && left == 0)
    || (bad == "\\" && message == UnterminatedEscape && left == 0)
    || (|bad| >= 2 && bad[0] == '\\' && bad[1] !in "\"\\/bfnrtu" && message == UnknownEscape && left == |bad| - 2)
    || ("\\u" <= bad && (BadHex(bad[2..], message, left) || BadPair(bad[2..], message, left)))
  }

  lemma FourHexes(h: string)
    requires |h| == 4
    ensures Hexes(h) <==> IsHex4(h)
  {
    assert Hexes(h) <==> forall i | 0 <= i < 4 :: IsHex(h[i]);
  }

  lemma HexesLiteral(h: string)
    ensures |h| >= 4 ==> (Hexes(h[..4]) <==> IsHex4(h[..4]))
  {
    if |h| >= 4 { FourHexes(h[..4]); }
  }

  lemma HexFails(h: string, message: Message, left: nat)
    ensures Hex4(h) == Err(message, left) <==> BadHex(h, message, left)
  {
    HexesLiteral(h);
  }

  lemma FirstDigits(a: char, b: char)
    requires IsHex(a) && IsHex(b)
    ensures a in "dD" && b in "89abAB" <==> 0xD8 <= HexValue(a) * 16 + HexValue(b) <= 0xDB
    ensures a in "dD" && b in "cdefCDEF" <==> 0xDC <= HexValue(a) * 16 + HexValue(b) <= 0xDF
  {
  }

  lemma SurrogatesLiteral(h: string)
    requires |h| >= 4 && IsHex4(h[..4])
    ensures Hexes(h[..4]) && Hex4(h) == Ok(Hex4Value(h[..4]), h[4..])
    ensures HighHex(h) <==> IsHigh(Hex4Value(h[..4]))
    ensures LowHex(h) <==> IsLow(Hex4Value(h[..4]))
  {
    HexesLiteral(h);
    FirstDigits(h[0], h[1]);
    assert h == h[..4] + h[4..];
    Hex4Read(h[..4], h[4..]);
  }

  lemma SecondHalfFails(h: string, message: Message, left: nat)
    requires HighHex(h) && "\\u" <= h[4..]
    ensures Unicode(h) == Err(message, left) <==>
      || BadHex(h[6..], message, left)
      || (|h| >= 10 && Hexes(h[6..10]) && !LowHex(h[6..]) && message == InvalidLowSurrogate && left == |h| - 10)
  {
    HexesLiteral(h);
    SurrogatesLiteral(h);
    assert h[4..][2..] == h[6..];
    HexFails(h[6..], message, left);
    HexesLiteral(h[6..]);
    if |h| >= 10 {
      assert h[6..][..4] == h[6..10];
      if Hexes(h[6..10]) { SurrogatesLiteral(h[6..]); }
    }
  }

  lemma UnicodeFails(h: string, message: Message, left: nat)
    ensures Unicode(h) == Err(message, left) <==> BadHex(h, message, left) || BadPair(h, message, left)
  {
    HexFails(h, message, left);
    HexesLiteral(h);
    if |h| >= 4 && Hexes(h[..4]) {
      SurrogatesLiteral(h);
      if HighHex(h) && "\\u" <= h[4..] { SecondHalfFails(h, message, left); }
    }
  }

  lemma EscapeFails(s: string, acc: string, message: Message, left: nat)
    requires "\\u" <= s && Unicode(s[2..]).Err?
    ensures Chars(s, acc) == Err(message, left) <==> BadHex(s[2..], message, left) || BadPair(s[2..], message, left)
  {
    UnicodeFails(s[2..], message, left);
  }

  /** A string body fails at once exactly if it starts like this. */
  lemma BadPieceFails(s: string, acc: string, message: Message, left: nat)
    requires BadPiece(s, message, left)
    ensures Chars(s, acc) == Err(message, left)
  {
    if "\\u" <= s {
      UnicodeFails(s[2..], message, left);
      EscapeFails(s, acc, message, left);
    }
  }

  /** The first piece of a body that fails only later. */
  lemma GoodPiece(s: string, acc: string) returns (p: Piece, rest: string)
    requires Chars(s, acc).Err? && !BadPiece(s, Chars(s, acc).message, Chars(s, acc).left)
    ensures p.Valid() && s == p.Spelling() + rest && |rest| < |s|
    ensures Chars(s, acc) == Chars(rest, acc + p.Means())
  {
    var r := Chars(s, acc);
    if s[0] != '\\' {
      p, rest := Plain(s[0]), s[1..];
    } else if s[1] == 'u' {
      assert s == "\\u" + s[2..];
      if Unicode(s[2..]).Err? {
        EscapeFails(s, acc, r.message, r.left);
      }
      var e := UnicodeYields(s[2..]);
      p, rest := Long(e), Unicode(s[2..]).rest;
      Assoc("\\u", e.Spelling(), rest);
    } else {
      p, rest := Short(s[1]), s[2..];
      assert s == ['\\', s[1]] + rest;
    }
    PieceRead(p, rest, acc);
  }

  lemma {:induction false} BrokenBody(ps: seq<Piece>, bad: string, acc: string, message: Message, left: nat)
    requires PiecesValid(ps) && BadPiece(bad, message, left)
    ensures Chars(Spelled(ps, bad), acc) == Err(message, left)
  {
    if ps == [] {
      BadPieceFails(bad, acc, message, left);
    } else {
      PieceRead(ps[0], Spelled(ps[1..], bad), acc);
      BrokenBody(ps[1..], bad, acc + ps[0].Means(), message, left);
    }
  }

  lemma {:induction false} BreakFound(s: string, acc: string) returns (ps: seq<Piece>, bad: string)
    requires Chars(s, acc).Err?
    ensures var r := Chars(s, acc); PiecesValid(ps) && BadPiece(bad, r.message, r.left) && s == Spelled(ps, bad)
    decreases |s|
  {
    if BadPiece(s, Chars(s, acc).message, Chars(s, acc).left) {
      ps, bad := [], s;
    } else {
      var p, rest := GoodPiece(s, acc);
      ps, bad := BreakFound(rest, acc + p.Means());
      ps := [p] + ps;
      assert ps[1..] == ps[1..];
    }
  }

  ghost predicate BrokenString(s: string, message: Message, left: nat) {
    exists ps, bad :: PiecesValid(ps) && BadPiece(bad, message, left) && s == "\"" + Spelled(ps, bad)
  }

  /** A string fails exactly where its first bad escape stands, or at its missing end. */
  lemma StringFailsExactly(s: string, message: Message, left: nat)
    requires s != "" && s[0] == '"'
    ensures String(s) == Err(message, left) <==> BrokenString(s, message, left)
  {
    if String(s) == Err(message, left) {
      var ps, bad := BreakFound(s[1..], "");
      assert s == "\"" + s[1..];
    }
    if ps, bad :| PiecesValid(ps) && BadPiece(bad, message, left) && s == "\"" + Spelled(ps, bad) {
      BrokenBody(ps, bad, "", message, left);
      assert s[1..] == Spelled(ps, bad);
    }
  }

  // --- Values -------------------------------------------------------------------------

  /** A token that is the text of no number: no digits, out of range, or refused by `stod`. */
  ghost predicate Worthless(lib: FloatLib, token: string) {
    forall l | IsNumber(l) && Valid(lib, l) :: Written(l, "") != token
  }

  ghost predicate BadNumber(lib: FloatLib, t: string, token: string, rest: string) {
    t == token + rest && token != "" && Numeric(token) && Ended(rest) && Worthless(lib, token)
  }

  /** Where a value that is no bracket stops being one. */
  ghost predicate BadScalar(lib: FloatLib, t: string, message: Message, left: nat) {
    if t == "" then message == UnexpectedEnd && left == 0
    else if t[0] == 'n' then !("null" <= t) && message == UnexpectedToken && left == |t|
    else if t[0] == 't' then !("true" <= t) && message == UnexpectedToken && left == |t|
    else if t[0] == 'f' then !("false" <= t) && message == UnexpectedToken && left == |t|
    else if t[0] == '"' then BrokenString(t, message, left)
    else if t[0] !in "0123456789+-.eE" then message == ExpectedNumber && left == |t|
    else message == NumberOutOfRange && exists token, rest :: BadNumber(lib, t, token, rest) && left == |rest|
  }

  lemma WorthlessExactly(lib: FloatLib, token: string)
    requires token != "" && Numeric(token)
    ensures NumberValue(lib, token) == None <==> Worthless(lib, token)
  {
    assert token + "" == token;
    TokenRead(lib, token, "");
    if NumberValue(lib, token).Some? {
      var l := NumberFound(lib, token);
      assert Number(lib, token).rest == "";
    }
    if l :| IsNumber(l) && Valid(lib, l) && Written(l, "") == token {
      match l {
        case Whole(sign, zeros, n) => WholeRead(lib, sign, zeros, n, "");
        case Real(t) => RealRead(lib, t, "");
      }
    }
  }

  lemma BadNumberFails(lib: FloatLib, t: string, token: string, rest: string)
    requires BadNumber(lib, t, token, rest)
    ensures Number(lib, t) == Err(NumberOutOfRange, |rest|)
  {
    WorthlessExactly(lib, token);
    TokenRead(lib, token, rest);
  }

  lemma BadNumberFound(lib: FloatLib, t: string) returns (token: string, rest: string)
    requires t != "" && IsNumberChar(t[0]) && Number(lib, t).Err?
    ensures BadNumber(lib, t, token, rest) && Number(lib, t) == Err(NumberOutOfRange, |rest|)
  {
    TokenIsSpan(t);
    SpanTaken(t);
    token, rest := t[..Span(t)], t[Span(t)..];
    assert t == token + rest;
    WorthlessExactly(lib, token);
  }

  lemma NumberFailsExactly(lib: FloatLib, t: string, message: Message, left: nat)
    requires t != "" && t[0] in "0123456789+-.eE"
    ensures Number(lib, t) == Err(message, left) <==>
      message == NumberOutOfRange && exists token, rest :: BadNumber(lib, t, token, rest) && left == |rest|
  {
    if token, rest :| BadNumber(lib, t, token, rest) && left == |rest| {
      BadNumberFails(lib, t, token, rest);
    }
    if Number(lib, t) == Err(message, left) {
      NumberChars(t[0]);
      var token, rest := BadNumberFound(lib, t);
    }
  }

  lemma NoNumber(lib: FloatLib, t: string)
    requires t != "" && t[0] !in "0123456789+-.eE"
    ensures Number(lib, t) == Err(ExpectedNumber, |t|)
  {
    NumberChars(t[0]);
    TokenIsSpan(t);
  }

  lemma ScalarDispatch(lib: FloatLib, s: string, depth: nat)
    requires depth <= 32
    ensures var t := SkipWs(s); t != "" ==> (
      if t[0] == 'n' then ParseValue(lib, s, depth) == Literal(t, "null", Null)
      else if t[0] == 't' then ParseValue(lib, s, depth) == Literal(t, "true", Bool(true))
      else if t[0] == 'f' then ParseValue(lib, s, depth) == Literal(t, "false", Bool(false))
      else if t[0] == '"' then ParseValue(lib, s, depth).Err? == String(t).Err?
      else t[0] != '[' && t[0] != '{' ==> ParseValue(lib, s, depth) == Number(lib, t))
    ensures var t := SkipWs(s); t != "" && t[0] == '"' && String(t).Err? ==>
      ParseValue(lib, s, depth) == Err(String(t).message, String(t).left)
  {
  }

  /** A value that does not start with a bracket fails exactly like this, behind any white space. */
  lemma ScalarFailsExactly(lib: FloatLib, s: string, depth: nat, message: Message, left: nat)
    requires depth <= 32
    requires var t := SkipWs(s); t == "" || (t[0] != '[' && t[0] != '{')
    ensures ParseValue(lib, s, depth) == Err(message, left) <==> BadScalar(lib, SkipWs(s), message, left)
  {
    var t := SkipWs(s);
    if t != "" {
      ScalarDispatch(lib, s, depth);
      if t[0] == '"' {
        StringFailsExactly(t, message, left);
      } else if t[0] in "0123456789+-.eE" {
        NumberFailsExactly(lib, t, message, left);
      } else if t[0] !in "ntf" {
        NoNumber(lib, t);
      }
    }
  }

  /** Deeper than 32 brackets nothing is looked at. */
  lemma TooDeep(lib: FloatLib, s: string, depth: nat)
    requires depth > 32
    ensures ParseValue(lib, s, depth) == Err(NestingTooDeep, |s|)
  {
  }

  // --- Brackets -----------------------------------------------------------------------

  /** The text of the items before the current one, each with its comma. */
  function Before(items: seq<Slot>, post: string): string {
    if items == [] then post else SlotWritten(items[0], "," + Before(items[1..], post))
  }

  function BeforeEntries(entries: seq<Entry>, post: string): string {
    if entries == [] then post else EntryWritten(entries[0], "," + BeforeEntries(entries[1..], post))
  }

  lemma {:induction false} PassesItems(lib: FloatLib, items: seq<Slot>, post: string, depth: nat, acc: seq<Value>)
    requires ItemsValid(lib, items) && depth + ItemsDepth(items) <= 32
    ensures ParseItems(lib, Before(items, post), depth, acc)
         == ParseItems(lib, post, depth, acc + ItemsMean(lib, items))
    decreases items
  {
    if items == [] {
      assert acc + [] == acc;
    } else {
      var slot, rest := items[0], Before(items[1..], post);
      assert SlotValid(lib, slot);
      AfterItem(slot.after, rest, ']', post, UnterminatedArray, ExpectedCommaOrBracket);
      SlotRead(lib, slot, Before(items, post), "," + rest, depth + 1);
      PassesItems(lib, items[1..], post, depth, acc + [Means(lib, slot.layout)]);
      Flatten(acc, Means(lib, slot.layout), ItemsMean(lib, items[1..]));
    }
  }

  lemma {:induction false} PassesEntries(lib: FloatLib, entries: seq<Entry>, post: string, depth: nat,
                                         acc: seq<Member>)
    requires EntriesValid(lib, entries) && depth + EntriesDepth(entries) <= 32
    ensures ParseMembers(lib, BeforeEntries(entries, post), depth, acc)
         == ParseMembers(lib, post, depth, acc + EntriesMean(lib, entries))
    decreases entries
  {
    if entries == [] {
      assert acc + [] == acc;
    } else {
      var e, rest := entries[0], BeforeEntries(entries[1..], post);
      assert EntryValid(lib, e) && SlotValid(lib, e.slot);
      AfterItem(e.slot.after, rest, '}', post, UnterminatedObject, ExpectedCommaOrBrace);
      EntryRead(lib, e, BeforeEntries(entries, post), "," + rest, depth);
      PassesEntries(lib, entries[1..], post, depth, acc + [EntryMeans(lib, e)]);
      Flatten(acc, EntryMeans(lib, e), EntriesMean(lib, entries[1..]));
    }
  }

  lemma ItemsBlank(lib: FloatLib, s: string, t: string, depth: nat, acc: seq<Value>)
    requires depth < 32 && SkipWs(s) == SkipWs(t)
    ensures ParseItems(lib, s, depth, acc) == ParseItems(lib, t, depth, acc)
  {
    OnlySkippedMatters(lib, s, t, depth + 1);
  }

  lemma BeforeStart(lib: FloatLib, items: seq<Slot>, post: string)
    requires ItemsValid(lib, items)
    requires items != [] || SkipWs(post) == "" || SkipWs(post)[0] != ']'
    ensures var t := SkipWs(Before(items, post)); t == "" || t[0] != ']'
  {
    if items != [] {
      var slot := items[0];
      assert SlotValid(lib, slot);
      var tail := "," + Before(items[1..], post);
      BlankSkipped(slot.before, Written(slot.layout, slot.after + tail));
      LayoutStart(lib, slot.layout, slot.after + tail);
    }
  }

  /** In a list, after any valid items and their commas, the rest decides. */
  lemma InsideList(lib: FloatLib, blank: string, items: seq<Slot>, post: string, depth: nat)
    requires Blank(blank) && ItemsValid(lib, items) && depth + ItemsDepth(items) <= 32 && depth < 32
    requires items != [] || SkipWs(post) == "" || SkipWs(post)[0] != ']'
    ensures ParseValue(lib, "[" + (blank + Before(items, post)), depth)
         == ParseItems(lib, post, depth, ItemsMean(lib, items))
  {
    var body := Before(items, post);
    BracketDispatch(lib, blank + body, depth);
    BlankSkipped(blank, body);
    BeforeStart(lib, items, post);
    SkipTwice(body);
    ItemsBlank(lib, SkipWs(body), body, depth, []);
    PassesItems(lib, items, post, depth, []);
    assert [] + ItemsMean(lib, items) == ItemsMean(lib, items);
  }

  /** The failure of an item is the failure of the list. */
  lemma ItemFails(lib: FloatLib, blank: string, items: seq<Slot>, post: string, depth: nat)
    requires Blank(blank) && ItemsValid(lib, items) && depth + ItemsDepth(items) <= 32 && depth < 32
    requires items != [] || SkipWs(post) == "" || SkipWs(post)[0] != ']'
    requires ParseValue(lib, post, depth + 1).Err?
    ensures var r := ParseValue(lib, post, depth + 1);
      ParseValue(lib, "[" + (blank + Before(items, post)), depth) == Err(r.message, r.left)
  {
    InsideList(lib, blank, items, post, depth);
  }

  /** After an item there has to be a comma or the bracket: this is no separator. */
  predicate NoSeparator(bad: string, close: char) {
    bad == "" || bad[0] !in [' ', '\t', '\n', '\r', ',', close]
  }

  lemma SeparatorFails(after: string, bad: string, close: char, missing: Message, wrong: Message)
    requires Blank(after) && NoSeparator(bad, close)
    ensures Separator(after + bad, close, missing, wrong) == if bad == "" then Err(missing, 0) else Err(wrong, |bad|)
  {
    BlankSkipped(after, bad);
  }

  /** A list that goes on wrongly after an item. */
  lemma ListBreaks(lib: FloatLib, blank: string, items: seq<Slot>, slot: Slot, bad: string, depth: nat)
    requires Blank(blank) && ItemsValid(lib, items) && depth + ItemsDepth(items) <= 32
    requires SlotValid(lib, slot) && depth + 1 + Depth(slot.layout) <= 32 && Apart(slot, bad)
    requires NoSeparator(bad, ']')
    ensures ParseValue(lib, "[" + (blank + Before(items, SlotWritten(slot, bad))), depth)
         == if bad == "" then Err(UnterminatedArray, 0) else Err(ExpectedCommaOrBracket, |bad|)
  {
    var post := SlotWritten(slot, bad);
    BlankSkipped(slot.before, Written(slot.layout, slot.after + bad));
    LayoutStart(lib, slot.layout, slot.after + bad);
    InsideList(lib, blank, items, post, depth);
    ApartEnds(slot, bad);
    SlotRead(lib, slot, post, bad, depth + 1);
    SeparatorFails(slot.after, bad, ']', UnterminatedArray, ExpectedCommaOrBracket);
  }

  lemma MembersBlank(lib: FloatLib, s: string, t: string, depth: nat, acc: seq<Member>)
    requires SkipWs(s) == SkipWs(t)
    ensures ParseMembers(lib, s, depth, acc) == ParseMembers(lib, t, depth, acc)
  {
  }

  lemma BeforeEntriesStart(lib: FloatLib, entries: seq<Entry>, post: string)
    requires EntriesValid(lib, entries)
    requires entries != [] || SkipWs(post) == "" || SkipWs(post)[0] != '}'
    ensures var t := SkipWs(BeforeEntries(entries, post)); t == "" || t[0] != '}'
  {
    if entries != [] {
      assert EntryValid(lib, entries[0]);
      EntryStart(entries[0], "," + BeforeEntries(entries[1..], post));
    }
  }

  /** In an object, after any valid members and their commas, the rest decides. */
  lemma InsideRecord(lib: FloatLib, blank: string, entries: seq<Entry>, post: string, depth: nat)
    requires Blank(blank) && EntriesValid(lib, entries) && depth + EntriesDepth(entries) <= 32
    requires entries != [] || SkipWs(post) == "" || SkipWs(post)[0] != '}'
    ensures ParseValue(lib, "{" + (blank + BeforeEntries(entries, post)), depth)
         == ParseMembers(lib, post, depth, EntriesMean(lib, entries))
  {
    var body := BeforeEntries(entries, post);
    BracketDispatch(lib, blank + body, depth);
    BlankSkipped(blank, body);
    BeforeEntriesStart(lib, entries, post);
    SkipTwice(body);
    MembersBlank(lib, SkipWs(body), body, depth, []);
    PassesEntries(lib, entries, post, depth, []);
    assert [] + EntriesMean(lib, entries) == EntriesMean(lib, entries);
  }

  /** What stands where a key has to be. */
  predicate NoKey(bad: string) {
    bad == "" || bad[0] !in [' ', '\t', '\n', '\r', '"']
  }

  /** A member without a key: the object fails there, and so it does on a broken key. */
  lemma KeyFails(lib: FloatLib, blank: string, entries: seq<Entry>, before: string, bad: string, depth: nat)
    requires Blank(blank) && EntriesValid(lib, entries) && depth + EntriesDepth(entries) <= 32 && Blank(before)
    requires entries != [] || bad == "" || bad[0] != '}'
    ensures NoKey(bad) ==>
      ParseValue(lib, "{" + (blank + BeforeEntries(entries, before + bad)), depth) == Err(ExpectedString, |bad|)
    ensures forall message, left | BrokenString(bad, message, left) ::
      ParseValue(lib, "{" + (blank + BeforeEntries(entries, before + bad)), depth) == Err(message, left)
  {
    BlankSkipped(before, bad);
    if NoKey(bad) {
      InsideRecord(lib, blank, entries, before + bad, depth);
    }
    forall message, left | BrokenString(bad, message, left)
      ensures ParseValue(lib, "{" + (blank + BeforeEntries(entries, before + bad)), depth) == Err(message, left)
    {
      StringFailsExactly(bad, message, left);
      InsideRecord(lib, blank, entries, before + bad, depth);
    }
  }

  /** A key and what follows it. */
  function KeyWritten(before: string, key: seq<Piece>, middle: string, post: string): string {
    before + ("\"" + Spelled(key, "\"" + (middle + post)))
  }

  lemma KeyThen(before: string, key: seq<Piece>, middle: string, post: string)
    requires Blank(before) && PiecesValid(key) && Blank(middle)
    ensures var s := KeyWritten(before, key, middle, post);
      && SkipWs(s) != "" && SkipWs(s)[0] == '"'
      && String(SkipWs(s)) == Ok(PiecesMean(key), middle + post) && SkipWs(middle + post) == SkipWs(post)
  {
    BlankSkipped(before, "\"" + Spelled(key, "\"" + (middle + post)));
    NoSpace('"', Spelled(key, "\"" + (middle + post)));
    TextRead(key, middle + post);
    BlankSkipped(middle, post);
  }

  /** A key without its colon. */
  lemma ColonFails(lib: FloatLib, blank: string, entries: seq<Entry>, before: string, key: seq<Piece>, middle: string,
                   bad: string, depth: nat)
    requires Blank(blank) && EntriesValid(lib, entries) && depth + EntriesDepth(entries) <= 32
    requires Blank(before) && PiecesValid(key) && Blank(middle)
    requires bad == "" || bad[0] !in [' ', '\t', '\n', '\r', ':']
    ensures ParseValue(lib, "{" + (blank + BeforeEntries(entries, KeyWritten(before, key, middle, bad))), depth)
         == Err(ExpectedColon, |bad|)
  {
    KeyThen(before, key, middle, bad);
    InsideRecord(lib, blank, entries, KeyWritten(before, key, middle, bad), depth);
  }

  /** The failure of a member's value is the failure of the object. */
  lemma MemberFails(lib: FloatLib, blank: string, entries: seq<Entry>, before: string, key: seq<Piece>,
                    middle: string, post: string, depth: nat)
    requires Blank(blank) && EntriesValid(lib, entries) && depth + EntriesDepth(entries) <= 32
    requires Blank(before) && PiecesValid(key) && Blank(middle)
    requires ParseValue(lib, post, depth + 1).Err?
    ensures var r := ParseValue(lib, post, depth + 1);
      ParseValue(lib, "{" + (blank + BeforeEntries(entries, KeyWritten(before, key, middle, ":" + post))), depth)
        == Err(r.message, r.left)
  {
    KeyThen(before, key, middle, ":" + post);
    NoSpace(':', post);
    InsideRecord(lib, blank, entries, KeyWritten(before, key, middle, ":" + post), depth);
  }

  /** An object that goes on wrongly after a member. */
  lemma RecordBreaks(lib: FloatLib, blank: string, entries: seq<Entry>, e: Entry, bad: string, depth: nat)
    requires Blank(blank) && EntriesValid(lib, entries) && depth + EntriesDepth(entries) <= 32
    requires EntryValid(lib, e) && depth + 1 + Depth(e.slot.layout) <= 32 && Apart(e.slot, bad)
    requires NoSeparator(bad, '}')
    ensures ParseValue(lib, "{" + (blank + BeforeEntries(entries, EntryWritten(e, bad))), depth)
         == if bad == "" then Err(UnterminatedObject, 0) else Err(ExpectedCommaOrBrace, |bad|)
  {
    assert SlotValid(lib, e.slot);
    EntryStart(e, bad);
    InsideRecord(lib, blank, entries, EntryWritten(e, bad), depth);
    ApartEnds(e.slot, bad);
    KeyRead(e, EntryWritten(e, bad), bad);
    SlotRead(lib, e.slot, SlotWritten(e.slot, bad), bad, depth + 1);
    SeparatorFails(e.slot.after, bad, '}', UnterminatedObject, ExpectedCommaOrBrace);
  }

  // --- What follows a value -----------------------------------------------------------

  lemma NumberAppends(lib: FloatLib, l: Layout, post: string)
    requires IsNumber(l) && Valid(lib, l)
    ensures Written(l, post) == Written(l, "") + post && Numeric(Written(l, ""))
  {
    match l {
      case Whole(sign, zeros, n) =>
        var digits := Zeros(zeros) + Digits(n);
        ZerosRead(zeros, n);
        SignedDigits(sign, digits);
        assert Written(l, "") == sign + digits by {
          assert Digits(n) + "" == Digits(n);
        }
        Assoc(Zeros(zeros), Digits(n), post);
        Assoc(sign, digits, post);
      case Real(token) => assert token + "" == token;
    }
  }

  /** A token at the start of a text is what the text is, if only white space follows. */
  lemma TokenAlone(lib: FloatLib, before: string, token: string, rest: string)
    requires Blank(before) && token != "" && Numeric(token) && Ended(rest)
    ensures Parse(lib, before + (token + rest)) == None <==> !Blank(rest) || Worthless(lib, token)
  {
    BlankSkipped(before, token + rest);
    assert (token + rest)[0] == token[0];
    NumericDispatch(lib, token + rest, 0);
    OnlySkippedMatters(lib, before + (token + rest), token + rest, 0);
    TokenRead(lib, token, rest);
    WorthlessExactly(lib, token);
    BlankExactly(rest);
  }

  lemma NumericJoined(a: string, b: string)
    requires Numeric(a) && Numeric(b)
    ensures Numeric(a + b)
  {
    forall i | 0 <= i < |a + b| ensures (a + b)[i] in "0123456789+-.eE" {
      assert (a + b)[i] == if i < |a| then a[i] else b[i - |a|];
    }
  }

  /** Behind a value, anything but white space gives nothing; but what continues a number makes
      another number, and then it gives nothing exactly if that is none or more follows. */
  lemma NumberContinued(lib: FloatLib, doc: Slot, more: string, rest: string)
    requires SlotValid(lib, doc) && IsNumber(doc.layout) && doc.after == ""
    requires more != "" && Numeric(more) && Ended(rest)
    ensures Parse(lib, SlotWritten(doc, more + rest)) == None <==>
      !Blank(rest) || Worthless(lib, Written(doc.layout, "") + more)
  {
    var written := Written(doc.layout, "");
    NumberAppends(lib, doc.layout, more + rest);
    NumericJoined(written, more);
    assert doc.after + (more + rest) == more + rest;
    Assoc(written, more, rest);
    TokenAlone(lib, doc.before, written + more, rest);
  }
}
