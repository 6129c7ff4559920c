/** The accepted texts without the parser: a document is a value laid out with white space around
    its tokens, every token in any of its spellings. The parser accepts these and nothing else. */
module JsonTexts {
  import opened Common
  import opened JsonValue
  import opened JsonPrinter
  import opened JsonGrammar
  import opened JsonUnicode
  import opened JsonRoundTrip

  // --- Layouts --------------------------------------------------------------------

  /** One unit of a string: a character as it is, a two-character escape, or a `\u` escape. */
  datatype Piece = Plain(c: char) | Short(letter: char) | Long(escaped: Escaped) {
    predicate Valid() {
      match this
      case Plain(c) => c != '"' && c != '\\'
      case Short(letter) => letter in "\"\\/bfnrt"
      case Long(e) => e.Accepted()
    }

    function Spelling(): string {
      match this
      case Plain(c) => [c]
      case Short(letter) => ['\\', letter]
      case Long(e) => "\\u" + e.Spelling()
    }

    function Means(): string
      requires Valid()
    {
      match this
      case Plain(c) => [c]
      case Short('b') => "\U{08}"
      case Short('f') => "\U{0C}"
      case Short('n') => "\n"
      case Short('r') => "\r"
      case Short('t') => "\t"
      case Short(letter) => [letter]
      case Long(e) => Utf8(e.Denotes())
    }
  }

  /** A value as written. White space may stand after `[` and `{`, and around every item, key
      and value. */
  datatype Layout =
    | NullWord
    | BoolWord(b: bool)
    | Whole(sign: string, zeros: nat, n: nat)
    | Real(token: string)
    | Quote(pieces: seq<Piece>)
    | List(blank: string, items: seq<Slot>)
    | Record(blank: string, entries: seq<Entry>)

  datatype Slot = Slot(before: string, layout: Layout, after: string)

  datatype Entry = Entry(before: string, key: seq<Piece>, middle: string, slot: Slot)

  predicate Blank(s: string) {
    forall i | 0 <= i < |s| :: s[i] == ' ' || s[i] == '\t' || s[i] == '\n' || s[i] == '\r'
  }

  predicate Numeric(s: string) {
    forall i | 0 <= i < |s| :: s[i] in "0123456789+-.eE"
  }

  /** An optional sign and then only digits. */
  predicate OnlyDigits(s: string) {
    forall i | 0 <= i < |s| :: s[i] in "0123456789" || (i == 0 && s[0] in "+-")
  }

  function Signed(sign: string, n: nat): int {
    if sign == "-" then 0 - n else n
  }

  function Zeros(k: nat): string {
    if k == 0 then "" else "0" + Zeros(k - 1)
  }

  predicate PiecesValid(ps: seq<Piece>) {
    forall i | 0 <= i < |ps| :: ps[i].Valid()
  }

  predicate Valid(lib: FloatLib, l: Layout)
    decreases l
  {
    match l
    case NullWord => true
    case BoolWord(_) => true
    case Whole(sign, zeros, n) =>
      (sign == "" || sign == "+" || sign == "-")
      && -9223372036854775808 <= Signed(sign, n) <= 9223372036854775807
    case Real(token) => token != "" && Numeric(token) && !OnlyDigits(token) && lib.stod(token).Some?
    case Quote(pieces) => PiecesValid(pieces)
    case List(blank, items) => Blank(blank) && ItemsValid(lib, items)
    case Record(blank, entries) => Blank(blank) && EntriesValid(lib, entries)
  }

  predicate SlotValid(lib: FloatLib, slot: Slot)
    decreases slot
  {
    Blank(slot.before) && Valid(lib, slot.layout) && Blank(slot.after)
  }

  predicate ItemsValid(lib: FloatLib, items: seq<Slot>)
    decreases items
  {
    items == [] || (SlotValid(lib, items[0]) && ItemsValid(lib, items[1..]))
  }

  predicate EntryValid(lib: FloatLib, e: Entry)
    decreases e
  {
    Blank(e.before) && PiecesValid(e.key) && Blank(e.middle) && SlotValid(lib, e.slot)
  }

  predicate EntriesValid(lib: FloatLib, entries: seq<Entry>)
    decreases entries
  {
    entries == [] || (EntryValid(lib, entries[0]) && EntriesValid(lib, entries[1..]))
  }

  // --- What is written ------------------------------------------------------------

  function Spelled(ps: seq<Piece>, post: string): string {
    if ps == [] then post else ps[0].Spelling() + Spelled(ps[1..], post)
  }

  function Written(l: Layout, post: string): string
    decreases l
  {
    match l
    case NullWord => "null" + post
    case BoolWord(b) => (if b then "true" else "false") + post
    case Whole(sign, zeros, n) => sign + (Zeros(zeros) + (Digits(n) + post))
    case Real(token) => token + post
    case Quote(pieces) => "\"" + Spelled(pieces, "\"" + post)
    case List(blank, items) => "[" + (blank + ItemsWritten(items, "]" + post))
    case Record(blank, entries) => "{" + (blank + EntriesWritten(entries, "}" + post))
  }

  function SlotWritten(slot: Slot, post: string): string
    decreases slot
  {
    slot.before + Written(slot.layout, slot.after + post)
  }

  function ItemsWritten(items: seq<Slot>, post: string): string
    decreases items
  {
    if items == [] then post
    else SlotWritten(items[0], if |items| == 1 then post else "," + ItemsWritten(items[1..], post))
  }

  function EntryWritten(e: Entry, post: string): string
    decreases e
  {
    e.before + ("\"" + Spelled(e.key, "\"" + (e.middle + (":" + SlotWritten(e.slot, post)))))
  }

  function EntriesWritten(entries: seq<Entry>, post: string): string
    decreases entries
  {
    if entries == [] then post
    else EntryWritten(entries[0], if |entries| == 1 then post else "," + EntriesWritten(entries[1..], post))
  }

  // --- What it means --------------------------------------------------------------

  function PiecesMean(ps: seq<Piece>): string
    requires PiecesValid(ps)
  {
    if ps == [] then "" else ps[0].Means() + PiecesMean(ps[1..])
  }

  function Means(lib: FloatLib, l: Layout): Value
    requires Valid(lib, l)
    decreases l
  {
    match l
    case NullWord => Null
    case BoolWord(b) => Bool(b)
    case Whole(sign, zeros, n) => Int(Signed(sign, n))
    case Real(token) => Double(lib.stod(token).value)
    case Quote(pieces) => Str(PiecesMean(pieces))
    case List(blank, items) => Arr(ItemsMean(lib, items))
    case Record(blank, entries) => Obj(Collapse(EntriesMean(lib, entries)))
  }

  function ItemsMean(lib: FloatLib, items: seq<Slot>): seq<Value>
    requires ItemsValid(lib, items)
    decreases items
  {
    if items == [] then []
    else
      assert SlotValid(lib, items[0]);
      [Means(lib, items[0].layout)] + ItemsMean(lib, items[1..])
  }

  function EntryMeans(lib: FloatLib, e: Entry): Member
    requires EntryValid(lib, e)
    decreases e
  {
    assert SlotValid(lib, e.slot);
    Member(PiecesMean(e.key), Means(lib, e.slot.layout))
  }

  function EntriesMean(lib: FloatLib, entries: seq<Entry>): seq<Member>
    requires EntriesValid(lib, entries)
    decreases entries
  {
    if entries == [] then [] else [EntryMeans(lib, entries[0])] + EntriesMean(lib, entries[1..])
  }

  /** How many brackets deep the innermost value is that is not the first of the text. */
  function Depth(l: Layout): nat
    decreases l
  {
    match l
    case List(_, items) => ItemsDepth(items)
    case Record(_, entries) => EntriesDepth(entries)
    case _ => 0
  }

  function ItemsDepth(items: seq<Slot>): nat
    decreases items
  {
    if items == [] then 0 else Max(1 + Depth(items[0].layout), ItemsDepth(items[1..]))
  }

  function EntriesDepth(entries: seq<Entry>): nat
    decreases entries
  {
    if entries == [] then 0 else Max(1 + Depth(entries[0].slot.layout), EntriesDepth(entries[1..]))
  }

  // --- White space ----------------------------------------------------------------

  lemma {:induction false} BlankSkipped(blank: string, rest: string)
    requires Blank(blank)
    ensures SkipWs(blank + rest) == SkipWs(rest)
  {
    if blank == "" {
      assert blank + rest == rest;
    } else {
      assert (blank + rest)[1..] == blank[1..] + rest;
      BlankSkipped(blank[1..], rest);
    }
  }

  lemma {:induction false} SkippedBlank(s: string) returns (blank: string)
    ensures Blank(blank) && s == blank + SkipWs(s)
  {
    if s != "" && IsSpace(s[0]) {
      blank := SkippedBlank(s[1..]);
      Assoc([s[0]], blank, SkipWs(s[1..]));
      blank := [s[0]] + blank;
    } else {
      blank := "";
      assert "" + s == s;
    }
  }

  lemma BlankExactly(s: string)
    ensures SkipWs(s) == "" <==> Blank(s)
  {
    if Blank(s) {
      BlankSkipped(s, "");
      assert s + "" == s;
    }
    var blank := SkippedBlank(s);
    if SkipWs(s) == "" {
      assert s == blank;
    }
  }

  lemma SkipTwice(s: string)
    ensures SkipWs(SkipWs(s)) == SkipWs(s)
  {
  }

  // --- Strings --------------------------------------------------------------------

  lemma ShortRead(letter: char, rest: string, acc: string)
    requires Short(letter).Valid()
    ensures Chars(['\\', letter] + rest, acc) == Chars(rest, acc + Short(letter).Means())
  {
    assert (['\\', letter] + rest)[2..] == rest;
    assert SimpleEscape(letter).Some? && [SimpleEscape(letter).value] == Short(letter).Means();
  }

  lemma LongRead(e: Escaped, rest: string, acc: string)
    requires e.Accepted()
    ensures Chars("\\u" + e.Spelling() + rest, acc) == Chars(rest, acc + Utf8(e.Denotes()))
  {
    var tail := e.Spelling() + rest;
    Assoc("\\u", e.Spelling(), rest);
    assert ("\\u" + tail)[2..] == tail;
    EscapeRead(e, rest);
  }

  lemma PieceRead(p: Piece, rest: string, acc: string)
    requires p.Valid()
    ensures Chars(p.Spelling() + rest, acc) == Chars(rest, acc + p.Means())
  {
    match p {
      case Plain(c) => assert ([c] + rest)[1..] == rest;
      case Short(letter) => ShortRead(letter, rest, acc);
      case Long(e) => LongRead(e, rest, acc);
    }
  }

  lemma {:induction false} PiecesRead(ps: seq<Piece>, post: string, acc: string)
    requires PiecesValid(ps)
    ensures Chars(Spelled(ps, "\"" + post), acc) == Ok(acc + PiecesMean(ps), post)
  {
    if ps == [] {
      CharsEnd(post, acc);
      assert acc + "" == acc;
    } else {
      PieceRead(ps[0], Spelled(ps[1..], "\"" + post), acc);
      PiecesRead(ps[1..], post, acc + ps[0].Means());
      Assoc(acc, ps[0].Means(), PiecesMean(ps[1..]));
    }
  }

  lemma TextRead(ps: seq<Piece>, post: string)
    requires PiecesValid(ps)
    ensures String("\"" + Spelled(ps, "\"" + post)) == Ok(PiecesMean(ps), post)
  {
    NoSpace('"', Spelled(ps, "\"" + post));
    PiecesRead(ps, post, "");
    assert "" + PiecesMean(ps) == PiecesMean(ps);
  }

  /** The first piece of an accepted string body that does not end at once. */
  lemma FirstPiece(s: string, acc: string) returns (p: Piece, rest: string)
    requires Chars(s, acc).Ok? && s != "" && s[0] != '"'
    ensures p.Valid() && s == p.Spelling() + rest && |rest| < |s|
    ensures Chars(s, acc) == Chars(rest, acc + p.Means())
  {
    if s[0] != '\\' {
      p, rest := Plain(s[0]), s[1..];
    } else if s[1] == 'u' {
      var e := UnicodeYields(s[2..]);
      p, rest := Long(e), Unicode(s[2..]).rest;
      Assoc("\\u", e.Spelling(), rest);
      assert s == "\\u" + s[2..];
    } else {
      p, rest := Short(s[1]), s[2..];
      assert s == ['\\', s[1]] + rest;
    }
    PieceRead(p, rest, acc);
  }

  lemma {:induction false} PiecesFound(s: string, acc: string) returns (ps: seq<Piece>)
    requires Chars(s, acc).Ok?
    ensures PiecesValid(ps) && s == Spelled(ps, "\"" + Chars(s, acc).rest)
    ensures Chars(s, acc).value == acc + PiecesMean(ps)
    decreases |s|
  {
    if s[0] == '"' {
      ps := [];
      assert acc + "" == acc && s == "\"" + s[1..];
    } else {
      var p, rest := FirstPiece(s, acc);
      var others := PiecesFound(rest, acc + p.Means());
      ps := [p] + others;
      Assoc(acc, p.Means(), PiecesMean(others));
      assert ps[1..] == others;
    }
  }

  lemma TextFound(s: string) returns (ps: seq<Piece>)
    requires String(s).Ok?
    ensures PiecesValid(ps) && PiecesMean(ps) == String(s).value
    ensures s == "\"" + Spelled(ps, "\"" + String(s).rest)
  {
    ps := PiecesFound(s[1..], "");
    assert "" + PiecesMean(ps) == PiecesMean(ps);
    assert s == "\"" + s[1..];
  }

  // --- Numbers --------------------------------------------------------------------

  predicate IsNumber(l: Layout) {
    l.Whole? || l.Real?
  }

  /** A number may end here. */
  predicate Ended(post: string) {
    post == "" || post[0] !in "0123456789+-.eE"
  }

  lemma {:induction false} SpanNumeric(token: string, post: string)
    requires Numeric(token) && Ended(post)
    ensures Span(token + post) == |token|
  {
    if token == "" {
      assert token + post == post;
    } else {
      assert (token + post)[1..] == token[1..] + post;
      SpanNumeric(token[1..], post);
    }
  }

  lemma TokenIsSpan(s: string)
    ensures TokenLength(s) == Span(s)
  {
  }

  lemma NumberChars(c: char)
    ensures c in "0123456789+-.eE" <==> IsNumberChar(c)
  {
  }

  lemma {:induction false} SpanChars(s: string)
    ensures forall i | 0 <= i < Span(s) :: IsNumberChar(s[i])
    ensures Span(s) < |s| ==> !IsNumberChar(s[Span(s)])
  {
    if s != "" && IsNumberChar(s[0]) {
      SpanChars(s[1..]);
      forall i | 0 <= i < Span(s) ensures IsNumberChar(s[i]) {
        if i > 0 { assert s[i] == s[1..][i - 1]; }
      }
    }
  }

  lemma SpanTaken(s: string)
    ensures Numeric(s[..Span(s)]) && Ended(s[Span(s)..])
  {
    SpanChars(s);
    forall i | 0 <= i < Span(s) ensures s[..Span(s)][i] in "0123456789+-.eE" { NumberChars(s[i]); }
    if Span(s) < |s| { NumberChars(s[Span(s)]); }
  }

  lemma TokenRead(lib: FloatLib, token: string, post: string)
    requires token != "" && Numeric(token) && Ended(post)
    ensures Number(lib, token + post)
         == match NumberValue(lib, token) case Some(v) => Ok(v, post) case None => Err(NumberOutOfRange, |post|)
  {
    SpanNumeric(token, post);
    TokenIsSpan(token + post);
    assert (token + post)[..|token|] == token && (token + post)[|token|..] == post;
  }

  lemma IntegerExactly(token: string)
    ensures IsInteger(token) <==> OnlyDigits(token)
  {
    var n := SignLength(token);
    assert forall i | n <= i < |token| :: token[n..][i - n] == token[i];
    if OnlyDigits(token) {
      assert forall i | n <= i < |token| :: token[i] in "0123456789" || i == 0;
    }
  }

  lemma {:induction false} ZerosRead(zeros: nat, n: nat)
    ensures var s := Zeros(zeros) + Digits(n); s != "" && AllDigits(s) && DigitsValue(s) == n
  {
    DigitsRead(n);
    if zeros == 0 {
      assert "" + Digits(n) == Digits(n);
    } else {
      ZerosRead(zeros - 1, n);
      Assoc("0", Zeros(zeros - 1), Digits(n));
      LeadingZero(Zeros(zeros - 1) + Digits(n));
    }
  }

  lemma {:induction false} LeadingZero(s: string)
    requires AllDigits(s)
    ensures AllDigits("0" + s) && DigitsValue("0" + s) == DigitsValue(s)
  {
    var t := "0" + s;
    assert forall i | 0 < i < |t| :: t[i] == s[i - 1];
    if s == "" {
      assert t[..0] == "" && DigitsValue(t[..0]) == 0;
    } else {
      LeadingZero(s[..|s| - 1]);
      assert t[..|t| - 1] == "0" + s[..|s| - 1];
    }
  }

  /** Every string of digits is a number with zeros before it. */
  lemma {:induction false} DigitsFound(s: string) returns (zeros: nat)
    requires s != "" && AllDigits(s)
    ensures s == Zeros(zeros) + Digits(DigitsValue(s))
  {
    var front, last := s[..|s| - 1], s[|s| - 1];
    assert s == front + [last] && AllDigits(front);
    if front == "" {
      zeros := 0;
      assert DigitsValue(s) == HexValue(last);
    } else {
      zeros := DigitsFound(front);
      zeros := DigitAdded(front, last, zeros);
    }
  }

  lemma DigitsNext(m: nat, c: char)
    requires m > 0 && IsDigit(c)
    ensures Digits(m * 10 + HexValue(c)) == Digits(m) + [c]
  {
    var n := m * 10 + HexValue(c);
    assert n / 10 == m && n % 10 == HexValue(c);
  }

  lemma DigitAlone(c: char)
    requires IsDigit(c)
    ensures Digits(HexValue(c)) == [c]
  {
  }

  lemma DigitAdded(front: string, last: char, zeros: nat) returns (more: nat)
    requires front != "" && AllDigits(front) && IsDigit(last)
    requires front == Zeros(zeros) + Digits(DigitsValue(front))
    ensures front + [last] == Zeros(more) + Digits(DigitsValue(front) * 10 + HexValue(last))
  {
    var m := DigitsValue(front);
    if m == 0 {
      more := zeros + 1;
      ZerosNext(zeros);
      DigitAlone(last);
      assert Digits(m) == "0";
    } else {
      more := zeros;
      DigitsNext(m, last);
      Assoc(Zeros(zeros), Digits(m), [last]);
    }
  }

  lemma {:induction false} ZerosNext(k: nat)
    ensures Zeros(k) + "0" == Zeros(k + 1)
  {
    if k > 0 {
      ZerosNext(k - 1);
      Assoc("0", Zeros(k - 1), "0");
    }
  }

  lemma SignedDigits(sign: string, digits: string)
    requires sign == "" || sign == "+" || sign == "-"
    requires digits != "" && AllDigits(digits)
    ensures var token := sign + digits;
      && token != "" && Numeric(token) && IsInteger(token) && token[SignLength(token)..] == digits
      && (token[0] == '-' <==> sign == "-")
  {
    var token := sign + digits;
    assert SignLength(token) == |sign|;
    assert token[|sign|..] == digits;
    assert forall i | |sign| <= i < |token| :: token[i] == digits[i - |sign|];
  }

  lemma StollValue(token: string, digits: string, sign: string)
    requires token != "" && IsInteger(token) && token[SignLength(token)..] == digits && digits != ""
    requires token[0] == '-' <==> sign == "-"
    requires -9223372036854775808 <= Signed(sign, DigitsValue(digits)) <= 9223372036854775807
    ensures Stoll(token) == Some(Signed(sign, DigitsValue(digits)))
  {
  }

  lemma SignedValue(lib: FloatLib, sign: string, digits: string)
    requires sign == "" || sign == "+" || sign == "-"
    requires digits != "" && AllDigits(digits)
    requires -9223372036854775808 <= Signed(sign, DigitsValue(digits)) <= 9223372036854775807
    ensures NumberValue(lib, sign + digits) == Some(Int(Signed(sign, DigitsValue(digits))))
  {
    SignedDigits(sign, digits);
    StollValue(sign + digits, digits, sign);
  }

  lemma SignedRead(lib: FloatLib, sign: string, digits: string, post: string)
    requires sign == "" || sign == "+" || sign == "-"
    requires digits != "" && AllDigits(digits) && Ended(post)
    requires -9223372036854775808 <= Signed(sign, DigitsValue(digits)) <= 9223372036854775807
    ensures Number(lib, sign + digits + post) == Ok(Int(Signed(sign, DigitsValue(digits))), post)
  {
    var token := sign + digits;
    assert token != "" && Numeric(token) by { SignedDigits(sign, digits); }
    SignedValue(lib, sign, digits);
    TokenRead(lib, token, post);
  }

  lemma WholeRead(lib: FloatLib, sign: string, zeros: nat, n: nat, post: string)
    requires Valid(lib, Whole(sign, zeros, n)) && Ended(post)
    ensures Number(lib, Written(Whole(sign, zeros, n), post)) == Ok(Int(Signed(sign, n)), post)
  {
    ZerosRead(zeros, n);
    SignedRead(lib, sign, Zeros(zeros) + Digits(n), post);
    Assoc(Zeros(zeros), Digits(n), post);
    Assoc(sign, Zeros(zeros) + Digits(n), post);
  }

  lemma RealRead(lib: FloatLib, token: string, post: string)
    requires Valid(lib, Real(token)) && Ended(post)
    ensures Number(lib, token + post) == Ok(Double(lib.stod(token).value), post)
  {
    IntegerExactly(token);
    TokenRead(lib, token, post);
  }

  lemma WholeFound(lib: FloatLib, token: string, rest: string) returns (l: Layout)
    requires token != "" && OnlyDigits(token) && NumberValue(lib, token).Some?
    ensures Valid(lib, l) && l.Whole? && NumberValue(lib, token) == Some(Means(lib, l))
    ensures token + rest == Written(l, rest)
  {
    IntegerExactly(token);
    var sign, digits := token[..SignLength(token)], token[SignLength(token)..];
    assert token == sign + digits;
    var zeros := DigitsFound(digits);
    l := Whole(sign, zeros, DigitsValue(digits));
    Assoc(sign, digits, rest);
    Assoc(Zeros(zeros), Digits(DigitsValue(digits)), rest);
  }

  lemma RealFound(lib: FloatLib, token: string)
    requires token != "" && Numeric(token) && !OnlyDigits(token) && NumberValue(lib, token).Some?
    ensures Valid(lib, Real(token)) && NumberValue(lib, token) == Some(Means(lib, Real(token)))
  {
    IntegerExactly(token);
  }

  lemma TokenTaken(lib: FloatLib, s: string) returns (token: string)
    requires Number(lib, s).Ok?
    ensures token != "" && Numeric(token) && NumberValue(lib, token) == Some(Number(lib, s).value)
    ensures s == token + Number(lib, s).rest
  {
    var n := TokenLength(s);
    TokenIsSpan(s);
    token := s[..n];
    assert NumberValue(lib, token) == Some(Number(lib, s).value) && Number(lib, s).rest == s[n..];
    assert s == token + s[n..];
    assert Numeric(token) by { SpanTaken(s); }
  }

  lemma NumberFound(lib: FloatLib, s: string) returns (l: Layout)
    requires Number(lib, s).Ok?
    ensures Valid(lib, l) && IsNumber(l) && Means(lib, l) == Number(lib, s).value
    ensures s == Written(l, Number(lib, s).rest)
  {
    var token := TokenTaken(lib, s);
    if OnlyDigits(token) {
      l := WholeFound(lib, token, Number(lib, s).rest);
    } else {
      RealFound(lib, token);
      l := Real(token);
    }
  }

  // --- Every valid layout is read ---------------------------------------------------

  lemma OnlySkippedMatters(lib: FloatLib, s: string, t: string, depth: nat)
    requires SkipWs(s) == SkipWs(t) && depth <= MAX_DEPTH
    ensures ParseValue(lib, s, depth) == ParseValue(lib, t, depth)
  {
  }

  lemma CharDispatch(lib: FloatLib, s: string, depth: nat)
    requires s != "" && IsNumberChar(s[0]) && depth <= MAX_DEPTH
    ensures ParseValue(lib, s, depth) == Number(lib, s) && SkipWs(s) == s && s[0] != ']' && s[0] != '}'
  {
  }

  lemma NumericDispatch(lib: FloatLib, s: string, depth: nat)
    requires s != "" && s[0] in "0123456789+-.eE" && depth <= MAX_DEPTH
    ensures ParseValue(lib, s, depth) == Number(lib, s) && SkipWs(s) == s && s[0] != ']' && s[0] != '}'
  {
    NumberChars(s[0]);
    CharDispatch(lib, s, depth);
  }

  lemma SignedStart(sign: string, digits: string, post: string)
    requires sign == "" || sign == "+" || sign == "-"
    requires digits != "" && IsDigit(digits[0])
    ensures var s := sign + (digits + post); s != "" && s[0] in "0123456789+-.eE"
  {
    assert (digits + post)[0] == digits[0];
    assert sign == "" ==> sign + (digits + post) == digits + post;
  }

  lemma NumberStart(lib: FloatLib, l: Layout, post: string)
    requires IsNumber(l) && Valid(lib, l)
    ensures var s := Written(l, post); s != "" && s[0] in "0123456789+-.eE"
  {
    match l {
      case Whole(sign, zeros, n) =>
        ZerosRead(zeros, n);
        Assoc(Zeros(zeros), Digits(n), post);
        SignedStart(sign, Zeros(zeros) + Digits(n), post);
      case Real(token) => assert (token + post)[0] == token[0];
    }
  }

  lemma NumberLayoutRead(lib: FloatLib, l: Layout, post: string, depth: nat)
    requires IsNumber(l) && Valid(lib, l) && Ended(post) && depth <= MAX_DEPTH
    ensures ParseValue(lib, Written(l, post), depth) == Ok(Means(lib, l), post)
  {
    NumberStart(lib, l, post);
    NumericDispatch(lib, Written(l, post), depth);
    match l {
      case Whole(sign, zeros, n) => WholeRead(lib, sign, zeros, n, post);
      case Real(token) => RealRead(lib, token, post);
    }
  }

  lemma TextLayoutRead(lib: FloatLib, pieces: seq<Piece>, post: string, depth: nat)
    requires PiecesValid(pieces) && depth <= MAX_DEPTH
    ensures ParseValue(lib, Written(Quote(pieces), post), depth) == Ok(Str(PiecesMean(pieces)), post)
  {
    TextRead(pieces, post);
    NoSpace('"', Spelled(pieces, "\"" + post));
  }

  /** The outcome a valid layout must have at a given depth. */
  ghost predicate Reads(r: Outcome<Value>, lib: FloatLib, l: Layout, post: string, depth: nat)
    requires Valid(lib, l)
  {
    if depth + Depth(l) <= 32 then r == Ok(Means(lib, l), post) else r.Err?
  }

  lemma {:induction false} LayoutRead(lib: FloatLib, l: Layout, post: string, depth: nat)
    requires Valid(lib, l) && (IsNumber(l) ==> Ended(post))
    ensures Reads(ParseValue(lib, Written(l, post), depth), lib, l, post, depth)
    decreases l, 1
  {
    if depth <= MAX_DEPTH {
      match l {
        case NullWord => LiteralPrinted(lib, "null", post, depth);
        case BoolWord(b) => LiteralPrinted(lib, if b then "true" else "false", post, depth);
        case Whole(_, _, _) => NumberLayoutRead(lib, l, post, depth);
        case Real(_) => NumberLayoutRead(lib, l, post, depth);
        case Quote(pieces) => TextLayoutRead(lib, pieces, post, depth);
        case List(blank, items) =>
          var body := ItemsWritten(items, "]" + post);
          BracketDispatch(lib, blank + body, depth);
          BlankSkipped(blank, body);
          ListRead(lib, items, blank + body, post, depth);
        case Record(blank, entries) =>
          var body := EntriesWritten(entries, "}" + post);
          BracketDispatch(lib, blank + body, depth);
          BlankSkipped(blank, body);
          RecordRead(lib, entries, blank + body, post, depth);
      }
    }
  }

  lemma BlankEnded(blank: string, post: string)
    requires Blank(blank) && Ended(post)
    ensures Ended(blank + post)
  {
    if blank != "" {
      assert (blank + post)[0] == blank[0];
    } else {
      assert blank + post == post;
    }
  }

  lemma {:induction false} SlotRead(lib: FloatLib, slot: Slot, s: string, post: string, depth: nat)
    requires SlotValid(lib, slot) && SkipWs(s) == SkipWs(SlotWritten(slot, post))
    requires IsNumber(slot.layout) ==> Ended(slot.after + post)
    ensures Reads(ParseValue(lib, s, depth), lib, slot.layout, slot.after + post, depth)
    decreases slot, 2
  {
    if depth <= MAX_DEPTH {
      BlankSkipped(slot.before, Written(slot.layout, slot.after + post));
      OnlySkippedMatters(lib, s, Written(slot.layout, slot.after + post), depth);
      LayoutRead(lib, slot.layout, slot.after + post, depth);
    }
  }

  lemma LayoutStart(lib: FloatLib, l: Layout, post: string)
    requires Valid(lib, l)
    ensures var s := Written(l, post); s != "" && s[0] != ']' && s[0] != '}' && SkipWs(s) == s
  {
    match l {
      case NullWord =>
      case BoolWord(_) =>
      case Whole(_, _, _) => NumberStart(lib, l, post); NumericDispatch(lib, Written(l, post), 0);
      case Real(_) => NumberStart(lib, l, post); NumericDispatch(lib, Written(l, post), 0);
      case Quote(pieces) => NoSpace('"', Spelled(pieces, "\"" + post));
      case List(blank, items) => NoSpace('[', blank + ItemsWritten(items, "]" + post));
      case Record(blank, entries) => NoSpace('{', blank + EntriesWritten(entries, "}" + post));
    }
  }

  lemma ListStart(lib: FloatLib, items: seq<Slot>, post: string)
    requires ItemsValid(lib, items) && items != []
    ensures var t := SkipWs(ItemsWritten(items, post)); t != "" && t[0] != ']'
  {
    var slot := items[0];
    assert SlotValid(lib, slot);
    var tail := if |items| == 1 then post else "," + ItemsWritten(items[1..], post);
    BlankSkipped(slot.before, Written(slot.layout, slot.after + tail));
    LayoutStart(lib, slot.layout, slot.after + tail);
  }

  lemma {:induction false} ListRead(lib: FloatLib, items: seq<Slot>, s: string, post: string, depth: nat)
    requires ItemsValid(lib, items) && depth <= MAX_DEPTH
    requires SkipWs(s) == SkipWs(ItemsWritten(items, "]" + post))
    ensures var r := ArrayBody(lib, s, depth);
      if depth + ItemsDepth(items) <= 32 then r == Ok(Arr(ItemsMean(lib, items)), post) else r.Err?
    decreases items, 4
  {
    if items == [] {
      NoSpace(']', post);
    } else {
      ListStart(lib, items, "]" + post);
      SkipTwice(s);
      ItemsRead(lib, items, SkipWs(s), post, depth, []);
      assert [] + ItemsMean(lib, items) == ItemsMean(lib, items);
    }
  }

  lemma AfterItem(after: string, rest: string, close: char, post: string, missing: Message, wrong: Message)
    requires Blank(after) && (close == ']' || close == '}')
    ensures Separator(after + ("," + rest), close, missing, wrong) == Ok(true, rest)
    ensures Separator(after + ([close] + post), close, missing, wrong) == Ok(false, post)
    ensures Ended(after + ("," + rest)) && Ended(after + ([close] + post))
  {
    BlankSkipped(after, "," + rest);
    BlankSkipped(after, [close] + post);
    SeparatorPrinted(rest, close, post, missing, wrong);
    BlankEnded(after, "," + rest);
    BlankEnded(after, [close] + post);
  }

  lemma {:induction false} ItemsRead(lib: FloatLib, items: seq<Slot>, s: string, post: string, depth: nat,
                                     acc: seq<Value>)
    requires ItemsValid(lib, items) && items != []
    requires SkipWs(s) == SkipWs(ItemsWritten(items, "]" + post))
    ensures var r := ParseItems(lib, s, depth, acc);
      if depth + ItemsDepth(items) <= 32 then r == Ok(Arr(acc + ItemsMean(lib, items)), post) else r.Err?
    decreases items, 3
  {
    var slot, others := items[0], items[1..];
    assert SlotValid(lib, slot);
    AfterItem(slot.after, ItemsWritten(others, "]" + post), ']', post, UnterminatedArray, ExpectedCommaOrBracket);
    SlotRead(lib, slot, s, if others == [] then "]" + post else "," + ItemsWritten(others, "]" + post), depth + 1);
    var item := Means(lib, slot.layout);
    if others == [] {
      assert ItemsMean(lib, items) == [item];
    } else {
      ItemsRead(lib, others, ItemsWritten(others, "]" + post), post, depth, acc + [item]);
      Flatten(acc, item, ItemsMean(lib, others));
    }
  }

  lemma Flatten<T>(acc: seq<T>, x: T, rest: seq<T>)
    ensures acc + [x] + rest == acc + ([x] + rest)
  {
  }

  lemma KeyRead(e: Entry, s: string, post: string)
    requires Blank(e.before) && PiecesValid(e.key) && Blank(e.middle)
    requires SkipWs(s) == SkipWs(EntryWritten(e, post))
    ensures Key(s) == Ok(PiecesMean(e.key), SlotWritten(e.slot, post))
  {
    var rest := e.middle + (":" + SlotWritten(e.slot, post));
    var quoted := "\"" + Spelled(e.key, "\"" + rest);
    BlankSkipped(e.before, quoted);
    NoSpace('"', Spelled(e.key, "\"" + rest));
    TextRead(e.key, rest);
    BlankSkipped(e.middle, ":" + SlotWritten(e.slot, post));
    NoSpace(':', SlotWritten(e.slot, post));
  }

  lemma EntryStart(e: Entry, post: string)
    requires Blank(e.before)
    ensures var t := SkipWs(EntryWritten(e, post)); t != "" && t[0] == '"'
  {
    var rest := e.middle + (":" + SlotWritten(e.slot, post));
    BlankSkipped(e.before, "\"" + Spelled(e.key, "\"" + rest));
    NoSpace('"', Spelled(e.key, "\"" + rest));
  }

  lemma {:induction false} EntryRead(lib: FloatLib, e: Entry, s: string, post: string, depth: nat)
    requires EntryValid(lib, e) && SkipWs(s) == SkipWs(EntryWritten(e, post))
    requires Ended(e.slot.after + post)
    ensures var r := ParseMember(lib, s, depth);
      if depth + 1 + Depth(e.slot.layout) <= 32 then r == Ok(EntryMeans(lib, e), e.slot.after + post) else r.Err?
    decreases e, 3
  {
    KeyRead(e, s, post);
    SlotRead(lib, e.slot, SlotWritten(e.slot, post), post, depth + 1);
  }

  lemma {:induction false} RecordRead(lib: FloatLib, entries: seq<Entry>, s: string, post: string, depth: nat)
    requires EntriesValid(lib, entries) && depth <= MAX_DEPTH
    requires SkipWs(s) == SkipWs(EntriesWritten(entries, "}" + post))
    ensures var r := ObjectBody(lib, s, depth);
      if depth + EntriesDepth(entries) <= 32 then r == Ok(Obj(Collapse(EntriesMean(lib, entries))), post) else r.Err?
    decreases entries, 4
  {
    if entries == [] {
      NoSpace('}', post);
    } else {
      var tail := if |entries| == 1 then "}" + post else "," + EntriesWritten(entries[1..], "}" + post);
      assert EntryValid(lib, entries[0]);
      EntryStart(entries[0], tail);
      SkipTwice(s);
      EntriesRead(lib, entries, SkipWs(s), post, depth, []);
      assert [] + EntriesMean(lib, entries) == EntriesMean(lib, entries);
    }
  }

  lemma {:induction false} EntriesRead(lib: FloatLib, entries: seq<Entry>, s: string, post: string, depth: nat,
                                       acc: seq<Member>)
    requires EntriesValid(lib, entries) && entries != []
    requires SkipWs(s) == SkipWs(EntriesWritten(entries, "}" + post))
    ensures var r := ParseMembers(lib, s, depth, acc);
      if depth + EntriesDepth(entries) <= 32 then r == Ok(Obj(Collapse(acc + EntriesMean(lib, entries))), post)
      else r.Err?
    decreases entries, 3
  {
    var e, others := entries[0], entries[1..];
    assert EntryValid(lib, e) && SlotValid(lib, e.slot);
    AfterItem(e.slot.after, EntriesWritten(others, "}" + post), '}', post, UnterminatedObject, ExpectedCommaOrBrace);
    EntryRead(lib, e, s, if others == [] then "}" + post else "," + EntriesWritten(others, "}" + post), depth);
    var m := EntryMeans(lib, e);
    if others == [] {
      assert EntriesMean(lib, entries) == [m];
    } else {
      EntriesRead(lib, others, EntriesWritten(others, "}" + post), post, depth, acc + [m]);
      Flatten(acc, m, EntriesMean(lib, others));
    }
  }

  // --- Nothing else is read ---------------------------------------------------------

  /** A value with the blank before it, as found in a text that the parser read. */
  ghost predicate Found(lib: FloatLib, s: string, depth: nat, blank: string, l: Layout) {
    var r := ParseValue(lib, s, depth);
    && r.Ok? && Blank(blank) && Valid(lib, l)
    && s == blank + Written(l, r.rest)
    && Means(lib, l) == r.value
    && depth + Depth(l) <= 32
  }

  lemma LiteralFound(s: string, word: string, value: Value)
    requires word != "" && Literal(s, word, value).Ok?
    ensures s == word + Literal(s, word, value).rest
  {
  }

  /** The layout of an accepted value that no white space precedes. */
  lemma ScalarFound(lib: FloatLib, t: string, depth: nat) returns (l: Layout)
    requires ParseValue(lib, t, depth).Ok? && SkipWs(t) == t && t[0] != '[' && t[0] != '{'
    ensures var r := ParseValue(lib, t, depth);
      Valid(lib, l) && Depth(l) == 0 && t == Written(l, r.rest) && Means(lib, l) == r.value
  {
    match t[0] {
      case 'n' => LiteralFound(t, "null", Null); l := NullWord;
      case 't' => LiteralFound(t, "true", Bool(true)); l := BoolWord(true);
      case 'f' => LiteralFound(t, "false", Bool(false)); l := BoolWord(false);
      case '"' =>
        var pieces := TextFound(t);
        l := Quote(pieces);
      case _ =>
        l := NumberFound(lib, t);
    }
  }

  lemma {:induction false} ValueFound(lib: FloatLib, s: string, depth: nat) returns (blank: string, l: Layout)
    requires ParseValue(lib, s, depth).Ok?
    ensures Found(lib, s, depth, blank, l)
    decreases |s|, 0
  {
    blank := SkippedBlank(s);
    var t := SkipWs(s);
    SkipTwice(s);
    OnlySkippedMatters(lib, s, t, depth);
    if t[0] == '[' || t[0] == '{' {
      l := BracketFound(lib, t[0], t[1..], depth);
      assert t == [t[0]] + t[1..];
    } else {
      l := ScalarFound(lib, t, depth);
    }
  }

  lemma {:induction false} BracketFound(lib: FloatLib, bracket: char, s: string, depth: nat) returns (l: Layout)
    requires (bracket == '[' || bracket == '{') && ParseValue(lib, [bracket] + s, depth).Ok?
    ensures var r := ParseValue(lib, [bracket] + s, depth);
      && Valid(lib, l) && [bracket] + s == Written(l, r.rest) && Means(lib, l) == r.value
      && depth + Depth(l) <= 32
    decreases |s|, 4
  {
    BracketDispatch(lib, s, depth);
    if bracket == '[' {
      var inner, items := ListFound(lib, s, depth);
      l := List(inner, items);
    } else {
      var inner, entries := RecordFound(lib, s, depth);
      l := Record(inner, entries);
    }
  }

  /** After an item there is white space and then a comma or the closing character. */
  lemma SeparatorFound(s: string, close: char, missing: Message, wrong: Message) returns (after: string)
    requires Separator(s, close, missing, wrong).Ok?
    ensures var r := Separator(s, close, missing, wrong);
      Blank(after) && s == after + ((if r.value then "," else [close]) + r.rest)
  {
    after := SkippedBlank(s);
    var t := SkipWs(s);
    assert t == [t[0]] + t[1..];
  }

  lemma {:induction false} ListFound(lib: FloatLib, s: string, depth: nat) returns (blank: string, items: seq<Slot>)
    requires depth <= MAX_DEPTH && ArrayBody(lib, s, depth).Ok?
    ensures var r := ArrayBody(lib, s, depth);
      && Blank(blank) && ItemsValid(lib, items) && depth + ItemsDepth(items) <= 32
      && s == blank + ItemsWritten(items, "]" + r.rest) && r.value == Arr(ItemsMean(lib, items))
    decreases |s|, 3
  {
    blank := SkippedBlank(s);
    var t := SkipWs(s);
    if t != "" && t[0] == ']' {
      items := [];
      assert t == "]" + t[1..];
    } else {
      items := ItemsFound(lib, t, depth, []);
      assert [] + ItemsMean(lib, items) == ItemsMean(lib, items);
    }
  }

  lemma {:induction false} SlotFound(lib: FloatLib, s: string, depth: nat, after: string, rest: string)
    returns (slot: Slot)
    requires ParseValue(lib, s, depth + 1).Ok?
    requires Blank(after) && ParseValue(lib, s, depth + 1).rest == after + rest
    ensures SlotValid(lib, slot) && depth + 1 + Depth(slot.layout) <= 32
    ensures s == SlotWritten(slot, rest) && ParseValue(lib, s, depth + 1).value == Means(lib, slot.layout)
    decreases |s|, 1
  {
    var before, l := ValueFound(lib, s, depth + 1);
    slot := Slot(before, l, after);
  }

  lemma {:induction false} ItemsFound(lib: FloatLib, s: string, depth: nat, acc: seq<Value>)
    returns (items: seq<Slot>)
    requires ParseItems(lib, s, depth, acc).Ok?
    ensures var r := ParseItems(lib, s, depth, acc);
      && items != [] && ItemsValid(lib, items) && depth + ItemsDepth(items) <= 32
      && s == ItemsWritten(items, "]" + r.rest) && r.value == Arr(acc + ItemsMean(lib, items))
    decreases |s|, 2
  {
    var v := ParseValue(lib, s, depth + 1);
    var after := SeparatorFound(v.rest, ']', UnterminatedArray, ExpectedCommaOrBracket);
    var next := Separator(v.rest, ']', UnterminatedArray, ExpectedCommaOrBracket);
    var slot := SlotFound(lib, s, depth, after, (if next.value then "," else "]") + next.rest);
    if next.value {
      var others := ItemsFound(lib, next.rest, depth, acc + [v.value]);
      items := [slot] + others;
      assert items[1..] == others;
      Flatten(acc, v.value, ItemsMean(lib, others));
    } else {
      items := [slot];
      assert items[1..] == [] && ItemsMean(lib, items) == [v.value];
    }
  }

  lemma ColonFound(rest: string) returns (middle: string)
    requires SkipWs(rest) != "" && SkipWs(rest)[0] == ':'
    ensures Blank(middle) && rest == middle + (":" + SkipWs(rest)[1..])
  {
    middle := SkippedBlank(rest);
    var t := SkipWs(rest);
    assert t == ":" + t[1..];
  }

  lemma KeyFound(s: string) returns (before: string, key: seq<Piece>, middle: string)
    requires Key(s).Ok?
    ensures Blank(before) && PiecesValid(key) && Blank(middle) && PiecesMean(key) == Key(s).value
    ensures s == before + ("\"" + Spelled(key, "\"" + (middle + (":" + Key(s).rest))))
  {
    before := SkippedBlank(s);
    key := TextFound(SkipWs(s));
    middle := ColonFound(String(SkipWs(s)).rest);
  }

  lemma {:induction false} EntryFound(lib: FloatLib, s: string, depth: nat, after: string, rest: string)
    returns (e: Entry)
    requires ParseMember(lib, s, depth).Ok?
    requires Blank(after) && ParseMember(lib, s, depth).rest == after + rest
    ensures EntryValid(lib, e) && depth + 1 + Depth(e.slot.layout) <= 32
    ensures s == EntryWritten(e, rest) && ParseMember(lib, s, depth).value == EntryMeans(lib, e)
    decreases |s|, 1
  {
    var before, key, middle := KeyFound(s);
    var inner, l := ValueFound(lib, Key(s).rest, depth + 1);
    e := Entry(before, key, middle, Slot(inner, l, after));
    assert SlotValid(lib, e.slot);
  }

  lemma {:induction false} RecordFound(lib: FloatLib, s: string, depth: nat)
    returns (blank: string, entries: seq<Entry>)
    requires depth <= MAX_DEPTH && ObjectBody(lib, s, depth).Ok?
    ensures var r := ObjectBody(lib, s, depth);
      && Blank(blank) && EntriesValid(lib, entries) && depth + EntriesDepth(entries) <= 32
      && s == blank + EntriesWritten(entries, "}" + r.rest)
      && r.value == Obj(Collapse(EntriesMean(lib, entries)))
    decreases |s|, 3
  {
    blank := SkippedBlank(s);
    var t := SkipWs(s);
    if t != "" && t[0] == '}' {
      entries := [];
      assert t == "}" + t[1..];
    } else {
      entries := EntriesFound(lib, t, depth, []);
      assert [] + EntriesMean(lib, entries) == EntriesMean(lib, entries);
    }
  }

  lemma {:induction false} EntriesFound(lib: FloatLib, s: string, depth: nat, acc: seq<Member>)
    returns (entries: seq<Entry>)
    requires ParseMembers(lib, s, depth, acc).Ok?
    ensures var r := ParseMembers(lib, s, depth, acc);
      && entries != [] && EntriesValid(lib, entries) && depth + EntriesDepth(entries) <= 32
      && s == EntriesWritten(entries, "}" + r.rest)
      && r.value == Obj(Collapse(acc + EntriesMean(lib, entries)))
    decreases |s|, 2
  {
    var m := ParseMember(lib, s, depth);
    var after := SeparatorFound(m.rest, '}', UnterminatedObject, ExpectedCommaOrBrace);
    var next := Separator(m.rest, '}', UnterminatedObject, ExpectedCommaOrBrace);
    var e := EntryFound(lib, s, depth, after, (if next.value then "," else "}") + next.rest);
    if next.value {
      var others := EntriesFound(lib, next.rest, depth, acc + [m.value]);
      entries := [e] + others;
      assert entries[1..] == others;
      Flatten(acc, m.value, EntriesMean(lib, others));
    } else {
      entries := [e];
      assert entries[1..] == [] && EntriesMean(lib, entries) == [m.value];
    }
  }

  // --- The theorems -----------------------------------------------------------------

  /** The tail of a document cannot be taken for more of a number. */
  predicate Apart(doc: Slot, tail: string) {
    tail == "" || !IsNumber(doc.layout) || doc.after != "" || tail[0] !in "0123456789+-.eE"
  }

  lemma ApartEnds(doc: Slot, tail: string)
    requires Blank(doc.after) && Apart(doc, tail)
    ensures IsNumber(doc.layout) ==> Ended(doc.after + tail)
  {
    if doc.after != "" {
      assert (doc.after + tail)[0] == doc.after[0];
    } else {
      assert doc.after + tail == tail;
    }
  }

  /** A valid document is read as what it means, followed by white space only, up to 32 brackets
      deep; a deeper one is refused. */
  lemma DocumentRead(lib: FloatLib, doc: Slot, tail: string)
    requires SlotValid(lib, doc) && Apart(doc, tail)
    ensures Parse(lib, SlotWritten(doc, tail))
         == if Depth(doc.layout) <= 32 && Blank(tail) then Some(Means(lib, doc.layout)) else None
  {
    ApartEnds(doc, tail);
    SlotRead(lib, doc, SlotWritten(doc, tail), tail, 0);
    BlankSkipped(doc.after, tail);
    BlankExactly(tail);
  }

  ghost predicate Document(lib: FloatLib, text: string, v: Value, doc: Slot) {
    SlotValid(lib, doc) && Depth(doc.layout) <= 32 && SlotWritten(doc, "") == text && Means(lib, doc.layout) == v
  }

  /** The parser accepts exactly the documents of valid layout, and reads what they mean. */
  lemma AcceptsExactly(lib: FloatLib, text: string, v: Value)
    ensures Parse(lib, text) == Some(v) <==> exists doc :: Document(lib, text, v, doc)
  {
    if doc :| Document(lib, text, v, doc) {
      DocumentRead(lib, doc, "");
    }
    if Parse(lib, text) == Some(v) {
      var before, l := ValueFound(lib, text, 0);
      var after := ParseValue(lib, text, 0).rest;
      BlankExactly(after);
      assert after + "" == after;
      assert Document(lib, text, v, Slot(before, l, after));
    }
  }
}
