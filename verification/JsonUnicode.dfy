/** What the parser makes of `\u` escapes: the UTF-8 encoding of section 3 of RFC 3629, with
    the surrogate pairs of section 7 of RFC 8259 combined. */
module JsonUnicode {
  import opened Common
  import opened JsonPrinter
  import opened JsonGrammar

  predicate IsScalar(cp: nat) {
    cp < 0xD800 || 0xE000 <= cp < 0x11_0000
  }

  // --- An independent UTF-8 decoder ------------------------------------------------

  predicate IsTail(c: char) {
    0x80 <= c as nat < 0xC0
  }

  /** Section 4 of RFC 3629: the scalar value that starts `s`, shortest form only. */
  function DecodeUtf8(s: string): Option<(nat, string)> {
    if s == "" then None
    else
      var b := s[0] as nat;
      if b < 0x80 then Some((b, s[1..]))
      else if 0xC2 <= b < 0xE0 && |s| >= 2 && IsTail(s[1]) then
        Some(((b - 0xC0) * 64 + Tail(s[1]), s[2..]))
      else if 0xE0 <= b < 0xF0 && |s| >= 3 && IsTail(s[1]) && IsTail(s[2]) then
        var cp := ((b - 0xE0) * 64 + Tail(s[1])) * 64 + Tail(s[2]);
        if cp >= 0x800 && IsScalar(cp) then Some((cp, s[3..])) else None
      else if 0xF0 <= b < 0xF5 && |s| >= 4 && IsTail(s[1]) && IsTail(s[2]) && IsTail(s[3]) then
        var cp := (((b - 0xF0) * 64 + Tail(s[1])) * 64 + Tail(s[2])) * 64 + Tail(s[3]);
        if 0x1_0000 <= cp < 0x11_0000 then Some((cp, s[4..])) else None
      else None
  }

  function Tail(c: char): nat
    requires IsTail(c)
  {
    c as nat - 0x80
  }

  /** The bytes for a code point decode to it exactly when it is a scalar value; so they are
      distinct for distinct scalars, and no encoding starts another. */
  lemma Utf8Decodes(cp: nat, rest: string)
    requires cp < 0x11_0000
    ensures DecodeUtf8(Utf8(cp) + rest) == if IsScalar(cp) then Some((cp, rest)) else None
  {
    var out := Utf8(cp);
    var s := out + rest;
    assert s[|out|..] == rest;
    assert cp == cp / 64 * 64 + cp % 64;
    assert cp / 64 == cp / 4096 * 64 + cp / 64 % 64;
    assert cp / 4096 == cp / 262144 * 64 + cp / 4096 % 64;
    assert forall i | 0 <= i < |out| :: s[i] == out[i];
  }

  lemma Utf8Injective(a: nat, b: nat, restA: string, restB: string)
    requires IsScalar(a) && IsScalar(b)
    requires Utf8(a) + restA == Utf8(b) + restB
    ensures a == b && restA == restB
  {
    Utf8Decodes(a, restA);
    Utf8Decodes(b, restB);
  }

  // --- Surrogate pairs -------------------------------------------------------------

  function HighOf(cp: nat): nat
    requires 0x1_0000 <= cp < 0x11_0000
  {
    0xD800 + (cp - 0x1_0000) / 0x400
  }

  function LowOf(cp: nat): nat
    requires 0x1_0000 <= cp < 0x11_0000
  {
    0xDC00 + (cp - 0x1_0000) % 0x400
  }

  /** Pairs of surrogates and the code points from U+10000 on correspond one to one. */
  lemma PairsBijective(high: nat, low: nat, cp: nat)
    requires IsHigh(high) && IsLow(low) && 0x1_0000 <= cp < 0x11_0000
    ensures 0x1_0000 <= Combine(high, low) < 0x11_0000
    ensures HighOf(Combine(high, low)) == high && LowOf(Combine(high, low)) == low
    ensures IsHigh(HighOf(cp)) && IsLow(LowOf(cp)) && Combine(HighOf(cp), LowOf(cp)) == cp
  {
  }

  // --- Escapes ---------------------------------------------------------------------

  predicate IsHex4(h: string) {
    |h| == 4 && IsHex(h[0]) && IsHex(h[1]) && IsHex(h[2]) && IsHex(h[3])
  }

  function Hex4Value(h: string): nat
    requires IsHex4(h)
  {
    ((HexValue(h[0]) * 16 + HexValue(h[1])) * 16 + HexValue(h[2])) * 16 + HexValue(h[3])
  }

  /** One escape of a text, in any spelling of its hex digits. */
  datatype Escaped = Single(hex: string) | Pair(high: string, low: string) {
    /** What the parser lets pass: any four hex digits but half a pair that promises more. */
    predicate Accepted() {
      match this
      case Single(h) => IsHex4(h) && !IsHigh(Hex4Value(h))
      case Pair(h, l) => IsHex4(h) && IsHex4(l) && IsHigh(Hex4Value(h)) && IsLow(Hex4Value(l))
    }

    predicate LoneLow() {
      Single? && IsHex4(hex) && IsLow(Hex4Value(hex))
    }

    /** A Unicode scalar value, unless it is a lone low surrogate. */
    function Denotes(): (cp: nat)
      requires Accepted()
      ensures cp < 0x11_0000 && (IsScalar(cp) <==> !LoneLow())
    {
      match this
      case Single(h) => Hex4Value(h)
      case Pair(h, l) => Combine(Hex4Value(h), Hex4Value(l))
    }

    /** What follows the `\u`. */
    function Spelling(): string {
      match this
      case Single(h) => h
      case Pair(h, l) => h + ("\\u" + l)
    }
  }

  function Spell(es: seq<Escaped>, post: string): string {
    if es == [] then post else "\\u" + (es[0].Spelling() + Spell(es[1..], post))
  }

  function Encode(es: seq<Escaped>): string
    requires forall e | e in es :: e.Accepted()
  {
    if es == [] then "" else Utf8(es[0].Denotes()) + Encode(es[1..])
  }

  lemma Hex4Read(h: string, rest: string)
    requires IsHex4(h)
    ensures Hex4(h + rest) == Ok(Hex4Value(h), rest)
  {
    assert (h + rest)[4..] == rest;
  }

  lemma EscapeRead(e: Escaped, rest: string)
    requires e.Accepted()
    ensures Unicode(e.Spelling() + rest) == Ok(e.Denotes(), rest)
  {
    match e {
      case Single(h) => Hex4Read(h, rest);
      case Pair(h, l) =>
        var tail := "\\u" + (l + rest);
        Assoc(h, "\\u" + l, rest);
        Assoc("\\u", l, rest);
        Hex4Read(h, tail);
        assert "\\u" <= tail && tail[2..] == l + rest;
        Hex4Read(l, rest);
    }
  }

  /** Any text written entirely in escapes is read as the bytes of what they denote. */
  lemma {:induction false} EscapesRead(es: seq<Escaped>, post: string, acc: string)
    requires forall e | e in es :: e.Accepted()
    ensures Chars(Spell(es, "\"" + post), acc) == Ok(acc + Encode(es), post)
  {
    if es == [] {
      assert ("\"" + post)[1..] == post;
      assert acc + "" == acc;
    } else {
      var tail := es[0].Spelling() + Spell(es[1..], "\"" + post);
      assert ("\\u" + tail)[2..] == tail;
      EscapeRead(es[0], Spell(es[1..], "\"" + post));
      EscapesRead(es[1..], post, acc + Utf8(es[0].Denotes()));
      Assoc(acc, Utf8(es[0].Denotes()), Encode(es[1..]));
    }
  }

  function DecodeAll(s: string): Option<seq<nat>>
    decreases |s|
  {
    if s == "" then Some([])
    else match DecodeUtf8(s)
      case None => None
      case Some((cp, rest)) =>
        match DecodeAll(rest)
        case None => None
        case Some(cps) => Some([cp] + cps)
  }

  function Denoted(es: seq<Escaped>): seq<nat>
    requires forall e | e in es :: e.Accepted()
  {
    if es == [] then [] else [es[0].Denotes()] + Denoted(es[1..])
  }

  lemma {:induction false} EncodeDecodesExactly(es: seq<Escaped>)
    requires forall e | e in es :: e.Accepted()
    ensures DecodeAll(Encode(es)) == if exists e :: e in es && e.LoneLow() then None else Some(Denoted(es))
  {
    if es != [] {
      EncodeDecodesExactly(es[1..]);
      Utf8Decodes(es[0].Denotes(), Encode(es[1..]));
      assert forall e | e in es :: e == es[0] || e in es[1..];
    }
  }

  /** End to end: every sequence of escapes the parser accepts is read, and the parsed string is
      UTF-8, and then spells what the escapes denote, if and only if none of them is a lone low
      surrogate. */
  lemma EscapedTextIsUtf8Exactly(es: seq<Escaped>)
    requires forall e | e in es :: e.Accepted()
    ensures String("\"" + Spell(es, "\"")) == Ok(Encode(es), "")
    ensures DecodeAll(Encode(es)) == if exists e :: e in es && e.LoneLow() then None else Some(Denoted(es))
  {
    assert "\"" + "" == "\"" && ("\"" + Spell(es, "\""))[1..] == Spell(es, "\"");
    EscapesRead(es, "", "");
    assert "" + Encode(es) == Encode(es);
    EncodeDecodesExactly(es);
  }

  lemma Hex4Splits(s: string) returns (h: string)
    requires Hex4(s).Ok?
    ensures IsHex4(h) && s == h + Hex4(s).rest && Hex4(s).value == Hex4Value(h)
  {
    h := s[..4];
  }

  /** The parser reads no other escapes: whatever it accepts after a `\u` is one of those. */
  lemma UnicodeYields(s: string) returns (e: Escaped)
    requires Unicode(s).Ok?
    ensures e.Accepted() && Unicode(s).value == e.Denotes() && s == e.Spelling() + Unicode(s).rest
  {
    var h := Hex4Splits(s);
    if IsHigh(Hex4Value(h)) {
      var tail := Hex4(s).rest;
      var l := Hex4Splits(tail[2..]);
      e := Pair(h, l);
      var rest := Unicode(s).rest;
      assert tail == "\\u" + (l + rest);
      Assoc(h, "\\u" + l, rest);
      Assoc("\\u", l, rest);
    } else {
      e := Single(h);
    }
  }

  /** The gap: a lone low surrogate is accepted, and its bytes are not UTF-8. */
  lemma LoneLowSurrogate(h: string, rest: string)
    requires IsHex4(h) && IsLow(Hex4Value(h))
    ensures Unicode(h + rest) == Ok(Hex4Value(h), rest)
    ensures DecodeUtf8(Utf8(Hex4Value(h))) == None
  {
    Hex4Read(h, rest);
    Utf8Decodes(Hex4Value(h), "");
    assert Utf8(Hex4Value(h)) + "" == Utf8(Hex4Value(h));
  }
}
