/** The base64 encoder of the window shell and the updater's decoder, with its unmasked 32-bit
    accumulator (section 4 of RFC 4648). */
module Base64 {
  import opened Common

  type Byte = x: int | 0 <= x < 256
  type Sextet = x: int | 0 <= x < 64

  const U32: int := 0x1_0000_0000

  // --- The alphabet ----------------------------------------------------------------

  function Letter(i: Sextet): char {
    if i < 26 then 'A' + i as char
    else if i < 52 then 'a' + (i - 26) as char
    else if i < 62 then '0' + (i - 52) as char
    else if i == 62 then '+'
    else '/'
  }

  function Index(c: char): Option<Sextet> {
    if 'A' <= c <= 'Z' then Some((c - 'A') as int)
    else if 'a' <= c <= 'z' then Some((c - 'a') as int + 26)
    else if '0' <= c <= '9' then Some((c - '0') as int + 52)
    else if c == '+' then Some(62)
    else if c == '/' then Some(63)
    else None
  }

  lemma LetterIndex(i: Sextet)
    ensures Index(Letter(i)) == Some(i) && Letter(i) != '='
  {
  }

  /** The alphabet of section 4 of RFC 4648, in order. */
  const ALPHABET := "ABCDEFGHIJKLMNOPQRSTUVWXYZ" + "abcdefghijklmnopqrstuvwxyz" + "0123456789" + "+/"

  lemma UpperAlphabet(i: nat)
    requires i < 26
    ensures "ABCDEFGHIJKLMNOPQRSTUVWXYZ"[i] as int == 65 + i
  {
  }

  lemma LowerAlphabet(i: nat)
    requires i < 26
    ensures "abcdefghijklmnopqrstuvwxyz"[i] as int == 97 + i
  {
  }

  lemma DigitAlphabet(i: nat)
    requires i < 10
    ensures "0123456789"[i] as int == 48 + i
  {
  }

  lemma AlphabetAt(i: Sextet)
    ensures |ALPHABET| == 64
    ensures i < 26 ==> ALPHABET[i] == "ABCDEFGHIJKLMNOPQRSTUVWXYZ"[i]
    ensures 26 <= i < 52 ==> ALPHABET[i] == "abcdefghijklmnopqrstuvwxyz"[i - 26]
    ensures 52 <= i < 62 ==> ALPHABET[i] == "0123456789"[i - 52]
    ensures i == 62 ==> ALPHABET[i] == '+'
    ensures i == 63 ==> ALPHABET[i] == '/'
  {
  }

  lemma LetterLiteral(i: Sextet)
    ensures |ALPHABET| == 64 && Letter(i) == ALPHABET[i]
  {
    AlphabetAt(i);
    if i < 26 { UpperAlphabet(i); } else if i < 52 { LowerAlphabet(i - 26); } else if i < 62 { DigitAlphabet(i - 52); }
  }

  /** Both directions go by that alphabet, and no other character has an index. */
  lemma AlphabetExactly(i: Sextet, c: char)
    ensures |ALPHABET| == 64 && Letter(i) == ALPHABET[i]
    ensures Index(c) == Some(i) <==> c == ALPHABET[i]
  {
    LetterLiteral(i);
    LetterIndex(i);
    LetterUnique(i, c);
  }

  lemma LetterUnique(i: Sextet, c: char)
    ensures Index(c) == Some(i) ==> c == Letter(i)
  {
  }

  // --- Groups ------------------------------------------------------------------------

  function Quad(b0: Byte, b1: Byte, b2: Byte): seq<Sextet> {
    [b0 / 4, b0 % 4 * 16 + b1 / 16, b1 % 16 * 4 + b2 / 64, b2 % 64]
  }

  /** Three bytes as four sextets; a short chunk is filled up with zeros, and the sextets that
      hold nothing else are dropped. */
  function Sextets(bytes: seq<Byte>): seq<Sextet> {
    if |bytes| >= 3 then Quad(bytes[0], bytes[1], bytes[2]) + Sextets(bytes[3..])
    else if |bytes| == 2 then Quad(bytes[0], bytes[1], 0)[..3]
    else if |bytes| == 1 then Quad(bytes[0], 0, 0)[..2]
    else []
  }

  /** The bytes that straddle two sextets. */
  function Byte0(a: Sextet, b: Sextet): Byte {
    var n: int := a;
    n * 4 + b / 16
  }

  function Byte1(a: Sextet, b: Sextet): Byte {
    var n: int := a % 16;
    n * 16 + b / 4
  }

  function Byte2(a: Sextet, b: Sextet): Byte {
    var n: int := a % 4;
    n * 64 + b
  }

  /** Four sextets as three bytes; two or three left over as one or two, a single one dropped. */
  function Bytes(s: seq<Sextet>): seq<Byte> {
    if |s| >= 4 then [Byte0(s[0], s[1]), Byte1(s[1], s[2]), Byte2(s[2], s[3])] + Bytes(s[4..])
    else if |s| == 3 then [Byte0(s[0], s[1]), Byte1(s[1], s[2])]
    else if |s| == 2 then [Byte0(s[0], s[1])]
    else []
  }

  /** The bits of a chunk, put together again. */
  lemma QuadDecodes(b0: Byte, b1: Byte, b2: Byte)
    ensures var q := Quad(b0, b1, b2);
      Byte0(q[0], q[1]) == b0 && Byte1(q[1], q[2]) == b1 && Byte2(q[2], q[3]) == b2
  {
  }

  lemma BytesOfQuad(b0: Byte, b1: Byte, b2: Byte, rest: seq<Sextet>)
    ensures Bytes(Quad(b0, b1, b2) + rest) == [b0, b1, b2] + Bytes(rest)
  {
    var s := Quad(b0, b1, b2) + rest;
    QuadDecodes(b0, b1, b2);
    assert s[4..] == rest;
  }

  lemma PairDecodes(s: seq<Sextet>, b: Byte)
    requires |s| == 2 && Byte0(s[0], s[1]) == b
    ensures Bytes(s) == [b]
  {
  }

  lemma TripleDecodes(s: seq<Sextet>, b: Byte, d: Byte)
    requires |s| == 3 && Byte0(s[0], s[1]) == b && Byte1(s[1], s[2]) == d
    ensures Bytes(s) == [b, d]
  {
  }

  lemma BytesOfShort(bytes: seq<Byte>)
    requires 1 <= |bytes| <= 2
    ensures Bytes(Sextets(bytes)) == bytes
  {
    var s := Sextets(bytes);
    if |bytes| == 1 {
      QuadDecodes(bytes[0], 0, 0);
      PairDecodes(s, bytes[0]);
    } else {
      QuadDecodes(bytes[0], bytes[1], 0);
      TripleDecodes(s, bytes[0], bytes[1]);
    }
  }

  lemma {:induction false} BytesOfSextets(bytes: seq<Byte>)
    ensures Bytes(Sextets(bytes)) == bytes
  {
    if 1 <= |bytes| <= 2 {
      BytesOfShort(bytes);
    } else if |bytes| >= 3 {
      BytesOfSextets(bytes[3..]);
      BytesOfQuad(bytes[0], bytes[1], bytes[2], Sextets(bytes[3..]));
      assert bytes == [bytes[0], bytes[1], bytes[2]] + bytes[3..];
    }
  }

  lemma {:induction false} BytesLength(s: seq<Sextet>)
    ensures |Bytes(s)| == 6 * |s| / 8
  {
    if |s| >= 4 { BytesLength(s[4..]); }
  }

  /** The byte one more sextet completes, if it completes one. */
  function Completed(s: seq<Sextet>, x: Sextet): seq<Byte> {
    if |s| % 4 == 0 then []
    else
      var last := s[|s| - 1];
      if |s| % 4 == 1 then [Byte0(last, x)] else if |s| % 4 == 2 then [Byte1(last, x)] else [Byte2(last, x)]
  }

  /** Taking off a whole group. */
  lemma BytesGroup(s: seq<Sextet>)
    requires |s| >= 4
    ensures Bytes(s) == Bytes(s[..4]) + Bytes(s[4..])
  {
    assert s[..4][4..] == [];
  }

  lemma FirstSextet(s: seq<Sextet>, x: Sextet)
    requires |s| == 0
    ensures Bytes(s + [x]) == Bytes(s) + Completed(s, x)
  {
    assert |s + [x]| == 1;
  }

  lemma SecondSextet(s: seq<Sextet>, x: Sextet)
    requires |s| == 1
    ensures Bytes(s + [x]) == Bytes(s) + Completed(s, x)
  {
    var t := s + [x];
    assert t[0] == s[0] && t[1] == x;
    assert Bytes(s) == [];
  }

  lemma ThirdSextet(s: seq<Sextet>, x: Sextet)
    requires |s| == 2
    ensures Bytes(s + [x]) == Bytes(s) + Completed(s, x)
  {
    var t := s + [x];
    assert t[0] == s[0] && t[1] == s[1] && t[2] == x;
  }

  lemma FourthSextet(s: seq<Sextet>, x: Sextet)
    requires |s| == 3
    ensures Bytes(s + [x]) == Bytes(s) + Completed(s, x)
  {
    var t := s + [x];
    assert t[0] == s[0] && t[1] == s[1] && t[2] == s[2] && t[3] == x;
    assert t[4..] == [];
  }

  lemma {:induction false} BytesSnoc(s: seq<Sextet>, x: Sextet)
    ensures Bytes(s + [x]) == Bytes(s) + Completed(s, x)
  {
    if |s| == 0 {
      FirstSextet(s, x);
    } else if |s| == 1 {
      SecondSextet(s, x);
    } else if |s| == 2 {
      ThirdSextet(s, x);
    } else if |s| == 3 {
      FourthSextet(s, x);
    } else {
      var t := s + [x];
      assert t[..4] == s[..4] && t[4..] == s[4..] + [x];
      BytesGroup(t);
      BytesGroup(s);
      BytesSnoc(s[4..], x);
      CompletedGroup(s, x);
      BytesAssoc(Bytes(s[..4]), Bytes(s[4..]), Completed(s, x));
    }
  }

  lemma CompletedGroup(s: seq<Sextet>, x: Sextet)
    requires |s| >= 4
    ensures Completed(s[4..], x) == Completed(s, x)
  {
    assert |s[4..]| % 4 == |s| % 4;
    if |s| > 4 { assert s[4..][|s| - 5] == s[|s| - 1]; }
  }

  lemma BytesAssoc(a: seq<Byte>, b: seq<Byte>, c: seq<Byte>)
    ensures a + (b + c) == a + b + c
  {
  }

  // --- Encoding ------------------------------------------------------------------------

  function Letters(s: seq<Sextet>): (r: string)
    ensures |r| == |s| && forall i | 0 <= i < |s| :: r[i] == Letter(s[i])
  {
    seq(|s|, i requires 0 <= i < |s| => Letter(s[i]))
  }

  function Padding(n: nat): string {
    if n % 3 == 0 then "" else if n % 3 == 1 then "==" else "="
  }

  function Encoded(bytes: seq<Byte>): string {
    Letters(Sextets(bytes)) + Padding(|bytes|)
  }

  lemma LettersAppend(a: seq<Sextet>, b: seq<Sextet>)
    ensures Letters(a + b) == Letters(a) + Letters(b)
  {
  }

  /** Quotient and remainder, for the divisors in use. */
  lemma Divided(n: int, d: int, q: int, r: int)
    requires d in {4, 16, 64, 256, 4096, 262144, U32}
    requires n == d * q + r && 0 <= r < d
    ensures n / d == q && n % d == r
  {
  }

  /** The four sextets of one chunk, as the code shifts and masks them out. */
  lemma ChunkSextets(b0: Byte, b1: Byte, b2: Byte)
    ensures var triple: int, q := b0 * 65536 + b1 * 256 + b2, Quad(b0, b1, b2);
      && triple / 262144 % 64 == q[0] && triple / 4096 % 64 == q[1]
      && triple / 64 % 64 == q[2] && triple % 64 == q[3]
  {
    var triple: int := b0 * 65536 + b1 * 256 + b2;
    var q0: int, r0: int, q1: int, r1: int, q2: int, r2: int := b0 / 4, b0 % 4, b1 / 16, b1 % 16, b2 / 64, b2 % 64;
    Divided(triple, 262144, q0, r0 * 65536 + b1 * 256 + b2);
    Divided(q0, 64, 0, q0);
    Divided(triple, 4096, b0 * 16 + q1, r1 * 256 + b2);
    Divided(b0 * 16 + q1, 64, q0, r0 * 16 + q1);
    Divided(triple, 64, b0 * 1024 + b1 * 4 + q2, r2);
    Divided(b0 * 1024 + b1 * 4 + q2, 64, b0 * 16 + q1, r1 * 4 + q2);
  }

  /** The four characters of a chunk, from the sextets of its bytes filled up with zeros. */
  function ChunkText(q: seq<Sextet>, n: nat): string
    requires |q| == 4
  {
    [Letter(q[0]), Letter(q[1]), if n > 1 then Letter(q[2]) else '=', if n > 2 then Letter(q[3]) else '=']
  }

  lemma ChunkEncoded(chunk: seq<Byte>, b1: Byte, b2: Byte)
    requires 1 <= |chunk| <= 3
    requires b1 == (if |chunk| > 1 then chunk[1] else 0) && b2 == (if |chunk| > 2 then chunk[2] else 0)
    ensures Encoded(chunk) == ChunkText(Quad(chunk[0], b1, b2), |chunk|)
  {
    if |chunk| == 3 { SextetsOfThree(chunk); }
  }

  lemma SextetsOfThree(bytes: seq<Byte>)
    requires |bytes| == 3
    ensures Sextets(bytes) == Quad(bytes[0], bytes[1], bytes[2])
  {
    assert bytes[3..] == [];
  }

  lemma SextetsGroup(bytes: seq<Byte>)
    requires |bytes| >= 3
    ensures Sextets(bytes) == Sextets(bytes[..3]) + Sextets(bytes[3..])
  {
    SextetsOfThree(bytes[..3]);
  }

  lemma LettersPad(a: string, b: string, c: string)
    ensures a + b + c == a + "" + (b + c)
  {
  }

  /** A sequence is encoded chunk by chunk. */
  lemma EncodedSplit(bytes: seq<Byte>, n: nat)
    requires n <= |bytes| && (n == 3 || n == |bytes| < 3)
    ensures Encoded(bytes) == Encoded(bytes[..n]) + Encoded(bytes[n..])
  {
    if n == 3 {
      SextetsGroup(bytes);
      var a, b := Sextets(bytes[..3]), Sextets(bytes[3..]);
      LettersAppend(a, b);
      LettersPad(Letters(a), Letters(b), Padding(|bytes| - 3));
    } else {
      assert bytes[..n] == bytes;
    }
  }

  /** One chunk of one to three bytes. */
  method EncodeChunk(chunk: seq<Byte>) returns (quad: string)
    requires 1 <= |chunk| <= 3
    ensures quad == Encoded(chunk)
  {
    var b0 := chunk[0];
    var b1: Byte := if |chunk| > 1 then chunk[1] else 0;
    var b2: Byte := if |chunk| > 2 then chunk[2] else 0;
    var triple: int := b0 * 65536 + b1 * 256 + b2;
    ChunkSextets(b0, b1, b2);
    ChunkEncoded(chunk, b1, b2);
    quad := [Letter(triple / 262144 % 64), Letter(triple / 4096 % 64),
      if |chunk| > 1 then Letter(triple / 64 % 64) else '=',
      if |chunk| > 2 then Letter(triple % 64) else '='];
  }

  lemma EncodesNext(bytes: seq<Byte>, i: nat, n: nat, out: string)
    requires i + n <= |bytes| && (n == 3 || i + n == |bytes| < i + 3)
    ensures out + Encoded(bytes[i..]) == out + Encoded(bytes[i..i + n]) + Encoded(bytes[i + n..])
  {
    EncodedSplit(bytes[i..], n);
    assert bytes[i..][..n] == bytes[i..i + n] && bytes[i..][n..] == bytes[i + n..];
    StringAssoc(out, Encoded(bytes[i..i + n]), Encoded(bytes[i + n..]));
  }

  lemma StringAssoc(a: string, b: string, c: string)
    ensures a + (b + c) == a + b + c
  {
  }

  method Encode(bytes: seq<Byte>) returns (out: string)
    ensures out == Encoded(bytes)
  {
    out := "";
    var i := 0;
    while i < |bytes|
      invariant 0 <= i <= |bytes|
      invariant out + Encoded(bytes[i..]) == Encoded(bytes)
    {
      var n := if i + 3 <= |bytes| then 3 else |bytes| - i;
      var quad := EncodeChunk(bytes[i..i + n]);
      EncodesNext(bytes, i, n, out);
      out := out + quad;
      i := i + n;
    }
  }

  // --- Decoding -------------------------------------------------------------------------

  /** Without the padding at the end. */
  function Trim(s: string): (r: string)
    ensures r <= s && (r == "" || r[|r| - 1] != '=')
    ensures forall i | |r| <= i < |s| :: s[i] == '='
  {
    if s != "" && s[|s| - 1] == '=' then Trim(s[..|s| - 1]) else s
  }

  predicate InAlphabet(s: string) {
    forall i | 0 <= i < |s| :: Index(s[i]).Some?
  }

  function Indices(s: string): (r: seq<Sextet>)
    requires InAlphabet(s)
    ensures |r| == |s|
  {
    seq(|s|, i requires 0 <= i < |s| => Index(s[i]).value)
  }

  function Decoded(value: string): Option<seq<Byte>> {
    var trimmed := Trim(value);
    if InAlphabet(trimmed) then Some(Bytes(Indices(trimmed))) else None
  }

  /** What the accumulator holds of the last two sextets survives its wrap-around. */
  lemma Accumulate(buffer: int, last: int, x: int)
    requires 0 <= buffer < U32 && buffer % 64 == last && 0 <= x < 64
    ensures var next := buffer * 64 % U32 + x;
      && 0 <= next < U32 && next % 64 == x
      && next / 16 % 256 == Byte0(last, x) && next / 4 % 256 == Byte1(last, x) && next % 256 == Byte2(last, x)
  {
    var high := buffer / 64;
    var q, k := high / 0x10_0000, high % 0x10_0000;
    Divided(buffer * 64, U32, q, k * 4096 + last * 64);
    var next := buffer * 64 % U32 + x;
    assert next == k * 4096 + last * 64 + x;
    Divided(next, 64, k * 64 + last, x);
    Divided(next, 16, k * 256 + last * 4 + x / 16, x % 16);
    Divided(next / 16, 256, k, last * 4 + x / 16);
    Divided(next, 4, k * 1024 + last * 16 + x / 4, x % 4);
    Divided(next / 4, 256, k * 4 + last / 16, last % 16 * 16 + x / 4);
    Divided(next, 256, k * 16 + last / 4, last % 4 * 64 + x);
  }

  /** The bytes one more round of the loop pushes. */
  function Pushed(buffer: int, bits: nat): seq<Byte>
    requires 0 <= buffer
  {
    if bits < 8 then [] else [buffer / (if bits == 8 then 1 else if bits == 10 then 4 else 16) % 256]
  }

  lemma PushedCompletes(seen: seq<Sextet>, buffer: int, x: Sextet)
    requires 0 <= buffer < U32 && (seen != [] ==> buffer % 64 == seen[|seen| - 1])
    ensures var next := buffer * 64 % U32 + x;
      && 0 <= next < U32 && next % 64 == x
      && Pushed(next, 6 * |seen| % 8 + 6) == Completed(seen, x)
  {
    BitsHeld(|seen|);
    Accumulate(buffer, buffer % 64, x);
  }

  lemma BitsHeld(n: nat)
    ensures 6 * n % 8 == if n % 4 == 0 then 0 else if n % 4 == 1 then 6 else if n % 4 == 2 then 4 else 2
  {
  }

  /** What the loop has made of the first `i` characters. */
  ghost predicate DecodedSoFar(trimmed: string, i: nat, out: seq<Byte>, buffer: int, bits: int) {
    && i <= |trimmed| && InAlphabet(trimmed[..i]) && out == Bytes(Indices(trimmed[..i]))
    && 0 <= buffer < U32 && bits == 6 * i % 8
    && (i > 0 ==> buffer % 64 == Indices(trimmed[..i])[i - 1])
  }

  lemma DecodesNext(trimmed: string, i: nat, out: seq<Byte>, buffer: int, bits: int, x: Sextet)
    requires DecodedSoFar(trimmed, i, out, buffer, bits) && i < |trimmed| && Index(trimmed[i]) == Some(x)
    ensures var next := buffer * 64 % U32 + x;
      && next >= 0
      && DecodedSoFar(trimmed, i + 1, out + Pushed(next, bits + 6), next, if bits + 6 >= 8 then bits - 2 else bits + 6)
  {
    var seen := Indices(trimmed[..i]);
    PushedCompletes(seen, buffer, x);
    BytesSnoc(seen, x);
    IndicesSnoc(trimmed, i);
    BitsLeft(i);
  }

  /** The decoder: `bits` of the accumulator are not yet part of a byte. */
  method Decode(value: string) returns (r: Option<seq<Byte>>)
    ensures r == Decoded(value)
  {
    var trimmed := Trim(value);
    var out: seq<Byte> := [];
    var buffer: int, bits: int := 0, 0;
    for i := 0 to |trimmed|
      invariant DecodedSoFar(trimmed, i, out, buffer, bits)
    {
      var index := Index(trimmed[i]);
      if index.None? {
        assert !InAlphabet(trimmed);
        return None;
      }
      DecodesNext(trimmed, i, out, buffer, bits, index.value);
      buffer := buffer * 64 % U32 + index.value;
      bits := bits + 6;
      out := out + Pushed(buffer, bits);
      if bits >= 8 { bits := bits - 8; }
    }
    assert trimmed[..|trimmed|] == trimmed;
    r := Some(out);
  }

  lemma IndicesSnoc(s: string, i: nat)
    requires i < |s| && InAlphabet(s[..i]) && Index(s[i]).Some?
    ensures InAlphabet(s[..i + 1]) && Indices(s[..i + 1]) == Indices(s[..i]) + [Index(s[i]).value]
  {
    assert s[..i + 1] == s[..i] + [s[i]];
  }

  lemma BitsLeft(i: nat)
    ensures var bits := 6 * i % 8; 6 * (i + 1) % 8 == if bits + 6 >= 8 then bits - 2 else bits + 6
  {
  }

  // --- Together ----------------------------------------------------------------------------

  lemma TrimLetters(s: seq<Sextet>, n: nat)
    ensures Trim(Letters(s) + Padding(n)) == Letters(s)
  {
    var letters := Letters(s);
    if s != [] { LetterIndex(s[|s| - 1]); }
    assert Trim(letters) == letters;
    assert (letters + "=")[..|letters|] == letters;
    assert (letters + "==")[..|letters| + 1] == letters + "=";
    assert letters + "" == letters;
  }

  lemma LettersDecode(s: seq<Sextet>)
    ensures InAlphabet(Letters(s)) && Indices(Letters(s)) == s
  {
    forall i | 0 <= i < |s| ensures Index(Letters(s)[i]) == Some(s[i]) { LetterIndex(s[i]); }
  }

  /** The decoder undoes the encoder on every byte sequence. */
  lemma RoundTrip(bytes: seq<Byte>)
    ensures Decoded(Encoded(bytes)) == Some(bytes)
  {
    TrimLetters(Sextets(bytes), |bytes|);
    LettersDecode(Sextets(bytes));
    BytesOfSextets(bytes);
  }

  /** Decoding fails exactly on a character outside the alphabet before the padding, and
      otherwise yields six bits a character, rounded down to bytes. */
  lemma DecodedExactly(value: string)
    ensures Decoded(value).None? <==> exists i :: 0 <= i < |Trim(value)| && Index(value[i]).None?
    ensures Decoded(value).Some? ==> |Decoded(value).value| == 6 * |Trim(value)| / 8
  {
    var trimmed := Trim(value);
    assert forall i | 0 <= i < |trimmed| :: trimmed[i] == value[i];
    if InAlphabet(trimmed) { BytesLength(Indices(trimmed)); }
  }

  lemma {:induction false} SextetsLength(bytes: seq<Byte>)
    ensures |Sextets(bytes)| == (4 * |bytes| + 2) / 3
  {
    if |bytes| >= 3 { SextetsLength(bytes[3..]); }
  }

  lemma EncodedLength(bytes: seq<Byte>)
    ensures |Encoded(bytes)| == (|bytes| + 2) / 3 * 4
  {
    SextetsLength(bytes);
    var k, r := |bytes| / 3, |bytes| % 3;
    if r == 0 {
      assert (4 * |bytes| + 2) / 3 == 4 * k && (|bytes| + 2) / 3 == k;
    } else if r == 1 {
      assert (4 * |bytes| + 2) / 3 == 4 * k + 2 && (|bytes| + 2) / 3 == k + 1;
    } else {
      assert (4 * |bytes| + 2) / 3 == 4 * k + 3 && (|bytes| + 2) / 3 == k + 1;
    }
  }
}
