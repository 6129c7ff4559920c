/** Printing: what the printed text of a value is, and the printer that appends it to a
    shared string. */
module JsonPrinter {
  import opened Common
  import opened JsonValue

  // --- The printed text -----------------------------------------------------------

  function EscapeChar(c: char): string {
    if c == '"' then "\\\""
    else if c == '\\' then "\\\\"
    else if c == '\U{08}' then "\\b"
    else if c == '\U{0C}' then "\\f"
    else if c == '\n' then "\\n"
    else if c == '\r' then "\\r"
    else if c == '\t' then "\\t"
    else if c < '\U{20}' then "\\u00" + [HexDigit(c as nat / 16, false), HexDigit(c as nat % 16, false)]
    else [c]
  }

  // Each printing function takes the text that follows, so that no proof has to
  // re-associate a concatenation; PrintAppend shows that `post` is only appended.

  function Escape(s: string, post: string): string {
    if s == "" then post else EscapeChar(s[0]) + Escape(s[1..], post)
  }

  function Quoted(s: string, post: string): string {
    "\"" + Escape(s, "\"" + post)
  }

  function Digit(n: nat): char
    requires n < 10
  {
    '0' + n as char
  }

  function Digits(n: nat): string {
    if n < 10 then [Digit(n)] else Digits(n / 10) + [Digit(n % 10)]
  }

  /** `std::to_string`. */
  function Decimal(i: int): string {
    if i < 0 then "-" + Digits(-i) else Digits(i)
  }

  /** The printed text of `v`, followed by `post`. */
  function Print(lib: FloatLib, v: Value, post: string): string
    decreases v
  {
    match v
    case Null => "null" + post
    case Bool(b) => (if b then "true" else "false") + post
    case Int(i) => Decimal(i) + post
    case Double(bits) => lib.show(bits) + post
    case Str(s) => Quoted(s, post)
    case Arr(items) => "[" + PrintItems(lib, items, true, "]" + post)
    case Obj(members) => "{" + PrintMembers(lib, members, true, "}" + post)
  }

  function Separated(first: bool, text: string): string {
    if first then text else "," + text
  }

  function PrintItems(lib: FloatLib, items: seq<Value>, first: bool, post: string): string
    decreases items
  {
    if items == [] then post
    else Separated(first, Print(lib, items[0], PrintItems(lib, items[1..], false, post)))
  }

  function PrintMembers(lib: FloatLib, members: Object, first: bool, post: string): string
    decreases members
  {
    if members == [] then post
    else Separated(first, PrintMember(lib, members[0], PrintMembers(lib, members[1..], false, post)))
  }

  function PrintMember(lib: FloatLib, m: Member, post: string): string
    decreases m
  {
    Quoted(m.key, ":" + Print(lib, m.value, post))
  }

  function Text(lib: FloatLib, v: Value): string {
    Print(lib, v, "")
  }

  // --- `post` is only appended --------------------------------------------------

  lemma Assoc(a: string, b: string, c: string)
    ensures a + b + c == a + (b + c)
  {
  }

  lemma {:induction false} EscapeAppend(s: string, a: string, b: string)
    ensures Escape(s, a + b) == Escape(s, a) + b
  {
    if s != "" {
      EscapeAppend(s[1..], a, b);
      Assoc(EscapeChar(s[0]), Escape(s[1..], a), b);
    }
  }

  lemma QuotedAppend(s: string, a: string, b: string)
    ensures Quoted(s, a + b) == Quoted(s, a) + b
  {
    Assoc("\"", a, b);
    EscapeAppend(s, "\"" + a, b);
    Assoc("\"", Escape(s, "\"" + a), b);
  }

  lemma {:induction false} PrintAppend(lib: FloatLib, v: Value, a: string, b: string)
    ensures Print(lib, v, a + b) == Print(lib, v, a) + b
    decreases v
  {
    match v {
      case Null => Assoc("null", a, b);
      case Bool(x) => Assoc(if x then "true" else "false", a, b);
      case Int(i) => Assoc(Decimal(i), a, b);
      case Double(bits) => Assoc(lib.show(bits), a, b);
      case Str(s) => QuotedAppend(s, a, b);
      case Arr(items) =>
        Assoc("]", a, b);
        ItemsAppend(lib, items, true, "]" + a, b);
        Assoc("[", PrintItems(lib, items, true, "]" + a), b);
      case Obj(members) =>
        Assoc("}", a, b);
        MembersAppend(lib, members, true, "}" + a, b);
        Assoc("{", PrintMembers(lib, members, true, "}" + a), b);
    }
  }

  lemma {:induction false} ItemsAppend(lib: FloatLib, items: seq<Value>, first: bool, a: string, b: string)
    ensures PrintItems(lib, items, first, a + b) == PrintItems(lib, items, first, a) + b
    decreases items
  {
    if items != [] {
      var rest := PrintItems(lib, items[1..], false, a);
      ItemsAppend(lib, items[1..], false, a, b);
      PrintAppend(lib, items[0], rest, b);
      Assoc(",", Print(lib, items[0], rest), b);
    }
  }

  lemma {:induction false} MembersAppend(lib: FloatLib, members: Object, first: bool, a: string, b: string)
    ensures PrintMembers(lib, members, first, a + b) == PrintMembers(lib, members, first, a) + b
    decreases members
  {
    if members != [] {
      var rest := PrintMembers(lib, members[1..], false, a);
      MembersAppend(lib, members[1..], false, a, b);
      MemberAppend(lib, members[0], rest, b);
      Assoc(",", PrintMember(lib, members[0], rest), b);
    }
  }

  lemma {:induction false} MemberAppend(lib: FloatLib, m: Member, a: string, b: string)
    ensures PrintMember(lib, m, a + b) == PrintMember(lib, m, a) + b
    decreases m
  {
    PrintAppend(lib, m.value, a, b);
    Assoc(":", Print(lib, m.value, a), b);
    QuotedAppend(m.key, ":" + Print(lib, m.value, a), b);
  }

  // --- The printer ----------------------------------------------------------------

  /** The `std::string& out` every printing function appends to. */
  class Sink {
    var out: string

    constructor ()
      ensures out == ""
    {
      out := "";
    }

    method EscapeInto(s: string)
      modifies this
      ensures out == old(out) + Quoted(s, "")
    {
      out := out + "\"";
      var i := 0;
      while i < |s|
        invariant 0 <= i <= |s|
        invariant out + Escape(s[i..], "\"") == old(out) + "\"" + Escape(s, "\"")
      {
        var c := s[i];
        ghost var before := out;
        assert s[i..][1..] == s[i + 1..];
        match c {
          case '"' => out := out + "\\\"";
          case '\\' => out := out + "\\\\";
          case '\U{08}' => out := out + "\\b";
          case '\U{0C}' => out := out + "\\f";
          case '\n' => out := out + "\\n";
          case '\r' => out := out + "\\r";
          case '\t' => out := out + "\\t";
          case _ =>
            if c < '\U{20}' {
              out := out + "\\u00" + [HexDigit(c as nat / 16, false), HexDigit(c as nat % 16, false)];
            } else {
              out := out + [c];
            }
        }
        assert out == before + EscapeChar(c);
        Assoc(before, EscapeChar(c), Escape(s[i + 1..], "\""));
        i := i + 1;
      }
      assert "\"" + "" == "\"";
      Assoc(old(out), "\"", Escape(s, "\""));
      out := out + "\"";
    }

    method SerializeInto(lib: FloatLib, v: Value)
      modifies this
      ensures out == old(out) + Text(lib, v)
      decreases v
    {
      match v {
        case Null => out := out + "null";
        case Bool(b) => out := out + if b then "true" else "false";
        case Int(i) => out := out + Decimal(i);
        case Double(bits) => out := out + lib.show(bits);
        case Str(s) => EscapeInto(s);
        case Arr(items) =>
          ItemsInto(lib, items);
          assert "]" + "" == "]";
        case Obj(members) =>
          MembersInto(lib, members);
          assert "}" + "" == "}";
      }
    }

    /** The array case of `serialize_into`. */
    method ItemsInto(lib: FloatLib, items: seq<Value>)
      modifies this
      ensures out == old(out) + ("[" + PrintItems(lib, items, true, "]"))
      decreases items
    {
      out := out + "[";
      var first := true;
      var i := 0;
      while i < |items|
        invariant 0 <= i <= |items|
        invariant out + PrintItems(lib, items[i..], first, "]") == old(out) + "[" + PrintItems(lib, items, true, "]")
      {
        ItemsStep(lib, items, i, first, out);
        out := out + if first then "" else ",";
        SerializeInto(lib, items[i]);
        first := false;
        i := i + 1;
      }
      Assoc(old(out), "[", PrintItems(lib, items, true, "]"));
      out := out + "]";
    }

    /** The object case of `serialize_into`. */
    method MembersInto(lib: FloatLib, members: Object)
      modifies this
      ensures out == old(out) + ("{" + PrintMembers(lib, members, true, "}"))
      decreases members
    {
      out := out + "{";
      var first := true;
      var i := 0;
      while i < |members|
        invariant 0 <= i <= |members|
        invariant out + PrintMembers(lib, members[i..], first, "}")
               == old(out) + "{" + PrintMembers(lib, members, true, "}")
      {
        MembersStep(lib, members, i, first, out);
        out := out + if first then "" else ",";
        EscapeInto(members[i].key);
        out := out + ":";
        SerializeInto(lib, members[i].value);
        first := false;
        i := i + 1;
      }
      Assoc(old(out), "{", PrintMembers(lib, members, true, "}"));
      out := out + "}";
    }
  }

  lemma SeparatedStep(before: string, first: bool, piece: string, rest: string)
    ensures before + Separated(first, piece + rest) == before + (if first then "" else ",") + piece + rest
  {
    if first {
      assert before + "" == before;
      Assoc(before, piece, rest);
    } else {
      Assoc(before, ",", piece + rest);
      Assoc(before + ",", piece, rest);
    }
  }

  lemma ItemsStep(lib: FloatLib, items: seq<Value>, i: nat, first: bool, before: string)
    requires i < |items|
    ensures before + PrintItems(lib, items[i..], first, "]")
         == before + (if first then "" else ",") + Text(lib, items[i]) + PrintItems(lib, items[i + 1..], false, "]")
  {
    var rest := PrintItems(lib, items[i + 1..], false, "]");
    assert items[i..][1..] == items[i + 1..] && "" + rest == rest;
    PrintAppend(lib, items[i], "", rest);
    SeparatedStep(before, first, Text(lib, items[i]), rest);
  }

  lemma MembersStep(lib: FloatLib, members: Object, i: nat, first: bool, before: string)
    requires i < |members|
    ensures before + PrintMembers(lib, members[i..], first, "}")
         == before + (if first then "" else ",") + Quoted(members[i].key, "") + ":" + Text(lib, members[i].value)
            + PrintMembers(lib, members[i + 1..], false, "}")
  {
    var m, rest := members[i], PrintMembers(lib, members[i + 1..], false, "}");
    assert members[i..][1..] == members[i + 1..] && "" + rest == rest;
    MemberAppend(lib, m, "", rest);
    MemberParts(lib, m, before + if first then "" else ",");
    SeparatedStep(before, first, PrintMember(lib, m, ""), rest);
  }

  lemma MemberParts(lib: FloatLib, m: Member, before: string)
    ensures before + PrintMember(lib, m, "") == before + Quoted(m.key, "") + ":" + Text(lib, m.value)
  {
    var value := Text(lib, m.value);
    assert "" + (":" + value) == ":" + value;
    QuotedAppend(m.key, "", ":" + value);
    Assoc(before, Quoted(m.key, ""), ":" + value);
    Assoc(before + Quoted(m.key, ""), ":", value);
  }

  method Serialize(lib: FloatLib, v: Value) returns (text: string)
    ensures text == Text(lib, v)
  {
    var sink := new Sink();
    sink.SerializeInto(lib, v);
    text := sink.out;
  }
}
