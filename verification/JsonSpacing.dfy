/** What the accepted texts mean for the printer: its text is the document without white space,
    and every way of spacing that text out is read alike. */
module JsonSpacing {
  import opened Common
  import opened JsonValue
  import opened JsonPrinter
  import opened JsonGrammar
  import opened JsonUnicode
  import opened JsonRoundTrip
  import opened JsonTexts

  // --- White space between tokens ---------------------------------------------------

  /** The same tokens with nothing between them. */
  function Squeeze(l: Layout): Layout
    decreases l
  {
    match l
    case List(_, items) => List("", SqueezeItems(items))
    case Record(_, entries) => Record("", SqueezeEntries(entries))
    case _ => l
  }

  function SqueezeSlot(slot: Slot): Slot
    decreases slot
  {
    Slot("", Squeeze(slot.layout), "")
  }

  function SqueezeItems(items: seq<Slot>): (r: seq<Slot>)
    ensures |r| == |items|
    decreases items
  {
    if items == [] then [] else [SqueezeSlot(items[0])] + SqueezeItems(items[1..])
  }

  function SqueezeEntry(e: Entry): Entry
    decreases e
  {
    Entry("", e.key, "", SqueezeSlot(e.slot))
  }

  function SqueezeEntries(entries: seq<Entry>): (r: seq<Entry>)
    ensures |r| == |entries|
    decreases entries
  {
    if entries == [] then [] else [SqueezeEntry(entries[0])] + SqueezeEntries(entries[1..])
  }

  lemma {:induction false} SqueezeMeans(lib: FloatLib, l: Layout)
    requires Valid(lib, l)
    ensures Valid(lib, Squeeze(l)) && Means(lib, Squeeze(l)) == Means(lib, l) && Depth(Squeeze(l)) == Depth(l)
    decreases l, 1
  {
    match l {
      case List(_, items) => SqueezeItemsMean(lib, items);
      case Record(_, entries) => SqueezeEntriesMean(lib, entries);
      case _ =>
    }
  }

  lemma {:induction false} SqueezeItemsMean(lib: FloatLib, items: seq<Slot>)
    requires ItemsValid(lib, items)
    ensures var r := SqueezeItems(items);
      ItemsValid(lib, r) && ItemsMean(lib, r) == ItemsMean(lib, items) && ItemsDepth(r) == ItemsDepth(items)
    decreases items, 0
  {
    if items != [] {
      assert SlotValid(lib, items[0]);
      SqueezeMeans(lib, items[0].layout);
      assert SlotValid(lib, SqueezeSlot(items[0]));
      SqueezeItemsMean(lib, items[1..]);
      assert SqueezeItems(items)[1..] == SqueezeItems(items[1..]);
    }
  }

  lemma {:induction false} SqueezeEntriesMean(lib: FloatLib, entries: seq<Entry>)
    requires EntriesValid(lib, entries)
    ensures var r := SqueezeEntries(entries);
      && EntriesValid(lib, r) && EntriesMean(lib, r) == EntriesMean(lib, entries)
      && EntriesDepth(r) == EntriesDepth(entries)
    decreases entries, 0
  {
    if entries != [] {
      var e := entries[0];
      assert EntryValid(lib, e) && SlotValid(lib, e.slot);
      SqueezeMeans(lib, e.slot.layout);
      assert SlotValid(lib, SqueezeSlot(e.slot)) && EntryValid(lib, SqueezeEntry(e));
      assert EntryMeans(lib, SqueezeEntry(e)) == EntryMeans(lib, e);
      SqueezeEntriesMean(lib, entries[1..]);
      assert SqueezeEntries(entries)[1..] == SqueezeEntries(entries[1..]);
    }
  }

  lemma SqueezedMeans(lib: FloatLib, v: Value, doc: Slot)
    requires WellFormed(v) && DoubleFree(v)
    requires SlotValid(lib, doc) && SlotWritten(SqueezeSlot(doc), "") == Text(lib, v)
    ensures if Height(v) <= 32 then Depth(doc.layout) <= 32 && Means(lib, doc.layout) == v else Depth(doc.layout) > 32
  {
    RoundTrip(lib, v);
    SqueezeMeans(lib, doc.layout);
    assert SlotValid(lib, SqueezeSlot(doc));
    DocumentRead(lib, SqueezeSlot(doc), "");
  }

  lemma BlankLiteral(s: string)
    ensures Blank(s) <==> forall i | 0 <= i < |s| :: s[i] in " \t\n\r"
  {
  }

  /** Printed with any runs of spaces, tabs, line feeds and carriage returns around its tokens, a
      double-free value of height at most 32 parses back to itself; a taller one is refused; and
      with anything else after it, nothing is read. */
  lemma SpacedRoundTrip(lib: FloatLib, v: Value, doc: Slot, tail: string)
    requires WellFormed(v) && DoubleFree(v)
    requires SlotValid(lib, doc) && SlotWritten(SqueezeSlot(doc), "") == Text(lib, v)
    requires Apart(doc, tail)
    ensures Parse(lib, SlotWritten(doc, tail))
         == if Height(v) <= 32 && (forall i | 0 <= i < |tail| :: tail[i] in " \t\n\r") then Some(v) else None
  {
    SqueezedMeans(lib, v, doc);
    BlankLiteral(tail);
    DocumentRead(lib, doc, tail);
  }

  /** The exception: digits after a number make another number. */
  lemma DigitsJoin(lib: FloatLib)
    ensures Text(lib, Int(1)) == "1" && Parse(lib, Text(lib, Int(1)) + "2") == Some(Int(12))
  {
    assert "1" + "" == "1" && Digits(1) == "1";
    var doc := Slot("", Whole("", 0, 12), "");
    assert Digits(12) == "12";
    assert SlotWritten(doc, "") == "12";
    DocumentRead(lib, doc, "");
  }

  // --- The printed text as a document -------------------------------------------------

  /** How a character is printed: the seven short escapes, other control characters as `\u00` and
      two lower-case hex digits, anything else as it is. */
  function PieceOf(c: char): Piece {
    if c == '"' || c == '\\' then Short(c)
    else if c == '\U{08}' then Short('b')
    else if c == '\U{0C}' then Short('f')
    else if c == '\n' then Short('n')
    else if c == '\r' then Short('r')
    else if c == '\t' then Short('t')
    else if c < ' ' then Long(Single("00" + ["01"[c as nat / 16], "0123456789abcdef"[c as nat % 16]]))
    else Plain(c)
  }

  function PiecesOf(s: string): seq<Piece> {
    if s == "" then [] else [PieceOf(s[0])] + PiecesOf(s[1..])
  }

  /** The document without white space that means `v`. */
  function Compact(v: Value): Layout
    requires DoubleFree(v)
    decreases v
  {
    match v
    case Null => NullWord
    case Bool(b) => BoolWord(b)
    case Int(i) => Whole(if i < 0 then "-" else "", 0, if i < 0 then 0 - i else i)
    case Str(s) => Quote(PiecesOf(s))
    case Arr(items) => List("", CompactItems(items))
    case Obj(members) => Record("", CompactMembers(members))
  }

  function CompactItems(items: seq<Value>): (r: seq<Slot>)
    requires forall x | x in items :: DoubleFree(x)
    ensures |r| == |items|
    decreases items
  {
    if items == [] then [] else [Slot("", Compact(items[0]), "")] + CompactItems(items[1..])
  }

  function CompactMembers(members: Object): (r: seq<Entry>)
    requires forall m | m in members :: DoubleFree(m.value)
    ensures |r| == |members|
    decreases members
  {
    if members == [] then []
    else
      var m := members[0];
      [Entry("", PiecesOf(m.key), "", Slot("", Compact(m.value), ""))] + CompactMembers(members[1..])
  }

  lemma ControlSpelled(c: char)
    requires PieceOf(c).Long?
    ensures PieceOf(c).Valid() && PieceOf(c).Means() == [c] && EscapeChar(c) == PieceOf(c).Spelling()
  {
    var n := c as nat;
    var h := PieceOf(c).escaped.hex;
    assert h == ['0', '0', HexDigit(n / 16, false), HexDigit(n % 16, false)];
    HexDigitRead(n / 16, false);
    HexDigitRead(n % 16, false);
    assert Hex4Value(h) == n;
  }

  lemma CharSpelled(c: char)
    ensures PieceOf(c).Valid() && PieceOf(c).Means() == [c] && EscapeChar(c) == PieceOf(c).Spelling()
  {
    if PieceOf(c).Long? {
      ControlSpelled(c);
    }
  }

  lemma {:induction false} StringSpelled(s: string, post: string)
    ensures PiecesValid(PiecesOf(s)) && PiecesMean(PiecesOf(s)) == s
    ensures Spelled(PiecesOf(s), post) == Escape(s, post)
  {
    if s != "" {
      CharSpelled(s[0]);
      StringSpelled(s[1..], post);
      assert PiecesOf(s)[1..] == PiecesOf(s[1..]);
      assert [s[0]] + s[1..] == s;
    }
  }

  /** The printed text of a double-free value is its compact document, character by character. */
  lemma {:induction false} PrintsCompact(lib: FloatLib, v: Value, post: string)
    requires DoubleFree(v)
    ensures Written(Compact(v), post) == Print(lib, v, post)
    decreases v
  {
    match v {
      case Null =>
      case Bool(_) =>
      case Int(i) =>
        var digits := Digits(if i < 0 then 0 - i else i);
        assert Zeros(0) + (digits + post) == digits + post;
        assert "-" + (digits + post) == "-" + digits + post && "" + (digits + post) == digits + post;
      case Str(s) => StringSpelled(s, "\"" + post);
      case Arr(items) =>
        ItemsCompact(lib, items, "]" + post);
        assert "" + ItemsWritten(CompactItems(items), "]" + post) == ItemsWritten(CompactItems(items), "]" + post);
      case Obj(members) =>
        MembersCompact(lib, members, "}" + post);
        var body := EntriesWritten(CompactMembers(members), "}" + post);
        assert "" + body == body;
    }
  }

  lemma SlotCompact(lib: FloatLib, l: Layout, post: string)
    ensures SlotWritten(Slot("", l, ""), post) == Written(l, post)
  {
    assert "" + post == post && "" + Written(l, post) == Written(l, post);
  }

  lemma {:induction false} ItemsCompact(lib: FloatLib, items: seq<Value>, post: string)
    requires forall x | x in items :: DoubleFree(x)
    ensures ItemsWritten(CompactItems(items), post) == PrintItems(lib, items, true, post)
    decreases items
  {
    if items != [] {
      var others := CompactItems(items[1..]);
      assert CompactItems(items)[1..] == others;
      var tail := PrintItems(lib, items[1..], false, post);
      ItemsCompact(lib, items[1..], post);
      PrintsCompact(lib, items[0], tail);
      SlotCompact(lib, Compact(items[0]), tail);
    }
  }

  lemma {:induction false} MembersCompact(lib: FloatLib, members: Object, post: string)
    requires forall m | m in members :: DoubleFree(m.value)
    ensures EntriesWritten(CompactMembers(members), post) == PrintMembers(lib, members, true, post)
    decreases members
  {
    if members != [] {
      var m, others := members[0], CompactMembers(members[1..]);
      assert CompactMembers(members)[1..] == others;
      var tail := PrintMembers(lib, members[1..], false, post);
      MembersCompact(lib, members[1..], post);
      PrintsCompact(lib, m.value, tail);
      SlotCompact(lib, Compact(m.value), tail);
      var rest := ":" + Print(lib, m.value, tail);
      StringSpelled(m.key, "\"" + rest);
      assert "" + rest == rest;
      assert "" + ("\"" + Escape(m.key, "\"" + rest)) == "\"" + Escape(m.key, "\"" + rest);
    }
  }

  lemma {:induction false} CompactMeans(lib: FloatLib, v: Value)
    requires DoubleFree(v) && WellFormed(v)
    ensures Valid(lib, Compact(v)) && Means(lib, Compact(v)) == v && Squeeze(Compact(v)) == Compact(v)
    decreases v
  {
    match v {
      case Null =>
      case Bool(_) =>
      case Int(_) =>
      case Str(s) => StringSpelled(s, "");
      case Arr(items) => ItemsCompactMean(lib, items);
      case Obj(members) =>
        MembersCompactMean(lib, members);
        CollapseAscending(members);
    }
  }

  lemma {:induction false} ItemsCompactMean(lib: FloatLib, items: seq<Value>)
    requires forall x | x in items :: DoubleFree(x) && WellFormed(x)
    ensures var r := CompactItems(items);
      ItemsValid(lib, r) && ItemsMean(lib, r) == items && SqueezeItems(r) == r
    decreases items
  {
    if items != [] {
      var r := CompactItems(items);
      CompactMeans(lib, items[0]);
      assert SlotValid(lib, r[0]);
      ItemsCompactMean(lib, items[1..]);
      assert r[1..] == CompactItems(items[1..]);
      assert items == [items[0]] + items[1..];
    }
  }

  lemma EntryCompact(lib: FloatLib, m: Member, l: Layout)
    requires Valid(lib, l) && Means(lib, l) == m.value && Squeeze(l) == l
    ensures var e := Entry("", PiecesOf(m.key), "", Slot("", l, ""));
      EntryValid(lib, e) && EntryMeans(lib, e) == m && SqueezeEntry(e) == e
  {
    StringSpelled(m.key, "");
    assert SlotValid(lib, Slot("", l, ""));
  }

  lemma {:induction false} MembersCompactMean(lib: FloatLib, members: Object)
    requires forall m | m in members :: DoubleFree(m.value) && WellFormed(m.value)
    ensures var r := CompactMembers(members);
      EntriesValid(lib, r) && EntriesMean(lib, r) == members && SqueezeEntries(r) == r
    decreases members
  {
    if members != [] {
      var r, m := CompactMembers(members), members[0];
      CompactMeans(lib, m.value);
      EntryCompact(lib, m, Compact(m.value));
      MembersCompactMean(lib, members[1..]);
      assert r[1..] == CompactMembers(members[1..]);
      assert members == [m] + members[1..];
    }
  }

  /** So the printer writes a valid document with no white space between tokens. */
  lemma TextIsCompact(lib: FloatLib, v: Value)
    requires DoubleFree(v) && WellFormed(v)
    ensures var doc := Slot("", Compact(v), "");
      && SlotValid(lib, doc) && SqueezeSlot(doc) == doc && SlotWritten(doc, "") == Text(lib, v)
      && Means(lib, doc.layout) == v
  {
    CompactMeans(lib, v);
    PrintsCompact(lib, v, "");
    SlotCompact(lib, Compact(v), "");
  }
}
