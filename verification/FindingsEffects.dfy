/** The text of a fingerprint, sign by sign. */
module FindingsEffects {
  import opened Prelude
  import opened Unicode
  import opened Encoding
  import opened Findings

  // ---------- strings ----------

  const HEX := "0123456789abcdef"

  function HexSign(n: nat): Text
    requires n < 16
  {
    [HEX[n] as int]
  }

  function Hexed(u: Unit): Text {
    ['\\' as int, 'u' as int] + HexSign(u / 4096) + HexSign(u / 256 % 16) + HexSign(u / 16 % 16) + HexSign(u % 16)
  }

  function Escape(letter: char): Text
    requires letter < '~'
  {
    ['\\' as int, letter as int]
  }

  // A character as it is written: quote, backslash and five others have their own escape,
  // the other controls and all beyond ASCII are written as their UTF-16 units.
  function Written(c: Scalar): Text {
    if c == '"' as int then Escape('"')
    else if c == '\\' as int then Escape('\\')
    else if c == 8 then Escape('b')
    else if c == 9 then Escape('t')
    else if c == 10 then Escape('n')
    else if c == 12 then Escape('f')
    else if c == 13 then Escape('r')
    else if 32 <= c < 128 then [c]
    else if c < 0x1_0000 then Hexed(c)
    else
      var rest: nat := c - 0x1_0000;
      Hexed(0xD800 + rest / 1024) + Hexed(0xDC00 + rest % 1024)
  }

  function AllWritten(text: Text): Text {
    if text == [] then [] else Written(text[0]) + AllWritten(text[1..])
  }

  function Quoted(text: Text): Text { ['"' as int] + AllWritten(text) + ['"' as int] }

  lemma HexIs(n: Nibble)
    ensures HexSign(n) == [Digit(n)]
  {
    if n < 10 { assert HEX[n] == '0' + (n as char); }
  }

  lemma HexedIs(u: Unit)
    ensures Hexed(u) == UnitEscape(u)
  {
    hide HexSign, Digit;
    HexIs(u / 4096);
    HexIs(u / 256 % 16);
    HexIs(u / 16 % 16);
    HexIs(u % 16);
  }

  lemma OneUnit(u: Unit)
    ensures UnitEscapes([u]) == UnitEscape(u)
  { }

  lemma TwoUnits(u: Unit, v: Unit)
    ensures UnitEscapes([u, v]) == UnitEscape(u) + UnitEscape(v)
  {
    assert [u, v][1..] == [v];
    OneUnit(v);
  }

  lemma WrittenIs(c: Scalar)
    ensures Written(c) == CharCode(c)
  {
    hide Hexed, UnitEscape, UnitEscapes;
    if c < 0x1_0000 {
      HexedIs(c);
      OneUnit(c);
    } else {
      var rest: nat := c - 0x1_0000;
      HexedIs(0xD800 + rest / 1024);
      HexedIs(0xDC00 + rest % 1024);
      TwoUnits(0xD800 + rest / 1024, 0xDC00 + rest % 1024);
    }
  }

  lemma {:induction false} QuotedIs(text: Text)
    ensures AllWritten(text) == Chars(text) && Quoted(text) == StrCode(text)
  {
    hide Written, CharCode;
    if text != [] {
      WrittenIs(text[0]);
      QuotedIs(text[1..]);
    }
  }

  // ---------- the whole text ----------

  // Texts one behind the other, with a comma and a space in between.
  function Listed(texts: seq<Text>): Text {
    if texts == [] then []
    else if |texts| == 1 then texts[0]
    else texts[0] + Ascii(", ") + Listed(texts[1..])
  }

  function Entry(key: string, value: Text): Text { Quoted(Ascii(key)) + Ascii(": ") + value }

  function Level(u: Urgency): string {
    match u
    case Now => "now"
    case Soon => "soon"
    case Eventually => "eventually"
    case Informational => "informational"
  }

  function Kind(l: Lifecycle): string { if l.Ongoing? then "ongoing" else "notice" }

  function Quotes(texts: seq<Text>): seq<Text> { seq(|texts|, i requires 0 <= i < |texts| => Quoted(texts[i])) }

  function Entries(f: Finding): seq<Text> {
    [Entry("actions", Ascii("[") + Listed(Quotes(f.actions)) + Ascii("]")),
     Entry("details", Quoted(f.details)),
     Entry("explanation", Quoted(f.explanation)),
     Entry("lifecycle", Quoted(Ascii(Kind(f.lifecycle)))),
     Entry("title", Quoted(f.title)),
     Entry("urgency", Quoted(Ascii(Level(f.urgency))))]
  }

  lemma {:induction false} RowsIs(rows: seq<Value>, texts: seq<Text>)
    requires |texts| == |rows| && forall i: nat {:trigger texts[i]} :: i < |texts| ==> texts[i] == Encoded(rows[i])
    ensures RowsCode(rows) == Listed(texts)
  {
    hide Encoded;
    assert Ascii(", ") == BETWEEN;
    if rows != [] {
      assert texts[0] == Encoded(rows[0]);
      RowsIs(rows[1..], texts[1..]);
    }
  }

  lemma {:induction false} MembersIs(members: seq<Member>, texts: seq<Text>)
    requires |texts| == |members|
    requires forall i: nat {:trigger texts[i]} :: i < |texts| ==> texts[i] == MemberCode(members[i])
    ensures MembersCode(members) == Listed(texts)
  {
    hide MemberCode;
    assert Ascii(", ") == BETWEEN;
    if members != [] {
      assert texts[0] == MemberCode(members[0]);
      MembersIs(members[1..], texts[1..]);
    }
  }

  lemma EntryIs(key: string, v: Value, value: Text)
    requires value == Encoded(v)
    ensures Entry(key, value) == MemberCode(Member(Ascii(key), v))
  {
    hide Encoded, Quoted, StrCode;
    QuotedIs(Ascii(key));
    assert Ascii(": ") == COLON_SPACE;
  }

  function Strs(texts: seq<Text>): seq<Value> { seq(|texts|, i requires 0 <= i < |texts| => Str(texts[i])) }

  lemma ListIs(texts: seq<Text>)
    ensures Ascii("[") + Listed(Quotes(texts)) + Ascii("]") ==
            Encoded(Arr(Strs(texts)))
  {
    hide Quoted, StrCode;
    var rows := Strs(texts);
    forall i: nat | i < |texts| ensures Quotes(texts)[i] == Encoded(rows[i]) { QuotedIs(texts[i]); }
    RowsIs(rows, Quotes(texts));
    assert Ascii("[") == [BRACKET] && Ascii("]") == [UNBRACKET];
  }

  /**
   The text of a fingerprint: a list of the fields by their names and the diagnostic,
   written as JSON in ASCII, with a space behind each comma and colon.
   */
  lemma SignatureEffect(f: Finding)
    ensures Signature(f) ==
            Ascii("[{") +
            Listed(Entries(f)) +
            Ascii("}, ") + (if f.diagnostic.None? then Ascii("null") else Quoted(f.diagnostic.value)) + Ascii("]")
  {
    hide Quoted, StrCode, Entry, Listed, MembersCode, Quotes, Members, Entries;
    if f.diagnostic.Some? { QuotedIs(f.diagnostic.value); }
    Fields(f);
    Framed(f);
  }

  function Members(f: Finding): seq<Member> {
    [Member(Ascii("actions"), Arr(Strs(f.actions))),
     Member(Ascii("details"), Str(f.details)),
     Member(Ascii("explanation"), Str(f.explanation)),
     Member(Ascii("lifecycle"), Str(Ascii(Kind(f.lifecycle)))),
     Member(Ascii("title"), Str(f.title)),
     Member(Ascii("urgency"), Str(Ascii(Level(f.urgency))))]
  }

  lemma Named(f: Finding)
    ensures Ascii(Level(f.urgency)) == UrgencyName(f.urgency) && Ascii(Kind(f.lifecycle)) == LifecycleName(f.lifecycle)
  { }

  lemma TextEntry(key: string, text: Text)
    ensures Entry(key, Quoted(text)) == MemberCode(Member(Ascii(key), Str(text)))
  {
    hide Quoted, StrCode, Entry, MemberCode;
    QuotedIs(text);
    EntryIs(key, Str(text), Quoted(text));
  }

  lemma ListEntry(key: string, texts: seq<Text>)
    ensures Entry(key, Ascii("[") + Listed(Quotes(texts)) + Ascii("]")) ==
            MemberCode(Member(Ascii(key), Arr(Strs(texts))))
  {
    hide Entry, MemberCode, Listed, Quotes, Encoded;
    ListIs(texts);
    EntryIs(key, Arr(Strs(texts)), Ascii("[") + Listed(Quotes(texts)) + Ascii("]"));
  }

  lemma Fields(f: Finding)
    ensures MembersCode(Members(f)) == Listed(Entries(f))
  {
    hide Quoted, Entry, MemberCode, Listed, Quotes, MembersCode, Ascii, Level, Kind, UrgencyName, LifecycleName;
    Named(f);
    ListEntry("actions", f.actions);
    TextEntry("details", f.details);
    TextEntry("explanation", f.explanation);
    TextEntry("lifecycle", Ascii(Kind(f.lifecycle)));
    TextEntry("title", f.title);
    TextEntry("urgency", Ascii(Level(f.urgency)));
    var members, entries := Members(f), Entries(f);
    assert |members| == 6 && |entries| == 6;
    assert entries[0] == MemberCode(members[0]) && entries[1] == MemberCode(members[1]);
    assert entries[2] == MemberCode(members[2]) && entries[3] == MemberCode(members[3]);
    assert entries[4] == MemberCode(members[4]) && entries[5] == MemberCode(members[5]);
    MembersIs(members, entries);
  }

  lemma Framed(f: Finding)
    ensures Signature(f) == Ascii("[{") + MembersCode(Members(f)) + Ascii("}, ")
                            + (if f.diagnostic.None? then Ascii("null") else StrCode(f.diagnostic.value)) + Ascii("]")
  {
    hide MembersCode, StrCode, RowsCode, Members, Ascii;
    ValueIs(f);
    Parts(Members(f), if f.diagnostic.None? then Null else Str(f.diagnostic.value));
    Signs();
  }

  lemma ValueIs(f: Finding)
    ensures FindingValue(f) == Arr([Obj(Members(f)), if f.diagnostic.None? then Null else Str(f.diagnostic.value)])
  {
    hide Ascii, UrgencyName, LifecycleName, Level, Kind;
    Named(f);
    assert Strs(f.actions) == FindingValue(f).rows[0].members[0].value.rows;
  }

  lemma Parts(members: seq<Member>, v: Value)
    ensures Encoded(Arr([Obj(members), v])) ==
            [BRACKET, BRACE] + MembersCode(members) + ([UNBRACE] + BETWEEN) + Encoded(v) + [UNBRACKET]
  {
    hide MembersCode, RowsCode;
    TwoRows(Obj(members), v);
    var m, e := MembersCode(members), Encoded(v);
    assert Encoded(Obj(members)) == [BRACE] + (m + [UNBRACE]);
  }

  lemma Signs()
    ensures Ascii("[{") == [BRACKET, BRACE] && Ascii("}, ") == [UNBRACE] + BETWEEN
    ensures Ascii("null") == NULL == Encoded(Null) && Ascii("]") == [UNBRACKET]
  { }

  lemma TwoRows(v: Value, w: Value)
    ensures RowsCode([v, w]) == Encoded(v) + (BETWEEN + Encoded(w))
  {
    hide Encoded;
    assert [v, w][1..] == [w];
    assert RowsCode([w]) == Encoded(w);
  }
}
