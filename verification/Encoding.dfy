/**
 The canonical text that a maintenance finding is fingerprinted by, and its
 decoder: different findings have different texts.
 */
module Encoding {
  import opened Prelude
  import opened Slices
  import opened Unicode

  type Text = seq<Scalar>
  type Code = seq<Byte>

  // The JSON values that occur in a finding. Members are sorted by key.
  datatype Value =
    | Null
    | Str(text: Text)
    | Arr(rows: seq<Value>)
    | Obj(members: seq<Member>)

  datatype Member = Member(key: Text, value: Value)

  const COMMA: Byte := 0x2C
  const BRACKET: Byte := 0x5B
  const UNBRACKET: Byte := 0x5D
  const SPACE: Byte := 0x20
  const LETTER_U: Byte := 0x75

  const NULL: Code := [0x6E, 0x75, 0x6C, 0x6C]
  const BETWEEN: Code := [COMMA, SPACE]
  const COLON_SPACE: Code := [COLON, SPACE]

  // ---------- strings ----------

  type Nibble = n: int | 0 <= n < 0x10

  function Digit(n: Nibble): Byte {
    if n < 10 then 0x30 + n else 0x61 + (n - 10)
  }

  function UnitEscape(u: Unit): Code {
    [BACKSLASH, LETTER_U, Digit(u / 0x1000), Digit(u / 0x100 % 0x10), Digit(u / 0x10 % 0x10), Digit(u % 0x10)]
  }

  function UnitEscapes(units: seq<Unit>): Code {
    if units == [] then [] else UnitEscape(units[0]) + UnitEscapes(units[1..])
  }

  // The letter of a two-character escape.
  function Short(c: Scalar): Option<Byte> {
    if c == 0x22 then Some(QUOTE)
    else if c == 0x5C then Some(BACKSLASH)
    else if c == 0x08 then Some(0x62)
    else if c == 0x09 then Some(0x74)
    else if c == 0x0A then Some(0x6E)
    else if c == 0x0C then Some(0x66)
    else if c == 0x0D then Some(0x72)
    else None
  }

  function CharCode(c: Scalar): Code {
    if Short(c).Some? then [BACKSLASH, Short(c).value]
    else if c < 0x20 then UnitEscape(c)
    else if c < 0x80 then [c]
    else UnitEscapes(Utf16(c))
  }

  function Chars(text: Text): Code {
    if text == [] then [] else CharCode(text[0]) + Chars(text[1..])
  }

  // ---------- values ----------

  function Encoded(v: Value): Code {
    match v
    case Null => NULL
    case Str(text) => StrCode(text)
    case Arr(rows) => [BRACKET] + (RowsCode(rows) + [UNBRACKET])
    case Obj(members) => [BRACE] + (MembersCode(members) + [UNBRACE])
  }

  function StrCode(text: Text): Code { [QUOTE] + (Chars(text) + [QUOTE]) }

  function RowsCode(rows: seq<Value>): Code {
    if rows == [] then []
    else Encoded(rows[0]) + if |rows| == 1 then [] else BETWEEN + RowsCode(rows[1..])
  }

  function MembersCode(members: seq<Member>): Code {
    if members == [] then []
    else MemberCode(members[0]) + if |members| == 1 then [] else BETWEEN + MembersCode(members[1..])
  }

  function MemberCode(m: Member): Code { StrCode(m.key) + (COLON_SPACE + Encoded(m.value)) }

  // ---------- decoding ----------

  // A decoded part, and where the text goes on.
  datatype Read<+T> = Read(part: T, next: nat)

  function Hex(b: Byte): Option<Nibble> {
    if 0x30 <= b <= 0x39 then Some(b - 0x30)
    else if 0x61 <= b <= 0x66 then Some(b - 0x61 + 10)
    else None
  }

  function Join(a: Nibble, b: Nibble, c: Nibble, d: Nibble): Unit {
    a * 0x1000 + b * 0x100 + c * 0x10 + d
  }

  function DecodeUnit(code: Code, i: nat): Option<Unit> {
    if i + 6 <= |code| && code[i] == BACKSLASH && code[i + 1] == LETTER_U
       && Hex(code[i + 2]).Some? && Hex(code[i + 3]).Some? && Hex(code[i + 4]).Some? && Hex(code[i + 5]).Some? then
      Some(Join(Hex(code[i + 2]).value, Hex(code[i + 3]).value, Hex(code[i + 4]).value, Hex(code[i + 5]).value))
    else None
  }

  function Long(letter: Byte): Option<Scalar> {
    if letter == QUOTE then Some(0x22)
    else if letter == BACKSLASH then Some(0x5C)
    else if letter == 0x62 then Some(0x08)
    else if letter == 0x74 then Some(0x09)
    else if letter == 0x6E then Some(0x0A)
    else if letter == 0x66 then Some(0x0C)
    else if letter == 0x72 then Some(0x0D)
    else None
  }

  function DecodeChar(code: Code, i: nat): (r: Option<Read<Scalar>>)
    requires i < |code|
    ensures r.Some? ==> i < r.value.next <= |code|
  {
    if code[i] != BACKSLASH then if code[i] < 0x80 then Some(Read(code[i], i + 1)) else None
    else if i + 1 < |code| && Long(code[i + 1]).Some? then Some(Read(Long(code[i + 1]).value, i + 2))
    else match DecodeUnit(code, i)
      case None => None
      case Some(u) =>
        if !High(u) then if Low(u) then None else Some(Read(u, i + 6))
        else match DecodeUnit(code, i + 6)
          case None => None
          case Some(l) => if Low(l) then Some(Read(Combine(u, l), i + 12)) else None
  }

  // The characters up to the closing quote, and the place behind it.
  function DecodeChars(code: Code, i: nat): (r: Option<Read<Text>>)
    requires i <= |code|
    ensures r.Some? ==> i < r.value.next <= |code|
    decreases |code| - i
  {
    if i == |code| then None
    else if code[i] == QUOTE then Some(Read([], i + 1))
    else match DecodeChar(code, i)
      case None => None
      case Some(c) =>
        match DecodeChars(code, c.next)
        case None => None
        case Some(rest) => Some(Read([c.part] + rest.part, rest.next))
  }

  function DecodeValue(code: Code, i: nat): (r: Option<Read<Value>>)
    requires i <= |code|
    ensures r.Some? ==> i < r.value.next <= |code|
    decreases |code| - i, 0
  {
    if i == |code| then None
    else if code[i] == QUOTE then
      match DecodeChars(code, i + 1)
      case None => None
      case Some(text) => Some(Read(Str(text.part), text.next))
    else if code[i] == BRACKET then
      if i + 1 < |code| && code[i + 1] == UNBRACKET then Some(Read(Arr([]), i + 2))
      else match DecodeRows(code, i + 1)
        case None => None
        case Some(rows) => Some(Read(Arr(rows.part), rows.next))
    else if code[i] == BRACE then
      if i + 1 < |code| && code[i + 1] == UNBRACE then Some(Read(Obj([]), i + 2))
      else match DecodeMembers(code, i + 1)
        case None => None
        case Some(members) => Some(Read(Obj(members.part), members.next))
    else if Reads(code, i, NULL) then Some(Read(Null, i + 4))
    else None
  }

  // Rows up to the closing bracket, and the place behind it.
  function DecodeRows(code: Code, i: nat): (r: Option<Read<seq<Value>>>)
    requires i <= |code|
    ensures r.Some? ==> i < r.value.next <= |code|
    decreases |code| - i, 1
  {
    match DecodeValue(code, i)
    case None => None
    case Some(row) =>
      if row.next < |code| && code[row.next] == UNBRACKET then Some(Read([row.part], row.next + 1))
      else if !Reads(code, row.next, BETWEEN) then None
      else match DecodeRows(code, row.next + 2)
        case None => None
        case Some(rest) => Some(Read([row.part] + rest.part, rest.next))
  }

  function DecodeMembers(code: Code, i: nat): (r: Option<Read<seq<Member>>>)
    requires i <= |code|
    ensures r.Some? ==> i < r.value.next <= |code|
    decreases |code| - i, 1
  {
    match DecodeMember(code, i)
    case None => None
    case Some(m) =>
      if m.next < |code| && code[m.next] == UNBRACE then Some(Read([m.part], m.next + 1))
      else if !Reads(code, m.next, BETWEEN) then None
      else match DecodeMembers(code, m.next + 2)
        case None => None
        case Some(rest) => Some(Read([m.part] + rest.part, rest.next))
  }

  function DecodeMember(code: Code, i: nat): (r: Option<Read<Member>>)
    requires i <= |code|
    ensures r.Some? ==> i < r.value.next <= |code|
    decreases |code| - i, 0
  {
    if i == |code| || code[i] != QUOTE then None
    else match DecodeChars(code, i + 1)
      case None => None
      case Some(key) =>
        if !Reads(code, key.next, COLON_SPACE) then None
        else match DecodeValue(code, key.next + 2)
          case None => None
          case Some(value) => Some(Read(Member(key.part, value.part), value.next))
  }

  // ---------- decoding is the inverse of encoding ----------

  lemma CharRead(code: Code, i: nat, c: Scalar)
    requires Reads(code, i, CharCode(c))
    ensures i < |code| && code[i] != QUOTE && DecodeChar(code, i) == Some(Read(c, i + |CharCode(c)|))
  {
    hide DecodeUnit, UnitEscape;
    if Short(c).Some? {
      ReadsAt(code, i, CharCode(c), 0);
      ReadsAt(code, i, CharCode(c), 1);
    } else if c < 0x20 {
      UnitRead(code, i, c);
    } else if c < 0x80 {
      ReadsAt(code, i, CharCode(c), 0);
    } else if c < 0x10000 {
      OneUnit(c);
      UnitRead(code, i, c);
    } else {
      var units := Utf16(c);
      TwoUnits(units[0], units[1]);
      assert units == [units[0], units[1]];
      ReadsSplit(code, i, UnitEscape(units[0]), UnitEscape(units[1]));
      UnitRead(code, i, units[0]);
      UnitRead(code, i + 6, units[1]);
      assert High(units[0]) && Low(units[1]) && Combine(units[0], units[1]) == c;
    }
  }

  lemma OneUnit(u: Unit)
    ensures UnitEscapes([u]) == UnitEscape(u)
  { }

  lemma TwoUnits(u: Unit, v: Unit)
    ensures UnitEscapes([u, v]) == UnitEscape(u) + UnitEscape(v)
  {
    hide UnitEscape;
    assert [u, v][1..] == [v];
    OneUnit(v);
  }

  lemma UnitRead(code: Code, i: nat, u: Unit)
    requires Reads(code, i, UnitEscape(u))
    ensures |UnitEscape(u)| == 6 && i + 6 <= |code|
    ensures DecodeUnit(code, i) == Some(u) && Long(code[i + 1]).None? && code[i] == BACKSLASH
  {
    hide Digit, Hex, Join;
    var escape := UnitEscape(u);
    forall k: nat | k < 6 ensures code[i + k] == escape[k] { ReadsAt(code, i, escape, k); }
    assert code[i + 0] == BACKSLASH && code[i + 1] == LETTER_U;
    HexDigit(u / 0x1000);
    HexDigit(u / 0x100 % 0x10);
    HexDigit(u / 0x10 % 0x10);
    HexDigit(u % 0x10);
    Digits(u);
  }

  lemma HexDigit(n: Nibble)
    ensures Hex(Digit(n)) == Some(n)
  { }

  lemma Digits(u: Unit)
    ensures Join(u / 0x1000, u / 0x100 % 0x10, u / 0x10 % 0x10, u % 0x10) == u
  {
    var v := u / 0x10;
    var w := v / 0x10;
    assert v == w * 0x10 + v % 0x10 && u == v * 0x10 + u % 0x10;
    assert u / 0x100 == w && u / 0x1000 == w / 0x10;
  }

  lemma {:induction false} CharsRead(code: Code, i: nat, text: Text)
    requires Reads(code, i, Chars(text) + [QUOTE])
    ensures i <= |code| && DecodeChars(code, i) == Some(Read(text, i + |Chars(text)| + 1))
    decreases |text|
  {
    hide Reads, CharCode, DecodeChar;
    ReadsEnd(code, i, Chars(text) + [QUOTE]);
    if text == [] {
      ReadsAt(code, i, Chars(text) + [QUOTE], 0);
    } else {
      var c := text[0];
      assert Chars(text) + [QUOTE] == CharCode(c) + (Chars(text[1..]) + [QUOTE]);
      ReadsSplit(code, i, CharCode(c), Chars(text[1..]) + [QUOTE]);
      CharRead(code, i, c);
      CharsRead(code, i + |CharCode(c)|, text[1..]);
      assert [c] + text[1..] == text;
    }
  }

  // A string, its quotes included.
  lemma StrRead(code: Code, i: nat, text: Text)
    requires Reads(code, i, StrCode(text))
    ensures i < |code| && code[i] == QUOTE && DecodeChars(code, i + 1) == Some(Read(text, i + |StrCode(text)|))
  {
    hide Reads, Chars, DecodeChars;
    ReadsAt(code, i, StrCode(text), 0);
    ReadsEnd(code, i, StrCode(text));
    ReadsSplit(code, i, [QUOTE], Chars(text) + [QUOTE]);
    CharsRead(code, i + 1, text);
  }

  // No value starts like the end of a list.
  lemma FirstByte(v: Value)
    ensures Encoded(v) != [] && Encoded(v)[0] in {NULL[0], QUOTE, BRACKET, BRACE}
  { }

  lemma {:induction false} ValueRead(code: Code, i: nat, v: Value)
    requires Reads(code, i, Encoded(v))
    ensures i <= |code| && DecodeValue(code, i) == Some(Read(v, i + |Encoded(v)|))
    decreases v, 0
  {
    hide Reads, DecodeRows, DecodeMembers, DecodeChars, StrCode, RowsCode, MembersCode;
    ReadsEnd(code, i, Encoded(v));
    FirstByte(v);
    ReadsAt(code, i, Encoded(v), 0);
    match v
    case Null =>
    case Str(text) => StrRead(code, i, text);
    case Arr(rows) =>
      ReadsSplit(code, i, [BRACKET], RowsCode(rows) + [UNBRACKET]);
      RowsRead(code, i + 1, rows);
    case Obj(members) =>
      ReadsSplit(code, i, [BRACE], MembersCode(members) + [UNBRACE]);
      MembersRead(code, i + 1, members);
  }

  // The last item of a list and its closing byte; an item, the separator, the rest.
  lemma LastRead(code: Code, i: nat, item: Code, end: Byte)
    requires Reads(code, i, item + [end])
    ensures Reads(code, i, item) && i + |item| < |code| && code[i + |item|] == end
  {
    ReadsSplit(code, i, item, [end]);
    ReadsAt(code, i + |item|, [end], 0);
    ReadsEnd(code, i + |item|, [end]);
  }

  lemma FirstRead(code: Code, i: nat, item: Code, rest: Code, end: Byte)
    requires Reads(code, i, item + (BETWEEN + rest) + [end])
    ensures Reads(code, i, item) && i + |item| + 2 <= |code| && code[i + |item|] == COMMA
    ensures Reads(code, i + |item|, BETWEEN) && Reads(code, i + |item| + 2, rest + [end])
  {
    assert item + (BETWEEN + rest) + [end] == item + (BETWEEN + (rest + [end]));
    ReadsSplit(code, i, item, BETWEEN + (rest + [end]));
    ReadsSplit(code, i + |item|, BETWEEN, rest + [end]);
    ReadsAt(code, i + |item|, BETWEEN, 0);
    ReadsEnd(code, i + |item|, BETWEEN);
  }

  lemma {:induction false} RowsRead(code: Code, i: nat, rows: seq<Value>)
    requires Reads(code, i, RowsCode(rows) + [UNBRACKET])
    ensures i < |code| && (rows == [] <==> code[i] == UNBRACKET)
    ensures rows == [] ==> |RowsCode(rows)| == 0
    ensures rows != [] ==> DecodeRows(code, i) == Some(Read(rows, i + |RowsCode(rows)| + 1))
    decreases rows, 1
  {
    hide Reads, DecodeValue, Encoded;
    ReadsAt(code, i, RowsCode(rows) + [UNBRACKET], 0);
    ReadsEnd(code, i, RowsCode(rows) + [UNBRACKET]);
    if rows != [] {
      var first, rest := Encoded(rows[0]), rows[1..];
      FirstByte(rows[0]);
      if |rows| == 1 {
        assert RowsCode(rows) == first && rows == [rows[0]];
        LastRead(code, i, first, UNBRACKET);
      } else {
        assert RowsCode(rows) == first + (BETWEEN + RowsCode(rest));
        FirstRead(code, i, first, RowsCode(rest), UNBRACKET);
        RowsRead(code, i + |first| + 2, rest);
        assert [rows[0]] + rest == rows;
      }
      ValueRead(code, i, rows[0]);
    }
  }

  lemma {:induction false} MembersRead(code: Code, i: nat, members: seq<Member>)
    requires Reads(code, i, MembersCode(members) + [UNBRACE])
    ensures i < |code| && (members == [] <==> code[i] == UNBRACE)
    ensures members == [] ==> |MembersCode(members)| == 0
    ensures members != [] ==> DecodeMembers(code, i) == Some(Read(members, i + |MembersCode(members)| + 1))
    decreases members, 1
  {
    hide Reads, DecodeMember, MemberCode;
    ReadsAt(code, i, MembersCode(members) + [UNBRACE], 0);
    ReadsEnd(code, i, MembersCode(members) + [UNBRACE]);
    if members != [] {
      var first, rest := MemberCode(members[0]), members[1..];
      FirstMemberByte(members[0]);
      if |members| == 1 {
        assert MembersCode(members) == first && members == [members[0]];
        LastRead(code, i, first, UNBRACE);
      } else {
        assert MembersCode(members) == first + (BETWEEN + MembersCode(rest));
        FirstRead(code, i, first, MembersCode(rest), UNBRACE);
        MembersRead(code, i + |first| + 2, rest);
        assert [members[0]] + rest == members;
      }
      MemberRead(code, i, members[0]);
    }
  }

  lemma FirstMemberByte(m: Member)
    ensures MemberCode(m) != [] && MemberCode(m)[0] == QUOTE
  { }

  lemma {:induction false} MemberRead(code: Code, i: nat, m: Member)
    requires Reads(code, i, MemberCode(m))
    ensures i <= |code| && DecodeMember(code, i) == Some(Read(m, i + |MemberCode(m)|))
    decreases m, 0
  {
    hide Reads, DecodeChars, DecodeValue, StrCode, Encoded;
    ReadsEnd(code, i, MemberCode(m));
    ReadsSplit(code, i, StrCode(m.key), COLON_SPACE + Encoded(m.value));
    ReadsSplit(code, i + |StrCode(m.key)|, COLON_SPACE, Encoded(m.value));
    StrRead(code, i, m.key);
    ValueRead(code, i + |StrCode(m.key)| + 2, m.value);
  }
}
