/** What a publisher reports, and the text its fingerprint is taken of. */
module Findings {
  import opened Prelude
  import opened Unicode
  import opened Encoding

  datatype Urgency = Now | Soon | Eventually | Informational
  datatype Lifecycle = Ongoing | Notice

  datatype Finding = Finding(
    key: Text,
    title: Text,
    explanation: Text,
    details: Text,
    urgency: Urgency,
    lifecycle: Lifecycle,
    actions: seq<Text>,
    diagnostic: Option<Text>)

  function Ascii(s: string): Text {
    seq(|s|, i requires 0 <= i < |s| => if s[i] as int < 0x80 then s[i] as int else 0x3F)
  }

  function UrgencyName(u: Urgency): Text {
    match u
    case Now => Ascii("now")
    case Soon => Ascii("soon")
    case Eventually => Ascii("eventually")
    case Informational => Ascii("informational")
  }

  function LifecycleName(l: Lifecycle): Text {
    match l
    case Ongoing => Ascii("ongoing")
    case Notice => Ascii("notice")
  }

  // [{metadata}, diagnostic], the members of the metadata in key order.
  function FindingValue(f: Finding): Value {
    Arr([
      Obj([
        Member(Ascii("actions"), Arr(seq(|f.actions|, i requires 0 <= i < |f.actions| => Str(f.actions[i])))),
        Member(Ascii("details"), Str(f.details)),
        Member(Ascii("explanation"), Str(f.explanation)),
        Member(Ascii("lifecycle"), Str(LifecycleName(f.lifecycle))),
        Member(Ascii("title"), Str(f.title)),
        Member(Ascii("urgency"), Str(UrgencyName(f.urgency)))]),
      if f.diagnostic.Some? then Str(f.diagnostic.value) else Null])
  }

  function Signature(f: Finding): Code { Encoded(FindingValue(f)) }

  // Decoding the text of a value gives it back, so no two values share a text,
  // and none is the beginning of another's.
  lemma EncodingDecodes(v: Value, behind: Code)
    ensures DecodeValue(Encoded(v) + behind, 0) == Some(Read(v, |Encoded(v)|))
  {
    var code := Encoded(v) + behind;
    assert code[0..0 + |Encoded(v)|] == Encoded(v);
    ValueRead(code, 0, v);
  }

  lemma EncodingInjective(v: Value, w: Value, behindV: Code, behindW: Code)
    requires Encoded(v) + behindV == Encoded(w) + behindW
    ensures v == w && behindV == behindW
  {
    EncodingDecodes(v, behindV);
    EncodingDecodes(w, behindW);
    assert behindV == (Encoded(v) + behindV)[|Encoded(v)|..];
    assert behindW == (Encoded(w) + behindW)[|Encoded(w)|..];
  }

  // Everything a finding says but its key.
  predicate SameContent(f: Finding, g: Finding) { f.(key := g.key) == g }

  lemma SignatureTellsContent(f: Finding, g: Finding)
    ensures Signature(f) == Signature(g) <==> SameContent(f, g)
  {
    hide Encoded, DecodeValue;
    if Signature(f) == Signature(g) {
      assert Signature(f) + [] == Signature(g) + [];
      EncodingInjective(FindingValue(f), FindingValue(g), [], []);
      ValueTellsContent(f, g);
    }
    if SameContent(f, g) { assert FindingValue(f) == FindingValue(g); }
  }

  lemma ValueTellsContent(f: Finding, g: Finding)
    requires FindingValue(f) == FindingValue(g)
    ensures SameContent(f, g)
  {
    var v, w := FindingValue(f).rows, FindingValue(g).rows;
    assert v[0] == w[0] && v[1] == w[1];
    var m, n := v[0].members, w[0].members;
    assert m[0] == n[0] && m[1] == n[1] && m[2] == n[2] && m[3] == n[3] && m[4] == n[4] && m[5] == n[5];
    var a, b := m[0].value.rows, n[0].value.rows;
    forall i: nat | i < |f.actions| ensures i < |g.actions| && f.actions[i] == g.actions[i] { assert a[i] == b[i]; }
    assert |f.actions| == |a| == |b| == |g.actions|;
    assert f.actions == g.actions;
    NamesDiffer(f, g);
  }

  lemma NamesDiffer(f: Finding, g: Finding)
    ensures UrgencyName(f.urgency) == UrgencyName(g.urgency) ==> f.urgency == g.urgency
    ensures LifecycleName(f.lifecycle) == LifecycleName(g.lifecycle) ==> f.lifecycle == g.lifecycle
  { }

  // ---------- the encoder, which appends to a buffer ----------

  class Buffer {
    var text: Code

    constructor ()
      ensures text == []
    {
      text := [];
    }

    method Encode(value: Value)
      modifies this
      ensures text == old(text) + Encoded(value)
      decreases value, 0
    {
      match value
      case Null => text := text + NULL;
      case Str(s) => EncodeText(s);
      case Arr(rows) =>
        text := text + [BRACKET];
        EncodeRows(rows);
        text := text + [UNBRACKET];
      case Obj(members) =>
        text := text + [BRACE];
        EncodeMembers(members);
        text := text + [UNBRACE];
    }

    method EncodeRows(rows: seq<Value>)
      modifies this
      ensures text == old(text) + RowsCode(rows)
      decreases rows, 1
    {
      hide Encoded;
      var index := 0;
      while index < |rows|
        invariant index <= |rows|
        invariant old(text) + RowsCode(rows)
          == text + (if 0 < index < |rows| then BETWEEN else []) + RowsCode(rows[index..])
      {
        ghost var rest := rows[index..];
        assert rest[0] == rows[index] && rest[1..] == rows[index + 1..];
        if index > 0 { text := text + BETWEEN; }
        Encode(rows[index]);
        index := index + 1;
      }
    }

    method EncodeMembers(members: seq<Member>)
      modifies this
      ensures text == old(text) + MembersCode(members)
      decreases members, 1
    {
      hide Encoded, StrCode;
      var index := 0;
      while index < |members|
        invariant index <= |members|
        invariant old(text) + MembersCode(members)
          == text + (if 0 < index < |members| then BETWEEN else []) + MembersCode(members[index..])
      {
        ghost var rest := members[index..];
        assert rest[0] == members[index] && rest[1..] == members[index + 1..];
        if index > 0 { text := text + BETWEEN; }
        ghost var before := text;
        EncodeText(members[index].key);
        text := text + COLON_SPACE;
        Encode(members[index].value);
        assert text == before + MemberCode(members[index]);
        index := index + 1;
      }
    }

    // What serde_json writes for a string, its characters beyond ASCII as the
    // escapes of their UTF-16 units.
    method EncodeText(s: Text)
      modifies this
      ensures text == old(text) + StrCode(s)
    {
      hide JsonText, AsciiCode, StrCode, UnitEscapes;
      var json := JsonText(s);
      var i := 0;
      while i < |json|
        invariant i <= |json| && text + AsciiCodes(json[i..]) == old(text) + AsciiCodes(json)
      {
        assert json[i..][0] == json[i] && json[i..][1..] == json[i + 1..];
        if json[i] < 0x80 {
          AsciiIsItself(json[i]);
          text := text + [json[i]];
        } else {
          EncodeUnits(json[i]);
        }
        i := i + 1;
      }
      JsonIsStrCode(s);
    }

    method EncodeUnits(c: Scalar)
      requires c >= 0x80
      modifies this
      ensures text == old(text) + AsciiCode(c)
    {
      hide UnitEscape;
      var units := Utf16(c);
      var i := 0;
      while i < |units|
        invariant i <= |units| && text + UnitEscapes(units[i..]) == old(text) + UnitEscapes(units)
      {
        assert units[i..][0] == units[i] && units[i..][1..] == units[i + 1..];
        text := text + UnitEscape(units[i]);
        i := i + 1;
      }
    }
  }

  // The text whose digest is the fingerprint.
  method Fingerprint(f: Finding) returns (code: Code)
    ensures code == Signature(f)
  {
    var buffer := new Buffer();
    buffer.Encode(FindingValue(f));
    code := buffer.text;
  }

  // serde_json's string: quoted, with its own escapes, beyond ASCII as it is.
  function JsonChar(c: Scalar): Text {
    if Short(c).Some? then [BACKSLASH, Short(c).value] else if c < 0x20 then UnitEscape(c) else [c]
  }

  function JsonChars(s: Text): Text {
    if s == [] then [] else JsonChar(s[0]) + JsonChars(s[1..])
  }

  function JsonText(s: Text): Text { [QUOTE] + (JsonChars(s) + [QUOTE]) }

  function AsciiCode(c: Scalar): Code {
    if c < 0x80 then [c] else UnitEscapes(Utf16(c))
  }

  function AsciiCodes(json: Text): Code {
    if json == [] then [] else AsciiCode(json[0]) + AsciiCodes(json[1..])
  }

  lemma AsciiIsItself(c: Scalar)
    requires c < 0x80
    ensures AsciiCode(c) == [c]
  { }

  lemma {:induction false} AsciiAppend(a: Text, b: Text)
    ensures AsciiCodes(a + b) == AsciiCodes(a) + AsciiCodes(b)
  {
    hide AsciiCode;
    if a == [] {
      assert a + b == b;
    } else {
      assert (a + b)[1..] == a[1..] + b;
      AsciiAppend(a[1..], b);
    }
  }

  lemma {:induction false} AllAscii(a: Code)
    requires forall i: nat :: i < |a| ==> a[i] < 0x80
    ensures AsciiCodes(a) == a
  {
    if a != [] {
      AllAscii(a[1..]);
      assert a == [a[0]] + a[1..];
    }
  }

  lemma JsonCharIsCharCode(c: Scalar)
    ensures AsciiCodes(JsonChar(c)) == CharCode(c)
  {
    if Short(c).Some? || c < 0x20 { AllAscii(JsonChar(c)); }
  }

  lemma {:induction false} JsonIsChars(s: Text)
    ensures AsciiCodes(JsonChars(s)) == Chars(s)
  {
    hide JsonChar, CharCode, AsciiCode;
    if s != [] {
      JsonCharIsCharCode(s[0]);
      JsonIsChars(s[1..]);
      AsciiAppend(JsonChar(s[0]), JsonChars(s[1..]));
    }
  }

  lemma JsonIsStrCode(s: Text)
    ensures AsciiCodes(JsonText(s)) == StrCode(s)
  {
    hide JsonChars, Chars;
    var quote: Code := [QUOTE];
    JsonIsChars(s);
    AllAscii(quote);
    AsciiAppend(JsonChars(s), quote);
    AsciiAppend(quote, JsonChars(s) + quote);
  }
}
