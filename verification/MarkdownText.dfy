/**
 The text of one block: UTF-16 units on Qt's side, UTF-8 bytes on the parser's,
 and the table that takes byte offsets back to units.
 */
module MarkdownText {
  import opened Prelude
  import opened Unicode

  const REPLACEMENT: Scalar := 0xFFFD
  const MAX_INLINE_UNITS := 128 * 1024

  // String::from_utf16_lossy: an unpaired surrogate becomes one U+FFFD.
  function DecodeLossy(units: seq<Unit>): seq<Scalar> {
    if units == [] then []
    else if High(units[0]) && |units| > 1 && Low(units[1]) then [Combine(units[0], units[1])] + DecodeLossy(units[2..])
    else if High(units[0]) || Low(units[0]) then [REPLACEMENT] + DecodeLossy(units[1..])
    else [units[0] as Scalar] + DecodeLossy(units[1..])
  }

  // String::from_utf16 succeeds.
  predicate Paired(units: seq<Unit>) {
    if units == [] then true
    else if High(units[0]) then |units| > 1 && Low(units[1]) && Paired(units[2..])
    else !Low(units[0]) && Paired(units[1..])
  }

  function Units(text: seq<Scalar>): seq<Unit> {
    if text == [] then [] else Units(text[..|text| - 1]) + Utf16(text[|text| - 1])
  }

  function Bytes(text: seq<Scalar>): seq<Byte> {
    if text == [] then [] else Bytes(text[..|text| - 1]) + Utf8(text[|text| - 1])
  }

  // ---------- decoding keeps the length in units ----------

  lemma {:induction false} UnitsPrepend(c: Scalar, text: seq<Scalar>)
    ensures Units([c] + text) == Utf16(c) + Units(text)
  {
    hide Utf16;
    if text == [] {
      assert [c] + text == [c] && [c][..0] == [];
    } else {
      var k := |text| - 1;
      assert ([c] + text)[..k + 1] == [c] + text[..k];
      UnitsPrepend(c, text[..k]);
    }
  }

  // Lossy decoding replaces unit for unit, and on well-paired input it is the
  // inverse of encoding.
  lemma {:induction false} DecodeKeepsUnits(units: seq<Unit>)
    ensures |Units(DecodeLossy(units))| == |units|
    ensures Paired(units) <==> Units(DecodeLossy(units)) == units
  {
    if units != [] {
      if High(units[0]) && |units| > 1 && Low(units[1]) {
        DecodeKeepsUnits(units[2..]);
        UnitsPrepend(Combine(units[0], units[1]), DecodeLossy(units[2..]));
        assert Utf16(Combine(units[0], units[1])) == [units[0], units[1]];
        assert units == [units[0], units[1]] + units[2..];
      } else {
        DecodeKeepsUnits(units[1..]);
        UnitsPrepend(if High(units[0]) || Low(units[0]) then REPLACEMENT
          else units[0] as Scalar, DecodeLossy(units[1..]));
        assert units == [units[0]] + units[1..];
      }
    }
  }

  // ---------- character boundaries ----------

  ghost predicate BoundaryAt(text: seq<Scalar>, k: nat, byte: nat) {
    k <= |text| && byte == |Bytes(text[..k])|
  }

  ghost predicate Boundary(text: seq<Scalar>, byte: nat) {
    exists k: nat :: BoundaryAt(text, k, byte)
  }

  // The UTF-16 units before a character boundary.
  ghost function UnitsBefore(text: seq<Scalar>, byte: nat): (r: nat)
    requires Boundary(text, byte)
    ensures exists k: nat :: BoundaryAt(text, k, byte) && r == |Units(text[..k])|
  {
    var k: nat :| BoundaryAt(text, k, byte);
    |Units(text[..k])|
  }

  lemma {:induction false} PrefixesGrow(text: seq<Scalar>, j: nat, k: nat)
    requires j <= k <= |text|
    ensures |Bytes(text[..j])| <= |Bytes(text[..k])| && |Units(text[..j])| <= |Units(text[..k])|
    ensures j < k ==> |Bytes(text[..j])| < |Bytes(text[..k])|
    ensures Bytes(text[..j]) == Bytes(text[..k])[..|Bytes(text[..j])|]
  {
    hide Utf8, Utf16;
    if j < k {
      PrefixesGrow(text, j, k - 1);
      assert text[..k][..k - 1] == text[..k - 1];
      assert text[..k] == text[..k - 1] + [text[k - 1]];
    }
  }

  lemma UnitsBeforeAt(text: seq<Scalar>, k: nat, byte: nat)
    requires BoundaryAt(text, k, byte)
    ensures Boundary(text, byte) && UnitsBefore(text, byte) == |Units(text[..k])|
  {
    var j: nat :| BoundaryAt(text, j, byte) && UnitsBefore(text, byte) == |Units(text[..j])|;
    assert BoundaryAt(text, j, byte);
    if j < k { PrefixesGrow(text, j, k); } else { PrefixesGrow(text, k, j); }
  }

  lemma WholeBoundary(text: seq<Scalar>)
    ensures Boundary(text, 0) && UnitsBefore(text, 0) == 0
    ensures Boundary(text, |Bytes(text)|) && UnitsBefore(text, |Bytes(text)|) == |Units(text)|
  {
    assert text[..|text|] == text;
    UnitsBeforeAt(text, 0, 0);
    UnitsBeforeAt(text, |text|, |Bytes(text)|);
  }

  // The unit count is monotone in the byte offset and never exceeds the block.
  lemma UnitsBeforeMonotone(text: seq<Scalar>, a: nat, b: nat)
    requires Boundary(text, a) && Boundary(text, b) && a <= b
    ensures UnitsBefore(text, a) <= UnitsBefore(text, b) <= |Units(text)|
    ensures b <= |Bytes(text)|
  {
    var j: nat :| BoundaryAt(text, j, a);
    var k: nat :| BoundaryAt(text, k, b);
    UnitsBeforeAt(text, j, a);
    UnitsBeforeAt(text, k, b);
    if k < j { PrefixesGrow(text, k, j); } else { PrefixesGrow(text, j, k); }
    PrefixesGrow(text, k, |text|);
    assert text[..|text|] == text;
  }

  // A backtick byte is a whole character: no multi-byte form contains one.
  lemma {:induction false} BacktickBoundary(text: seq<Scalar>, byte: nat)
    requires byte < |Bytes(text)| && Bytes(text)[byte] == BACKTICK
    ensures Boundary(text, byte) && Boundary(text, byte + 1)
  {
    var k := |text| - 1;
    var before := Bytes(text[..k]);
    if byte < |before| {
      BacktickBoundary(text[..k], byte);
      BoundaryExtends(text, k, byte);
      BoundaryExtends(text, k, byte + 1);
    } else {
      assert Utf8(text[k])[byte - |before|] == BACKTICK;
      assert text[k] == BACKTICK as Scalar;
      assert BoundaryAt(text, k, byte);
      assert text[..k + 1] == text;
      assert BoundaryAt(text, k + 1, byte + 1);
    }
  }

  lemma BoundaryExtends(text: seq<Scalar>, k: nat, byte: nat)
    requires k <= |text| && Boundary(text[..k], byte)
    ensures Boundary(text, byte)
  {
    var j: nat :| BoundaryAt(text[..k], j, byte);
    assert text[..k][..j] == text[..j];
    assert BoundaryAt(text, j, byte);
  }

  // ---------- Source ----------

  datatype Source = Source(
    text: seq<Scalar>,
    bytes: seq<Byte>,
    offsets: Option<seq<nat>>,
    valid: bool,
    units: nat,
    ascii: bool)
  {
    ghost predicate Valid() {
      && bytes == Bytes(text) && units == |Units(text)|
      && (ascii ==> forall i: nat {:trigger text[i]} :: i < |text| ==> text[i] < 0x80)
      && (offsets.Some? ==> TableOk(text, offsets.value))
    }

    // The offset in UTF-16 units of a byte offset on a character boundary.
    method Offset(byte: nat) returns (r: nat)
      requires Valid() && Boundary(text, byte)
      ensures r == UnitsBefore(text, byte) && r <= units
    {
      UnitsBeforeMonotone(text, byte, byte);
      WholeBoundary(text);
      ghost var k: nat :| BoundaryAt(text, k, byte);
      UnitsBeforeAt(text, k, byte);
      if byte == |bytes| { return units; }
      if ascii {
        AsciiUnits(text[..k]);
        return byte;
      }
      match offsets {
        case Some(table) => r := table[byte];
        case None => r := CountUnits(text, byte);
      }
    }
  }

  ghost predicate TableOk(text: seq<Scalar>, table: seq<nat>) {
    && |table| == |Bytes(text)| + 1
    && forall k: nat, b: nat {:trigger BoundaryAt(text, k, b)} ::
         BoundaryAt(text, k, b) ==> b < |table| && table[b] == |Units(text[..k])|
  }

  method NewSource(input: seq<Unit>) returns (source: Source)
    ensures source.Valid() && source.units == |input| && source.valid == Paired(input)
    ensures source.valid ==> Units(source.text) == input
    ensures source.text == DecodeLossy(input)
  {
    var text := DecodeLossy(input);
    DecodeKeepsUnits(input);
    var ascii := forall i: nat {:trigger text[i]} | i < |text| :: text[i] < 0x80;
    var offsets := None;
    if !ascii && |input| <= MAX_INLINE_UNITS {
      var table := OffsetTable(text);
      offsets := Some(table);
    }
    source := Source(text, Bytes(text), offsets, Paired(input), |input|, ascii);
  }

  lemma {:induction false} AsciiUnits(text: seq<Scalar>)
    requires forall i: nat {:trigger text[i]} :: i < |text| ==> text[i] < 0x80
    ensures |Bytes(text)| == |Units(text)| == |text|
  {
    if text != [] { AsciiUnits(text[..|text| - 1]); }
  }

  // self.text[..byte].encode_utf16().count()
  method CountUnits(text: seq<Scalar>, byte: nat) returns (r: nat)
    requires Boundary(text, byte)
    ensures r == UnitsBefore(text, byte)
  {
    hide Utf8, Utf16;
    ghost var k: nat :| BoundaryAt(text, k, byte);
    UnitsBeforeAt(text, k, byte);
    var i, length := 0, 0;
    r := 0;
    while length < byte
      invariant i <= k && length == |Bytes(text[..i])| && r == |Units(text[..i])|
    {
      if i == k { assert false; }
      assert text[..i + 1][..i] == text[..i];
      length := length + |Utf8(text[i])|;
      r := r + |Utf16(text[i])|;
      i := i + 1;
    }
    PrefixesGrow(text, i, k);
  }

  // One entry per byte, and one past the end: the units before its character.
  method OffsetTable(text: seq<Scalar>) returns (table: seq<nat>)
    ensures TableOk(text, table)
  {
    hide Utf8, Utf16;
    table := [];
    var offset, i := 0, 0;
    while i < |text|
      invariant i <= |text| && |table| == |Bytes(text[..i])| && offset == |Units(text[..i])|
      invariant forall k: nat {:trigger text[..k]} :: k < i ==>
                  |Bytes(text[..k])| < |table| && table[|Bytes(text[..k])|] == |Units(text[..k])|
    {
      assert text[..i + 1][..i] == text[..i];
      table := table + seq(|Utf8(text[i])|, _ => offset);
      offset := offset + |Utf16(text[i])|;
      i := i + 1;
    }
    assert text[..|text|] == text;
    table := table + [offset];
    forall k: nat, b: nat | BoundaryAt(text, k, b) ensures b < |table| && table[b] == |Units(text[..k])| {
      assert text[..k] == text[..k];
    }
  }
}
