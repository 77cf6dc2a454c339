/**
 The layout of a JPEG file between its first two bytes and what may trail it, and
 why the walk accepts a file exactly when it has that layout.
 */
module JpegLayout {
  import opened Prelude
  import opened Unicode
  import opened Slices
  import opened Jpeg

  datatype Token =
    | Plain(byte: Byte)
    | Escaped(fill: nat, code: Byte)  // a stuffed zero or a restart, after fill bytes

  datatype Item =
    | Alone(fill: nat, code: Byte)
    | Segment(fill: nat, code: Byte, payload: seq<Byte>)
    | Scan(fill: nat, header: seq<Byte>, tokens: seq<Token>)

  // ---------- printing ----------

  function Marker(fill: nat, code: Byte): seq<Byte> {
    if fill == 0 then [FILL, code] else [FILL] + Marker(fill - 1, code)
  }

  function TokenBytes(t: Token): seq<Byte> {
    match t
    case Plain(byte) => [byte]
    case Escaped(fill, code) => Marker(fill, code)
  }

  function TokensBytes(tokens: seq<Token>): seq<Byte> {
    if tokens == [] then [] else TokenBytes(tokens[0]) + TokensBytes(tokens[1..])
  }

  function Sized(payload: seq<Byte>): seq<Byte>
    requires |payload| + 2 < 0x10000
  {
    [(|payload| + 2) / 0x100, (|payload| + 2) % 0x100] + payload
  }

  function ItemBytes(item: Item): seq<Byte>
    requires ItemOk(item)
  {
    match item
    case Alone(fill, code) => Marker(fill, code)
    case Segment(fill, code, payload) => Marker(fill, code) + Sized(payload)
    case Scan(fill, header, tokens) => Marker(fill, SOS) + (Sized(header) + TokensBytes(tokens))
  }

  function Bytes(items: seq<Item>, fill: nat): seq<Byte>
    requires ItemsOk(items)
  {
    if items == [] then Marker(fill, EOI) else ItemBytes(items[0]) + Bytes(items[1..], fill)
  }

  // ---------- which items a file may have ----------

  predicate TokenOk(t: Token) {
    match t
    case Plain(byte) => byte != FILL
    case Escaped(_, code) => InScan(code)
  }

  predicate TokensOk(tokens: seq<Token>) { forall t :: t in tokens ==> TokenOk(t) }

  predicate ItemOk(item: Item) {
    match item
    case Alone(_, code) => AloneCode(code)
    case Segment(_, code, payload) => code != FILL && code != EOI && code != SOS && !AloneCode(code) &&
      |payload| + 2 < 0x10000
    case Scan(_, header, tokens) => |header| + 2 < 0x10000 && TokensOk(tokens)
  }

  function FirstCode(items: seq<Item>): Byte {
    if items == [] then EOI else if items[0].Scan? then SOS else items[0].code
  }

  // What follows a scan must not look like more of it.
  predicate ItemsOk(items: seq<Item>) {
    items == [] || (ItemOk(items[0]) && ItemsOk(items[1..]) && (items[0].Scan? ==> !InScan(FirstCode(items[1..]))))
  }

  // Every frame is within the limit, one comes before the first scan, and there is a scan.
  predicate Drawable(items: seq<Item>, framed: bool, scanned: bool) {
    if items == [] then framed && scanned
    else match items[0]
      case Alone(_, _) => Drawable(items[1..], framed, scanned)
      case Segment(_, code, payload) =>
        if FrameCode(code) then
          FrameSize(payload).Some? && WithinLimit(FrameSize(payload).value, 4).Fine? &&
            Drawable(items[1..], true, scanned)
        else Drawable(items[1..], framed, scanned)
      case Scan(_, _, _) => framed && Drawable(items[1..], framed, true)
  }

  // ---------- reading what is printed ----------

  lemma {:induction false} MarkerRead(bytes: seq<Byte>, i: nat, fill: nat, code: Byte)
    requires Reads(bytes, i, Marker(fill, code)) && code != FILL
    ensures |Marker(fill, code)| == fill + 2 && i + fill + 2 <= |bytes|
    ensures bytes[i] == FILL && bytes[i + fill] == FILL && bytes[i + fill + 1] == code
    ensures SkipFill(bytes, i) == i + fill + 1
    ensures InScan(code) ==> Entropy(bytes, i) == Entropy(bytes, i + fill + 2)
    ensures !InScan(code) ==> Entropy(bytes, i) == Some(i + fill)
    decreases fill
  {
    if fill == 0 {
      ReadsAt(bytes, i, Marker(0, code), 0);
      ReadsAt(bytes, i, Marker(0, code), 1);
    } else {
      ReadsSplit(bytes, i, [FILL], Marker(fill - 1, code));
      ReadsAt(bytes, i, [FILL], 0);
      MarkerRead(bytes, i + 1, fill - 1, code);
    }
  }

  lemma TokenRead(bytes: seq<Byte>, i: nat, t: Token)
    requires Reads(bytes, i, TokenBytes(t)) && TokenOk(t)
    ensures Entropy(bytes, i) == Entropy(bytes, i + |TokenBytes(t)|)
  {
    match t
    case Plain(byte) => ReadsAt(bytes, i, [byte], 0);
    case Escaped(fill, code) => MarkerRead(bytes, i, fill, code);
  }

  lemma {:induction false} TokensRead(bytes: seq<Byte>, i: nat, tokens: seq<Token>)
    requires Reads(bytes, i, TokensBytes(tokens)) && TokensOk(tokens)
    ensures Entropy(bytes, i) == Entropy(bytes, i + |TokensBytes(tokens)|)
    decreases |tokens|
  {
    hide Reads, Entropy, TokenBytes, TokenOk;
    if tokens != [] {
      assert tokens[0] in tokens;
      ReadsSplit(bytes, i, TokenBytes(tokens[0]), TokensBytes(tokens[1..]));
      TokenRead(bytes, i, tokens[0]);
      TokensRead(bytes, i + |TokenBytes(tokens[0])|, tokens[1..]);
    }
  }

  lemma SizedLength(payload: seq<Byte>)
    requires |payload| + 2 < 0x10000
    ensures |Sized(payload)| == |payload| + 2
  { }

  lemma SizedRead(bytes: seq<Byte>, i: nat, payload: seq<Byte>)
    requires |payload| + 2 < 0x10000 && Reads(bytes, i, Sized(payload))
    ensures i + 2 + |payload| <= |bytes| && Word(bytes[i], bytes[i + 1]) == |payload| + 2
    ensures bytes[i + 2..i + 2 + |payload|] == payload
  {
    var n := |payload| + 2;
    ReadsEnd(bytes, i, Sized(payload));
    ReadsAt(bytes, i, Sized(payload), 0);
    ReadsAt(bytes, i, Sized(payload), 1);
    ReadsSplit(bytes, i, [n / 0x100, n % 0x100], payload);
  }

  // A walk may begin at any of the fill bytes of a marker.
  lemma {:induction false} WalkFill(bytes: seq<Byte>, i: nat, j: nat, frame: Option<Size>, scans: nat)
    requires i <= j < |bytes| && forall k :: i <= k <= j ==> bytes[k] == FILL
    ensures Walk(bytes, i, frame, scans) == Walk(bytes, j, frame, scans)
    decreases j - i
  {
    if i < j { WalkFill(bytes, i + 1, j, frame, scans); }
  }

  function FrameAfter(item: Item, frame: Option<Size>): Option<Size> {
    if item.Segment? && FrameCode(item.code) then FrameSize(item.payload) else frame
  }

  function ScansAfter(item: Item, scans: nat): nat { if item.Scan? then scans + 1 else scans }

  // A frame within the limit, or a scan behind a frame, or anything else.
  predicate Passes(item: Item, framed: bool) {
    match item
    case Alone(_, _) => true
    case Segment(_, code, payload) =>
      FrameCode(code) ==> FrameSize(payload).Some? && WithinLimit(FrameSize(payload).value, 4).Fine?
    case Scan(_, _, _) => framed
  }

  // One item is walked to its end.
  lemma ItemRead(bytes: seq<Byte>, i: nat, items: seq<Item>, fill: nat, frame: Option<Size>, scans: nat)
    requires items != [] && ItemsOk(items) && Reads(bytes, i, Bytes(items, fill)) && Passes(items[0], frame.Some?)
    ensures Reads(bytes, i + |ItemBytes(items[0])|, Bytes(items[1..], fill))
    ensures Walk(bytes, i, frame, scans) ==
            Walk(bytes, i + |ItemBytes(items[0])|, FrameAfter(items[0], frame), ScansAfter(items[0], scans))
  {
    hide Reads, Walk, WithinLimit, FrameSize, ItemOk, ItemBytes, ItemsOk, FirstCode, InScan;
    var item, rest := items[0], items[1..];
    ItemFacts(items);
    assert Bytes(items, fill) == ItemBytes(item) + Bytes(rest, fill);
    ReadsSplit(bytes, i, ItemBytes(item), Bytes(rest, fill));
    match item {
      case Alone(f, code) => AloneRead(bytes, i, f, code, frame, scans);
      case Segment(f, code, payload) => SegmentRead(bytes, i, f, code, payload, frame, scans);
      case Scan(f, header, tokens) => ScanRead(bytes, i, f, header, tokens, rest, fill, frame, scans);
    }
  }

  lemma ItemFacts(items: seq<Item>)
    requires items != [] && ItemsOk(items)
    ensures ItemOk(items[0]) && ItemsOk(items[1..])
    ensures items[0].Scan? ==> !InScan(FirstCode(items[1..]))
  { }

  lemma AloneRead(bytes: seq<Byte>, i: nat, fill: nat, code: Byte, frame: Option<Size>, scans: nat)
    requires ItemOk(Alone(fill, code)) && Reads(bytes, i, ItemBytes(Alone(fill, code)))
    ensures Walk(bytes, i, frame, scans) == Walk(bytes, i + |ItemBytes(Alone(fill, code))|, frame, scans)
  {
    hide Reads, Walk, Marker;
    MarkerRead(bytes, i, fill, code);
    WalkAlone(bytes, i, i + fill + 1, frame, scans);
  }

  lemma DrawableAfter(items: seq<Item>, frame: Option<Size>, scans: nat)
    requires items != [] && Drawable(items, frame.Some?, scans > 0)
    requires (frame.Some? ==> WithinLimit(frame.value, 4).Fine?)
    ensures Passes(items[0], frame.Some?)
    ensures var next := FrameAfter(items[0], frame);
      Drawable(items[1..], next.Some?, ScansAfter(items[0], scans) > 0) &&
        (next.Some? ==> WithinLimit(next.value, 4).Fine?)
  {
    hide WithinLimit, FrameSize;
  }

  // Printed items that are drawable are walked to their end.
  lemma {:induction false} Accepts(bytes: seq<Byte>, i: nat, items: seq<Item>, fill: nat, frame: Option<Size>,
        scans: nat)
    requires ItemsOk(items) && Reads(bytes, i, Bytes(items, fill)) && Drawable(items, frame.Some?, scans > 0)
    requires frame.Some? ==> WithinLimit(frame.value, 4).Fine?
    ensures Walk(bytes, i, frame, scans).Fine?
    decreases |items|
  {
    hide Reads, Walk, WithinLimit, FrameAfter, ScansAfter, ItemBytes, Marker;
    if items == [] {
      MarkerRead(bytes, i, fill, EOI);
      WalkEnd(bytes, i, i + fill + 1, frame, scans);
    } else {
      DrawableAfter(items, frame, scans);
      ItemRead(bytes, i, items, fill, frame, scans);
      Accepts(bytes, i + |ItemBytes(items[0])|, items[1..], fill, FrameAfter(items[0], frame),
        ScansAfter(items[0], scans));
    }
  }

  function CodeOf(item: Item): Byte { if item.Scan? then SOS else item.code }

  lemma ItemMarker(bytes: seq<Byte>, i: nat, item: Item)
    requires ItemOk(item) && Reads(bytes, i, ItemBytes(item))
    ensures Reads(bytes, i, Marker(item.fill, CodeOf(item))) && CodeOf(item) != FILL
  {
    hide Reads, Marker, Sized, TokensBytes, TokensOk;
    match item
    case Alone(f, code) =>
    case Segment(f, code, payload) => ReadsSplit(bytes, i, Marker(f, code), Sized(payload));
    case Scan(f, header, tokens) => ReadsSplit(bytes, i, Marker(f, SOS), Sized(header) + TokensBytes(tokens));
  }

  lemma WalkEnd(bytes: seq<Byte>, i: nat, m: nat, frame: Option<Size>, scans: nat)
    requires i < |bytes| && bytes[i] == FILL && m == SkipFill(bytes, i) && m < |bytes| && bytes[m] == EOI
    ensures Walk(bytes, i, frame, scans) == if frame.Some? && scans > 0 then WithinLimit(frame.value, 4) else Cut
  { }

  lemma WalkAlone(bytes: seq<Byte>, i: nat, m: nat, frame: Option<Size>, scans: nat)
    requires i < |bytes| && bytes[i] == FILL && m == SkipFill(bytes, i) && m < |bytes| && AloneCode(bytes[m])
    ensures Walk(bytes, i, frame, scans) == Walk(bytes, m + 1, frame, scans)
  { }

  lemma WalkHeaded(bytes: seq<Byte>, i: nat, m: nat, frame: Option<Size>, scans: nat)
    requires i < |bytes| && bytes[i] == FILL && m == SkipFill(bytes, i) && m < |bytes| && bytes[m] != EOI
    requires !AloneCode(bytes[m])
    ensures Walk(bytes, i, frame, scans) == WalkSegment(bytes, m, frame, scans)
  { }

  lemma SegmentRead(bytes: seq<Byte>, i: nat, fill: nat, code: Byte, payload: seq<Byte>, frame: Option<Size>,
        scans: nat)
    requires ItemOk(Segment(fill, code, payload)) && Reads(bytes, i, ItemBytes(Segment(fill, code, payload)))
    requires FrameCode(code) ==> FrameSize(payload).Some? && WithinLimit(FrameSize(payload).value, 4).Fine?
    ensures Walk(bytes, i, frame, scans) ==
            Walk(bytes, i + |ItemBytes(Segment(fill, code, payload))|,
                 if FrameCode(code) then FrameSize(payload) else frame, scans)
  {
    hide Reads, Walk, WithinLimit, FrameSize, Entropy, Marker, Word;
    ReadsSplit(bytes, i, Marker(fill, code), Sized(payload));
    MarkerRead(bytes, i, fill, code);
    SizedRead(bytes, i + fill + 2, payload);
    WalkHeaded(bytes, i, i + fill + 1, frame, scans);
  }

  lemma ScanRead(bytes: seq<Byte>, i: nat, f: nat, header: seq<Byte>, tokens: seq<Token>, rest: seq<Item>, fill: nat,
        frame: Option<Size>, scans: nat)
    requires ItemOk(Scan(f, header, tokens)) && Reads(bytes, i, ItemBytes(Scan(f, header, tokens))) && frame.Some?
    requires ItemsOk(rest) && !InScan(FirstCode(rest))
    requires Reads(bytes, i + |ItemBytes(Scan(f, header, tokens))|, Bytes(rest, fill))
    ensures Walk(bytes, i, frame, scans) == Walk(bytes, i + |ItemBytes(Scan(f, header, tokens))|, frame, scans + 1)
  {
    hide Reads, Walk, WithinLimit, FrameSize, Entropy, Marker, Word, TokensOk, TokensBytes, Sized, InScan, FirstCode;
    hide ItemsOk, Bytes;
    var sized := i + f + 2;
    var data := sized + 2 + |header|;
    var next := i + |ItemBytes(Scan(f, header, tokens))|;
    SizedLength(header);
    ReadsSplit(bytes, i, Marker(f, SOS), Sized(header) + TokensBytes(tokens));
    MarkerRead(bytes, i, f, SOS);
    ReadsSplit(bytes, sized, Sized(header), TokensBytes(tokens));
    SizedRead(bytes, sized, header);
    TokensRead(bytes, data, tokens);
    var more := FirstMarker(bytes, next, rest, fill);
    WalkFill(bytes, next, next + more, frame, scans + 1);
    WalkHeaded(bytes, i, i + f + 1, frame, scans);
    WalkScan(bytes, i + f + 1, data, next + more, frame, scans);
  }

  lemma WalkScan(bytes: seq<Byte>, m: nat, data: nat, end: nat, frame: Option<Size>, scans: nat)
    requires m + 3 <= data <= |bytes| && bytes[m] == SOS && frame.Some?
    requires m + 1 + Word(bytes[m + 1], bytes[m + 2]) == data && Entropy(bytes, data) == Some(end)
    ensures WalkSegment(bytes, m, frame, scans) == Walk(bytes, end, frame, scans + 1)
  {
    hide Walk, Entropy;
  }

  // What follows begins with a marker, its fill bytes first.
  lemma FirstMarker(bytes: seq<Byte>, i: nat, items: seq<Item>, fill: nat) returns (more: nat)
    requires ItemsOk(items) && Reads(bytes, i, Bytes(items, fill)) && !InScan(FirstCode(items))
    ensures i + more < |bytes| && (forall k :: i <= k <= i + more ==> bytes[k] == FILL)
    ensures Entropy(bytes, i) == Some(i + more)
  {
    hide Reads, Entropy, Marker, ItemBytes, TokensOk;
    if items == [] {
      more := fill;
      MarkerRead(bytes, i, fill, EOI);
    } else {
      more := items[0].fill;
      ReadsSplit(bytes, i, ItemBytes(items[0]), Bytes(items[1..], fill));
      ItemMarker(bytes, i, items[0]);
      MarkerRead(bytes, i, items[0].fill, CodeOf(items[0]));
    }
  }

  // ---------- splitting what is accepted ----------

  lemma {:induction false} FillMarker(bytes: seq<Byte>, i: nat, m: nat)
    requires i < m < |bytes| && forall k :: i <= k < m ==> bytes[k] == FILL
    ensures Reads(bytes, i, Marker(m - 1 - i, bytes[m]))
    decreases m - i
  {
    if i + 1 < m {
      FillMarker(bytes, i + 1, m);
      ReadsJoin(bytes, i, [FILL], Marker(m - 2 - i, bytes[m]));
    } else {
      assert bytes[i..i + 2] == [FILL, bytes[m]];
    }
  }

  lemma ReadsJoin<T>(text: seq<T>, i: nat, a: seq<T>, b: seq<T>)
    requires Reads(text, i, a) && Reads(text, i + |a|, b)
    ensures Reads(text, i, a + b)
  {
    assert text[i..i + |a + b|] == text[i..i + |a|] + text[i + |a|..i + |a| + |b|];
  }

  // Entropy-coded data splits into tokens; fill bytes of the marker behind it may be left.
  lemma {:induction false} EntropySplits(bytes: seq<Byte>, j: nat, i: nat) returns (tokens: seq<Token>, next: nat)
    requires j <= i <= |bytes| && (forall k :: j <= k < i ==> bytes[k] == FILL) && Entropy(bytes, i).Some?
    requires j < i ==> i < |bytes| && bytes[i] == FILL
    ensures TokensOk(tokens) && Reads(bytes, j, TokensBytes(tokens)) && next == j + |TokensBytes(tokens)|
    ensures next <= Entropy(bytes, i).value && forall k :: next <= k <= Entropy(bytes, i).value ==> bytes[k] == FILL
    ensures !InScan(bytes[Entropy(bytes, i).value + 1]) && bytes[Entropy(bytes, i).value + 1] != FILL
    decreases |bytes| - i
  {
    hide Reads, TokensOk, TokensBytes, TokenOk, TokenBytes, InScan, Entropy;
    EntropyMet(bytes, i);
    if bytes[i] != FILL {
      tokens, next := EntropySplits(bytes, i + 1, i + 1);
      PlainToken(bytes, i);
      tokens := OneToken(bytes, i, Plain(bytes[i]), tokens);
    } else if InScan(bytes[i + 1]) {
      tokens, next := EntropySplits(bytes, i + 2, i + 2);
      EscapedToken(bytes, j, i);
      tokens := OneToken(bytes, j, Escaped(i - j, bytes[i + 1]), tokens);
    } else if bytes[i + 1] == FILL {
      tokens, next := EntropySplits(bytes, j, i + 1);
    } else {
      tokens, next := [], j;
      NoTokens(bytes, j);
    }
  }

  lemma EntropyMet(bytes: seq<Byte>, i: nat)
    requires Entropy(bytes, i).Some?
    ensures i < |bytes| && (bytes[i] != FILL ==> Entropy(bytes, i) == Entropy(bytes, i + 1))
    ensures bytes[i] == FILL ==>
              && i + 1 < |bytes| && (InScan(bytes[i + 1]) ==> Entropy(bytes, i) == Entropy(bytes, i + 2))
              && (bytes[i + 1] == FILL ==> Entropy(bytes, i) == Entropy(bytes, i + 1))
              && (!InScan(bytes[i + 1]) && bytes[i + 1] != FILL ==> Entropy(bytes, i) == Some(i))
    ensures i + 1 < |bytes| && bytes[i + 1] == FILL ==> !InScan(bytes[i + 1])
  { }

  lemma NoTokens(bytes: seq<Byte>, i: nat)
    requires i <= |bytes|
    ensures TokensOk([]) && TokensBytes([]) == [] && Reads(bytes, i, TokensBytes([]))
  { }

  lemma PlainToken(bytes: seq<Byte>, i: nat)
    requires i < |bytes| && bytes[i] != FILL
    ensures TokenOk(Plain(bytes[i])) && Reads(bytes, i, TokenBytes(Plain(bytes[i])))
    ensures |TokenBytes(Plain(bytes[i]))| == 1
  {
    assert bytes[i..i + 1] == [bytes[i]];
  }

  lemma EscapedToken(bytes: seq<Byte>, j: nat, i: nat)
    requires j <= i && i + 1 < |bytes| && (forall k :: j <= k <= i ==> bytes[k] == FILL) && InScan(bytes[i + 1])
    ensures var t := Escaped(i - j, bytes[i + 1]);
              TokenOk(t) && Reads(bytes, j, TokenBytes(t)) && |TokenBytes(t)| == i + 2 - j
  {
    FillMarker(bytes, j, i + 1);
    MarkerRead(bytes, j, i - j, bytes[i + 1]);
  }

  lemma OneToken(bytes: seq<Byte>, i: nat, t: Token, tokens: seq<Token>) returns (more: seq<Token>)
    requires TokenOk(t) && TokensOk(tokens) && Reads(bytes, i, TokenBytes(t))
    requires Reads(bytes, i + |TokenBytes(t)|, TokensBytes(tokens))
    ensures more == [t] + tokens && TokensOk(more) && Reads(bytes, i, TokensBytes(more))
    ensures |TokensBytes(more)| == |TokenBytes(t)| + |TokensBytes(tokens)|
  {
    hide Reads, TokenBytes, TokenOk;
    more := [t] + tokens;
    ReadsJoin(bytes, i, TokenBytes(t), TokensBytes(tokens));
    assert more[1..] == tokens;
  }

  lemma SizedSplits(bytes: seq<Byte>, i: nat, length: nat)
    requires i + 2 <= |bytes| && length == Word(bytes[i], bytes[i + 1]) && 2 <= length && i + length <= |bytes|
    ensures var payload := bytes[i + 2..i + length];
              |payload| + 2 == length < 0x10000 && Reads(bytes, i, Sized(payload))
  {
    var payload := bytes[i + 2..i + length];
    assert length / 0x100 == bytes[i] && length % 0x100 == bytes[i + 1];
    assert bytes[i..i + length] == [bytes[i], bytes[i + 1]] + payload;
  }

  // The payload behind the code at m, and where it ends.
  function Payload(bytes: seq<Byte>, m: nat): seq<Byte>
    requires Sizes(bytes, m)
  {
    bytes[m + 3..Next(bytes, m)]
  }

  function Next(bytes: seq<Byte>, m: nat): nat
    requires m + 2 < |bytes|
  {
    m + 1 + Word(bytes[m + 1], bytes[m + 2])
  }

  predicate Sizes(bytes: seq<Byte>, m: nat) { m + 2 < |bytes| && m + 3 <= Next(bytes, m) <= |bytes| }

  // What an accepting walk has met at the code at m.
  lemma WalkMet(bytes: seq<Byte>, i: nat, frame: Option<Size>, scans: nat) returns (m: nat)
    requires Walk(bytes, i, frame, scans).Fine?
    ensures i < m < |bytes| && m == SkipFill(bytes, i)
    ensures bytes[m] == EOI ==> frame.Some? && scans > 0
    ensures AloneCode(bytes[m]) ==> Walk(bytes, m + 1, frame, scans).Fine?
    ensures bytes[m] != EOI && !AloneCode(bytes[m]) ==> Sizes(bytes, m) && WalkSegment(bytes, m, frame, scans).Fine?
  {
    m := SkipFill(bytes, i);
  }

  lemma SegmentMet(bytes: seq<Byte>, m: nat, frame: Option<Size>, scans: nat)
    requires m < |bytes| && Sizes(bytes, m) && WalkSegment(bytes, m, frame, scans).Fine?
    ensures FrameCode(bytes[m]) ==>
              var size := FrameSize(Payload(bytes, m));
              size.Some? && WithinLimit(size.value, 4).Fine? && Walk(bytes, Next(bytes, m), size, scans).Fine?
    ensures bytes[m] == SOS ==>
              var end := Entropy(bytes, Next(bytes, m));
                frame.Some? && end.Some? && Walk(bytes, end.value, frame, scans + 1).Fine?
    ensures !FrameCode(bytes[m]) && bytes[m] != SOS ==> Walk(bytes, Next(bytes, m), frame, scans).Fine?
  {
    hide Walk;
  }

  // From j on the file is the print of these items.
  ghost predicate Layout(bytes: seq<Byte>, j: nat, items: seq<Item>, fill: nat, framed: bool, scanned: bool) {
    ItemsOk(items) && Reads(bytes, j, Bytes(items, fill)) && Drawable(items, framed, scanned)
  }

  // The items of an accepted file. The walk is at i, the bytes from j on are fill.
  lemma {:induction false} Splits(bytes: seq<Byte>, j: nat, i: nat, frame: Option<Size>, scans: nat)
    returns (items: seq<Item>, fill: nat)
    requires j <= i && (forall k :: j <= k < i ==> k < |bytes| && bytes[k] == FILL)
    requires Walk(bytes, i, frame, scans).Fine?
    ensures Layout(bytes, j, items, fill, frame.Some?, scans > 0)
    ensures i < |bytes| && SkipFill(bytes, i) < |bytes| && FirstCode(items) == bytes[SkipFill(bytes, i)]
    decreases |bytes| - i
  {
    hide Walk, WalkSegment, Reads, WithinLimit, FrameSize, TokensOk, Entropy, Marker, Layout, Payload, FrameAfter;
    var m := WalkMet(bytes, i, frame, scans);
    var code := bytes[m];
    FillMarker(bytes, j, m);
    if code == EOI {
      items, fill := [], m - 1 - j;
      NoItems(bytes, j, fill, frame, scans);
    } else if AloneCode(code) {
      items, fill := Splits(bytes, m + 1, m + 1, frame, scans);
      items := AloneItem(bytes, j, m, items, fill, frame, scans);
    } else {
      SegmentMet(bytes, m, frame, scans);
      if code == SOS {
        var end := Entropy(bytes, Next(bytes, m)).value;
        var tokens, more := EntropySplits(bytes, Next(bytes, m), Next(bytes, m));
        items, fill := Splits(bytes, more, end, frame, scans + 1);
        EndCode(bytes, end);
        items := ScanItem(bytes, j, m, tokens, items, fill, frame, scans);
      } else {
        var after := if FrameCode(code) then FrameSize(Payload(bytes, m)) else frame;
        items, fill := Splits(bytes, Next(bytes, m), Next(bytes, m), after, scans);
        items := SegmentItem(bytes, j, m, items, fill, frame, scans);
      }
    }
  }

  lemma NoItems(bytes: seq<Byte>, j: nat, fill: nat, frame: Option<Size>, scans: nat)
    requires Reads(bytes, j, Marker(fill, EOI)) && frame.Some? && scans > 0
    ensures Layout(bytes, j, [], fill, frame.Some?, scans > 0)
  { }

  lemma AloneItem(bytes: seq<Byte>, j: nat, m: nat, items: seq<Item>, fill: nat, frame: Option<Size>, scans: nat)
    returns (more: seq<Item>)
    requires j < m < |bytes| && AloneCode(bytes[m]) && Reads(bytes, j, Marker(m - 1 - j, bytes[m]))
    requires Layout(bytes, m + 1, items, fill, frame.Some?, scans > 0)
    ensures Layout(bytes, j, more, fill, frame.Some?, scans > 0) && FirstCode(more) == bytes[m]
  {
    hide Reads, Layout, Marker, Drawable;
    MarkerRead(bytes, j, m - 1 - j, bytes[m]);
    more := OneItem(bytes, j, Alone(m - 1 - j, bytes[m]), items, fill, frame, scans);
  }

  // The marker and the sized payload in front of what follows.
  lemma HeadReads(bytes: seq<Byte>, j: nat, m: nat)
    requires j < m < |bytes| && Sizes(bytes, m) && bytes[m] != FILL && Reads(bytes, j, Marker(m - 1 - j, bytes[m]))
    ensures |Payload(bytes, m)| + 2 < 0x10000 && Reads(bytes, j, Marker(m - 1 - j, bytes[m]) + Sized(Payload(bytes, m)))
    ensures |Marker(m - 1 - j, bytes[m]) + Sized(Payload(bytes, m))| == Next(bytes, m) - j
  {
    hide Reads, Marker, Word;
    SizedSplits(bytes, m + 1, Word(bytes[m + 1], bytes[m + 2]));
    MarkerRead(bytes, j, m - 1 - j, bytes[m]);
    ReadsJoin(bytes, j, Marker(m - 1 - j, bytes[m]), Sized(Payload(bytes, m)));
  }

  lemma SegmentItem(bytes: seq<Byte>, j: nat, m: nat, items: seq<Item>, fill: nat, frame: Option<Size>, scans: nat)
    returns (more: seq<Item>)
    requires j < m < |bytes| && Sizes(bytes, m) && Reads(bytes, j, Marker(m - 1 - j, bytes[m]))
    requires bytes[m] !in {FILL, EOI, SOS} && !AloneCode(bytes[m])
    requires FrameCode(bytes[m]) ==>
               FrameSize(Payload(bytes, m)).Some? && WithinLimit(FrameSize(Payload(bytes, m)).value, 4).Fine?
    requires Layout(bytes, Next(bytes, m), items, fill,
               (if FrameCode(bytes[m]) then FrameSize(Payload(bytes, m)) else frame).Some?, scans > 0)
    ensures Layout(bytes, j, more, fill, frame.Some?, scans > 0) && FirstCode(more) == bytes[m]
  {
    hide Reads, Layout, Marker, Drawable, Payload, Next, FrameSize, WithinLimit;
    HeadReads(bytes, j, m);
    more := OneItem(bytes, j, Segment(m - 1 - j, bytes[m], Payload(bytes, m)), items, fill, frame, scans);
  }

  lemma ScanItem(bytes: seq<Byte>, j: nat, m: nat, tokens: seq<Token>, items: seq<Item>, fill: nat,
        frame: Option<Size>, scans: nat)
      returns (more: seq<Item>)
    requires j < m < |bytes| && Sizes(bytes, m) && bytes[m] == SOS && Reads(bytes, j, Marker(m - 1 - j, SOS))
    requires frame.Some?
    requires TokensOk(tokens) && Reads(bytes, Next(bytes, m), TokensBytes(tokens)) && !InScan(FirstCode(items))
    requires Layout(bytes, Next(bytes, m) + |TokensBytes(tokens)|, items, fill, frame.Some?, scans + 1 > 0)
    ensures Layout(bytes, j, more, fill, frame.Some?, scans > 0) && FirstCode(more) == SOS
  {
    hide Reads, Layout, Marker, Drawable, Payload, Next, FrameSize, WithinLimit, TokensBytes, TokensOk, Sized, InScan;
    HeadReads(bytes, j, m);
    var head, header := Marker(m - 1 - j, SOS), Sized(Payload(bytes, m));
    ReadsJoin(bytes, j, head + header, TokensBytes(tokens));
    assert head + header + TokensBytes(tokens) == head + (header + TokensBytes(tokens));
    more := OneItem(bytes, j, Scan(m - 1 - j, Payload(bytes, m), tokens), items, fill, frame, scans);
  }

  lemma EndCode(bytes: seq<Byte>, end: nat)
    requires end + 1 < |bytes| && bytes[end] == FILL && bytes[end + 1] != FILL
    ensures SkipFill(bytes, end) == end + 1
  { }

  lemma OneItem(bytes: seq<Byte>, j: nat, item: Item, items: seq<Item>, fill: nat, frame: Option<Size>, scans: nat)
    returns (more: seq<Item>)
    requires ItemOk(item) && Reads(bytes, j, ItemBytes(item))
    requires (item.Scan? ==> !InScan(FirstCode(items)) && frame.Some?)
    requires Layout(bytes, j + |ItemBytes(item)|, items, fill, FrameAfter(item, frame).Some?,
               ScansAfter(item, scans) > 0)
    requires item.Segment? && FrameCode(item.code) ==>
               FrameSize(item.payload).Some? && WithinLimit(FrameSize(item.payload).value, 4).Fine?
    ensures more == [item] + items && Layout(bytes, j, more, fill, frame.Some?, scans > 0)
  {
    hide Reads, WithinLimit, FrameSize, ItemOk, ItemBytes;
    more := [item] + items;
    ReadsJoin(bytes, j, ItemBytes(item), Bytes(items, fill));
    assert more[1..] == items;
  }

  /**
   A file is accepted exactly when, behind its first two bytes, it is the print
   of well-formed, drawable items up to an end marker; anything may trail it.
   */
  lemma AcceptedIsLayout(bytes: seq<Byte>)
    ensures Walk(bytes, 2, None, 0).Fine? <==>
            exists items: seq<Item>, fill: nat :: Layout(bytes, 2, items, fill, false, false)
  {
    if Walk(bytes, 2, None, 0).Fine? {
      var items, fill := Splits(bytes, 2, 2, None, 0);
    }
    forall items: seq<Item>, fill: nat | Layout(bytes, 2, items, fill, false, false)
      ensures Walk(bytes, 2, None, 0).Fine?
    {
      Accepts(bytes, 2, items, fill, None, 0);
    }
  }
}
