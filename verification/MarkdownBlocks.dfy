/**
 One block of the document: front matter, fences, rules, headings, quotes and
 lists, and the state carried from block to block.
 */
module MarkdownBlocks {
  import opened Prelude
  import opened Unicode
  import opened MarkdownText
  import opened MarkdownRuns
  import opened Markdown

  const TEXT := 0
  const QUOTE := 4
  const DONE := 5

  const DASH: Scalar := 0x2D
  const STAR: Scalar := 0x2A
  const UNDERSCORE: Scalar := 0x5F
  const HASH: Scalar := 0x23
  const GREATER: Scalar := 0x3E
  const DASHES: seq<Scalar> := [DASH, DASH, DASH]
  const DOTS: seq<Scalar> := [0x2E, 0x2E, 0x2E]
  const TICKS: seq<Scalar> := [0x60, 0x60, 0x60]
  const TILDES: seq<Scalar> := [0x7E, 0x7E, 0x7E]

  // The states between blocks.
  const PLAIN := 0
  const FENCED := 1
  const MATTER := 2

  // The Unicode property White_Space.
  predicate White(c: Scalar) {
    0x09 <= c <= 0x0D || c in {0x20, 0x85, 0xA0, 0x1680} || 0x2000 <= c <= 0x200A ||
      c in {0x2028, 0x2029, 0x202F, 0x205F, 0x3000}
  }

  function Lead(text: seq<Scalar>): (n: nat)
    ensures n <= |text| && (n < |text| ==> !White(text[n]))
  {
    if text != [] && White(text[0]) then 1 + Lead(text[1..]) else 0
  }

  function TrimEnd(text: seq<Scalar>): seq<Scalar> {
    if text != [] && White(text[|text| - 1]) then TrimEnd(text[..|text| - 1]) else text
  }

  function Trim(text: seq<Scalar>): seq<Scalar> { TrimEnd(text[Lead(text)..]) }

  predicate Fence(trimmed: seq<Scalar>) { TICKS <= trimmed || TILDES <= trimmed }

  predicate Ruler(trimmed: seq<Scalar>) {
    && |Bytes(trimmed)| >= 3 && trimmed[0] in {DASH, STAR, UNDERSCORE}
    && forall c :: c in trimmed ==> c == trimmed[0] || White(c)
  }

  // ---------- the state from block to block ----------

  function NextState(previous: int, first: bool, trimmed: seq<Scalar>): int {
    if previous <= 0 && first && trimmed == DASHES then MATTER
    else if previous == MATTER then if trimmed == DASHES || trimmed == DOTS then PLAIN else MATTER
    else if Fence(trimmed) then if previous != FENCED then FENCED else PLAIN
    else if previous == FENCED then FENCED
    else PLAIN
  }

  // The state after the blocks of a document; -1 stands before the first one.
  function StateAfter(blocks: seq<seq<Scalar>>): int {
    if blocks == [] then -1
    else NextState(StateAfter(blocks[..|blocks| - 1]), |blocks| == 1, Trim(blocks[|blocks| - 1]))
  }

  // ---------- a block ----------

  // A list marker and where its match ends; a task box behind it.
  datatype ListItem = ListItem(start: nat, end: nat, after: nat)
  datatype Task = Task(start: nat, end: nat, content: nat)

  ghost predicate ListOn(text: seq<Scalar>, item: Option<ListItem>, task: Option<Task>) {
    && (item.Some? ==>
      Boundary(text, item.value.start) && Boundary(text, item.value.end) && Boundary(text, item.value.after))
    && (task.Some? ==>
      Boundary(text, task.value.start) && Boundary(text, task.value.end) && task.value.content < |Bytes(text)|)
  }

  // What a block is formatted with before its inline spans, and where those begin.
  datatype Layout = Layout(spans: seq<Span>, inline: Option<nat>)

  // A piece between two character boundaries.
  ghost function Bit(text: seq<Scalar>, start: nat, end: nat, color: nat, flags: nat, heading: nat): seq<Span> {
    if Boundary(text, start) && Boundary(text, end) then Piece(text, start, end, color, flags, heading) else []
  }

  ghost function Whole(text: seq<Scalar>, color: nat, flags: nat): Layout {
    Layout(Bit(text, 0, |Bytes(text)|, color, flags, 0), None)
  }

  function Hashes(text: seq<Scalar>, i: nat): (n: nat)
    requires i <= |text|
    ensures i + n <= |text| && forall k :: i <= k < i + n ==> text[k] == HASH
    decreases |text| - i
  {
    if i < |text| && text[i] == HASH then 1 + Hashes(text, i + 1) else 0
  }

  predicate Heading(text: seq<Scalar>, lead: nat)
    requires lead <= |text|
  {
    var n := Hashes(text, lead);
    1 <= n <= 6 && (lead + n == |text| || White(text[lead + n]))
  }

  ghost function BlockLayout(text: seq<Scalar>, valid: bool, previous: int, first: bool, item: Option<ListItem>,
        task: Option<Task>): Layout
    requires ListOn(text, item, task)
  {
    var trimmed := Trim(text);
    if previous <= 0 && first && trimmed == DASHES then Whole(text, MUTED, 0)
    else if previous == MATTER then Whole(text, MUTED, MONO)
    else if Fence(trimmed) then Whole(text, MUTED, MONO + BACKGROUND)
    else if previous == FENCED then Whole(text, CODE, MONO + BACKGROUND)
    else if Ruler(trimmed) then Whole(text, MUTED, 0)
    else if Lead(text) == |text| then Layout([], None)
    else LineLayout(text, valid, item, task)
  }

  // A heading, a quote or a line that may be a list item.
  ghost function LineLayout(text: seq<Scalar>, valid: bool, item: Option<ListItem>, task: Option<Task>): Layout
    requires ListOn(text, item, task) && Lead(text) < |text|
  {
    var lead, length := Lead(text), |Bytes(text)|;
    var cursor := |Bytes(text[..lead])|;
    if Heading(text, lead) then
      var n := Hashes(text, lead);
      Layout(Bit(text, cursor, length, TEXT, BOLD, n) + Bit(text, cursor, cursor + n, MUTED, BOLD, n), Some(cursor + n))
    else if text[lead] == GREATER then
      Layout(Bit(text, cursor, length, QUOTE, ITALIC, 0) + Bit(text, cursor, cursor + 1, MUTED, 0, 0), Some(cursor + 1))
    else if valid && item.Some? then ListLayout(text, item.value, task)
    else Layout([], Some(cursor))
  }

  ghost function ListLayout(text: seq<Scalar>, item: ListItem, task: Option<Task>): Layout
    requires ListOn(text, Some(item), task)
  {
    var marker := Bit(text, item.start, item.end, ACCENT, 0, 0);
    match task
    case None => Layout(marker, Some(item.after))
    case Some(box) =>
      var done := Bytes(text)[box.content] != 0x20;
      Layout(marker + Bit(text, box.start, box.end, if done then DONE else MUTED, BOLD, 0)
        + (if done then Bit(text, box.end, |Bytes(text)|, MUTED, STRIKE, 0) else []), Some(box.end))
  }

  lemma {:induction false} AsciiSteps(text: seq<Scalar>, k: nat, byte: nat, n: nat)
    requires BoundaryAt(text, k, byte) && k + n <= |text| && forall i: nat {:trigger text[i]} :: k <= i < k + n ==>
               text[i] < 0x80
    ensures BoundaryAt(text, k + n, byte + n) && Boundary(text, byte + n)
    decreases n
  {
    if n > 0 {
      AsciiSteps(text, k, byte, n - 1);
      assert text[..k + n][..k + n - 1] == text[..k + n - 1];
      assert text[k + n - 1] < 0x80;
    }
    assert BoundaryAt(text, k + n, byte + n);
  }

  // text.len() - text.trim_start().len()
  method FindLead(text: seq<Scalar>) returns (lead: nat, cursor: nat)
    ensures lead == Lead(text) && cursor == |Bytes(text[..lead])|
  {
    hide Utf8;
    lead, cursor := 0, 0;
    assert text[0..] == text;
    while lead < |text| && White(text[lead])
      invariant lead <= |text| && cursor == |Bytes(text[..lead])| && Lead(text) == lead + Lead(text[lead..])
    {
      assert text[..lead + 1][..lead] == text[..lead];
      assert text[lead..][1..] == text[lead + 1..];
      cursor := cursor + |Utf8(text[lead])|;
      lead := lead + 1;
    }
  }

  // The spans of a block: its layout, and behind it, when the inline part is run,
  // the code spans of the rule from where that begins and the matches free of them.
  ghost predicate BlockSpans(text: seq<Scalar>, eligible: bool, layout: Layout, found: seq<seq<Found>>,
        exhausted: bool, runs: seq<Run>, pairs: seq<Pair>, spans: seq<Span>)
  {
    if layout.inline.None? || !eligible || exhausted then spans == layout.spans
    else
      && AreRuns(Bytes(text), layout.inline.value, |Bytes(text)|, runs) && Rule(runs, 0, pairs)
      && PairsOn(text, runs, pairs) && AllOn(text, Flat(found))
      && spans == layout.spans + CodeSpans(text, runs, pairs) + Marked(text, CodeClaims(text, runs, pairs), Flat(found))
  }

  /**
   The block parser: `item` and `task` are what the two list patterns match,
   `found` and `exhausted` are for the inline part.
   */
  method Block(parser: Parser, previous: int, first: bool, item: Option<ListItem>, task: Option<Task>,
        found: seq<seq<Found>>, exhausted: bool) returns (state: int, ghost runs: seq<Run>, ghost pairs: seq<Pair>)
    requires parser.Valid() && parser.spans == [] && parser.claims == map[]
    requires ListOn(parser.source.text, item, task) && |found| == 7 && FoundOn(parser.source.text, found)
    modifies parser
    ensures parser.Valid() && state == NextState(previous, first, Trim(parser.source.text))
    ensures var layout := BlockLayout(parser.source.text, parser.source.valid, previous, first, item, task);
      BlockSpans(parser.source.text, Eligible(parser.source), layout, found, exhausted, runs, pairs, parser.spans)
  {
    hide TableOk, AllInRange, Disjoint, Boundary, Trim, Fence, Ruler, Piece;
    hide AreRuns, Rule, PairsOn, AllOn, CodeSpans, CodeClaims, Marked, Flat, Claimed, LineLayout;
    runs, pairs := [], [];
    var text := parser.source.text;
    var length := |parser.source.bytes|;
    WholeBoundary(text);
    var trimmed := Trim(text);
    if previous <= 0 && first && trimmed == DASHES {
      parser.Emit(0, length, MUTED, 0, 0);
      return MATTER, runs, pairs;
    }
    if previous == MATTER {
      parser.Emit(0, length, MUTED, MONO, 0);
      return if trimmed == DASHES || trimmed == DOTS then PLAIN else MATTER, runs, pairs;
    }
    if Fence(trimmed) {
      parser.Emit(0, length, MUTED, MONO + BACKGROUND, 0);
      return if previous != FENCED then FENCED else PLAIN, runs, pairs;
    }
    if previous == FENCED {
      parser.Emit(0, length, CODE, MONO + BACKGROUND, 0);
      return FENCED, runs, pairs;
    }
    if Ruler(trimmed) {
      parser.Emit(0, length, MUTED, 0, 0);
      return PLAIN, runs, pairs;
    }
    if Lead(text) == |text| { return PLAIN, runs, pairs; }
    var after := Line(parser, item, task);
    runs, pairs := parser.Inline(after, found, exhausted);
    state := PLAIN;
  }

  method Line(parser: Parser, item: Option<ListItem>, task: Option<Task>) returns (after: nat)
    requires parser.Valid() && ListOn(parser.source.text, item, task) && Lead(parser.source.text) < |parser.source.text|
    requires parser.spans == []
    modifies parser`spans
    ensures parser.Valid() && after <= |parser.source.bytes|
    ensures LineLayout(parser.source.text, parser.source.valid, item, task) == Layout(parser.spans, Some(after))
  {
    hide TableOk, AllInRange, Disjoint, Boundary, Piece, White, Lead, Units, Bytes, ListLayout, ListOn, Hashes;
    var text := parser.source.text;
    WholeBoundary(text);
    var lead, cursor := FindLead(text);
    UnitsBeforeAt(text, lead, cursor);
    after := cursor;
    if Heading(text, lead) {
      var n := Hashes(text, lead);
      AsciiSteps(text, lead, cursor, n);
      Prefixed(parser, cursor, n, TEXT, BOLD, BOLD, n);
      after := cursor + n;
    } else if text[lead] == GREATER {
      AsciiSteps(text, lead, cursor, 1);
      Prefixed(parser, cursor, 1, QUOTE, ITALIC, 0, 0);
      after := cursor + 1;
    } else if parser.source.valid && item.Some? {
      after := ListLine(parser, item.value, task);
    }
    UnitsBeforeMonotone(text, after, after);
  }

  // The rest of the line, and its n leading characters muted.
  method Prefixed(parser: Parser, cursor: nat, n: nat, color: nat, flags: nat, muted: nat, heading: nat)
    requires parser.Valid() && parser.spans == []
    requires Boundary(parser.source.text, cursor) && Boundary(parser.source.text, cursor + n)
    modifies parser`spans
    ensures parser.Valid()
    ensures var text := parser.source.text;
      parser.spans ==
        Bit(text, cursor, |Bytes(text)|, color, flags, heading) + Bit(text, cursor, cursor + n, MUTED, muted, heading)
  {
    hide TableOk, AllInRange, Disjoint, Boundary, Piece, Units;
    WholeBoundary(parser.source.text);
    parser.Emit(cursor, |parser.source.bytes|, color, flags, heading);
    parser.Emit(cursor, cursor + n, MUTED, muted, heading);
  }

  method ListLine(parser: Parser, item: ListItem, task: Option<Task>) returns (after: nat)
    requires parser.Valid() && ListOn(parser.source.text, Some(item), task) && parser.spans == []
    modifies parser`spans
    ensures parser.Valid() && Boundary(parser.source.text, after)
    ensures ListLayout(parser.source.text, item, task) == Layout(parser.spans, Some(after))
  {
    hide TableOk, AllInRange, Disjoint, Boundary, Piece, Units;
    var text := parser.source.text;
    WholeBoundary(text);
    parser.Emit(item.start, item.end, ACCENT, 0, 0);
    after := item.after;
    if task.Some? {
      var done := parser.source.bytes[task.value.content] != 0x20;
      parser.Emit(task.value.start, task.value.end, if done then DONE else MUTED, BOLD, 0);
      after := task.value.end;
      if done { parser.Emit(after, |parser.source.bytes|, MUTED, STRIKE, 0); }
    }
  }

  // From UTF-16 to spans: none of them is skipped by the guard on Qt's side.
  method Highlight(input: seq<Unit>, previous: int, first: bool, item: Option<ListItem>, task: Option<Task>,
        found: seq<seq<Found>>, exhausted: bool)
    returns (spans: seq<Span>, state: int, ghost runs: seq<Run>, ghost pairs: seq<Pair>)
    requires ListOn(DecodeLossy(input), item, task) && |found| == 7 && FoundOn(DecodeLossy(input), found)
    ensures forall i: nat {:trigger spans[i]} :: i < |spans| ==> spans[i].start + spans[i].length <= |input|
    ensures state == NextState(previous, first, Trim(DecodeLossy(input)))
    ensures var text := DecodeLossy(input);
      var eligible := Paired(input) && 0x0A !in text && |input| <= 131_072;
      BlockSpans(text, eligible, BlockLayout(text, Paired(input), previous, first, item, task), found, exhausted, runs,
        pairs, spans)
  {
    hide TableOk, NextState, Trim, BlockSpans, BlockLayout;
    var source := NewSource(input);
    var parser := new Parser(source);
    state, runs, pairs := Block(parser, previous, first, item, task, found, exhausted);
    spans := parser.spans;
  }
}
