/**
 What the highlighter makes of a block, said over its characters: which lines are fences,
 rulers, headings and quotes, what spans they get, and what state they leave.
 */
module MarkdownEffects {
  import opened Prelude
  import opened Unicode
  import opened MarkdownText
  import opened MarkdownRuns
  import opened Markdown
  import opened MarkdownBlocks

  // ---------- characters ----------

  // Two surrogates that belong together are one character, one that stands alone is
  // replaced, and everything else is what it is.
  lemma DecodeEffect(units: seq<Unit>)
    ensures DecodeLossy([]) == []
    ensures units != [] ==>
              var u: int := units[0];
              if 0xD800 <= u < 0xDC00 && |units| > 1 && 0xDC00 <= units[1] < 0xE000
              then
                DecodeLossy(units) ==
                [0x10000 + (u - 0xD800) * 0x400 + (units[1] as int - 0xDC00)] + DecodeLossy(units[2..])
              else if 0xD800 <= u < 0xE000 then DecodeLossy(units) == [0xFFFD] + DecodeLossy(units[1..])
              else DecodeLossy(units) == [u as Scalar] + DecodeLossy(units[1..])
  { }

  // ---------- lines ----------

  // The property White_Space lists these 25 characters.
  lemma WhiteIs(c: Scalar)
    ensures White(c) <==>
            c in {0x9, 0xA, 0xB, 0xC, 0xD, 0x20, 0x85, 0xA0, 0x1680, 0x2000, 0x2001, 0x2002, 0x2003, 0x2004, 0x2005,
                  0x2006, 0x2007, 0x2008, 0x2009, 0x200A, 0x2028, 0x2029, 0x202F, 0x205F, 0x3000}
  { }

  // White characters up to the k-th, and then this text.
  predicate Behind(text: seq<Scalar>, k: nat, sign: string) {
    && k + |sign| <= |text| && (forall i: nat {:trigger text[i]} :: i < k ==> White(text[i]))
    && (forall i: nat {:trigger sign[i]} :: i < |sign| ==> text[k + i] == sign[i] as int)
  }

  // The line begins with it.
  ghost predicate Begins(text: seq<Scalar>, sign: string) { exists k: nat :: Behind(text, k, sign) }

  // The line is nothing else.
  ghost predicate Only(text: seq<Scalar>, sign: string) {
    exists k: nat ::
      && Behind(text, k, sign)
      && forall i: nat {:trigger text[i]} :: k + |sign| <= i < |text| ==> White(text[i])
  }

  ghost predicate FenceLine(text: seq<Scalar>) { Begins(text, "```") || Begins(text, "~~~") }

  // ---------- what is trimmed ----------

  // White on both sides of a part that neither begins nor ends with white.
  ghost predicate Core(text: seq<Scalar>, a: nat, b: nat) {
    && a <= b <= |text|
    && (forall i: nat {:trigger text[i]} :: i < a || b <= i < |text| ==> White(text[i]))
    && (a < b ==> !White(text[a]) && !White(text[b - 1]))
    && (a == b ==> b == |text|)
  }

  lemma {:induction false} LeadIs(text: seq<Scalar>)
    ensures forall i: nat {:trigger text[i]} :: i < Lead(text) ==> White(text[i])
  {
    if text != [] && White(text[0]) {
      LeadIs(text[1..]);
      forall i: nat | i < Lead(text) ensures White(text[i]) { assert i > 0 ==> text[1..][i - 1] == text[i]; }
    }
  }

  lemma {:induction false} TrimEndIs(text: seq<Scalar>)
    ensures var m := TrimEnd(text);
      && m <= text && (forall i: nat {:trigger text[i]} :: |m| <= i < |text| ==> White(text[i]))
      && (m != [] ==> !White(m[|m| - 1]))
  {
    if text != [] && White(text[|text| - 1]) { TrimEndIs(text[..|text| - 1]); }
  }

  lemma Trims(text: seq<Scalar>) returns (a: nat, b: nat)
    ensures Core(text, a, b) && Trim(text) == text[a..b] && a == Lead(text)
  {
    a := Lead(text);
    LeadIs(text);
    TrimEndIs(text[a..]);
    b := a + |Trim(text)|;
    forall i: nat | b <= i < |text| ensures White(text[i]) { assert text[a..][i - a] == text[i]; }
  }

  lemma CoreUnique(text: seq<Scalar>, a: nat, b: nat, c: nat, d: nat)
    requires Core(text, a, b) && Core(text, c, d)
    ensures a == c && b == d
  {
    assert a < b ==> !White(text[a]) && !White(text[b - 1]);
    assert c < d ==> !White(text[c]) && !White(text[d - 1]);
  }

  // The trimmed text, for whoever knows where it begins and ends.
  lemma TrimIs(text: seq<Scalar>, a: nat, b: nat)
    requires Core(text, a, b)
    ensures Trim(text) == text[a..b] && Lead(text) == a
  {
    var c, d := Trims(text);
    CoreUnique(text, a, b, c, d);
  }

  // A sign that begins with something visible shows where the line begins.
  lemma BeginsAt(text: seq<Scalar>, a: nat, b: nat, k: nat, sign: string)
    requires Core(text, a, b) && Behind(text, k, sign) && sign != ""
    requires forall c :: c in sign ==> '!' <= c <= '~'
    ensures a == k && k + |sign| <= b
  {
    assert sign[0] in sign && sign[|sign| - 1] in sign;
    assert text[k] == sign[0] as int;
    assert text[k + (|sign| - 1)] == sign[|sign| - 1] as int;
    assert !White(text[k]) && !White(text[k + (|sign| - 1)]);
  }

  lemma SignIs(text: seq<Scalar>, a: nat, b: nat, sign: string, m: seq<Scalar>)
    requires Core(text, a, b) && sign != "" && (forall c :: c in sign ==> '!' <= c <= '~')
    requires |m| == |sign| && forall i: nat {:trigger m[i]} :: i < |m| ==> m[i] == sign[i] as int
    ensures m <= text[a..b] <==> Begins(text, sign)
    ensures m == text[a..b] <==> Only(text, sign)
  {
    hide White;
    if m <= text[a..b] {
      forall i: nat | i < |sign| ensures text[a + i] == sign[i] as int { assert m[i] == text[a..b][i]; }
      assert Behind(text, a, sign);
    }
    if k: nat :| Behind(text, k, sign) {
      BeginsAt(text, a, b, k, sign);
      forall i: nat | i < |m| ensures m[i] == text[a..b][i] { assert text[k + i] == sign[i] as int; }
    }
    if Only(text, sign) {
      var k: nat :| Behind(text, k, sign) &&
        forall i: nat {:trigger text[i]} :: k + |sign| <= i < |text| ==> White(text[i]);
      BeginsAt(text, a, b, k, sign);
      assert b == k + |sign|;
    }
  }

  lemma LineIs(text: seq<Scalar>)
    ensures Fence(Trim(text)) <==> FenceLine(text)
    ensures Trim(text) == DASHES <==> Only(text, "---")
    ensures Trim(text) == DOTS <==> Only(text, "...")
  {
    hide Trim, White, Only, Begins;
    var a, b := Trims(text);
    SignIs(text, a, b, "```", TICKS);
    SignIs(text, a, b, "~~~", TILDES);
    SignIs(text, a, b, "---", DASHES);
    SignIs(text, a, b, "...", DOTS);
  }

  // ---------- the state from block to block ----------

  // What a block leaves to the next one: 2 in front matter, 1 in a fence, else 0.
  lemma StateEffect(previous: int, first: bool, text: seq<Scalar>)
    ensures var state := NextState(previous, first, Trim(text));
      && (first && previous <= 0 && Only(text, "---") ==> state == 2)
      && (previous == 2 ==> state == if Only(text, "---") || Only(text, "...") then 0 else 2)
      && (previous != 2 && !(first && previous <= 0 && Only(text, "---")) ==>
            && (FenceLine(text) ==> state == if previous == 1 then 0 else 1)
            && (!FenceLine(text) ==> state == if previous == 1 then 1 else 0))
  {
    hide Trim, Only, FenceLine;
    LineIs(text);
  }

  ghost function FenceCount(blocks: seq<seq<Scalar>>): nat {
    if blocks == [] then 0
    else FenceCount(blocks[..|blocks| - 1]) + if FenceLine(blocks[|blocks| - 1]) then 1 else 0
  }

  ghost predicate Closing(block: seq<Scalar>) { Only(block, "---") || Only(block, "...") }

  // Without front matter a block ends inside a fence when the fence lines so far are odd in number.
  lemma {:induction false} FencesAlternate(blocks: seq<seq<Scalar>>)
    requires blocks != [] && !Only(blocks[0], "---")
    ensures StateAfter(blocks) == FenceCount(blocks) % 2
  {
    hide NextState, Trim, FenceLine, Only;
    var n := |blocks| - 1;
    StateEffect(StateAfter(blocks[..n]), n == 0, blocks[n]);
    if n > 0 { FencesAlternate(blocks[..n]); }
  }

  // Front matter begins in the first block, ends at the first closing line behind
  // it, and fences count from there.
  lemma {:induction false} MatterUntilClosed(blocks: seq<seq<Scalar>>, k: nat)
    requires blocks != [] && Only(blocks[0], "---") && 0 < k <= |blocks|
    requires forall i: nat {:trigger blocks[i]} :: 0 < i < k ==> !Closing(blocks[i])
    requires k < |blocks| ==> Closing(blocks[k])
    ensures k == |blocks| ==> StateAfter(blocks) == 2
    ensures k < |blocks| ==> StateAfter(blocks) == FenceCount(blocks[k + 1..]) % 2
    decreases |blocks|
  {
    hide NextState, Trim, FenceLine, Only;
    var n := |blocks| - 1;
    StateEffect(StateAfter(blocks[..n]), n == 0, blocks[n]);
    if n > 0 {
      if k < n {
        MatterUntilClosed(blocks[..n], k);
        assert blocks[..n][k + 1..] == blocks[k + 1..][..n - k - 1];
        assert blocks[k + 1..][n - k - 1] == blocks[n];
      } else {
        MatterUntilClosed(blocks[..n], n);
        assert k == n ==> blocks[k + 1..] == [];
      }
    }
  }

  // ---------- spans ----------

  // From the i-th character up to the j-th, in UTF-16 units.
  function Stroke(text: seq<Scalar>, i: nat, j: nat, flags: nat, color: nat, heading: nat): seq<Span>
    requires i <= |text| && j <= |text|
  {
    if i < j then [Span(|Units(text[..i])|, |Units(text[i..j])|, flags, color, heading)] else []
  }

  lemma {:induction false} UnitsJoin(a: seq<Scalar>, b: seq<Scalar>)
    ensures Units(a + b) == Units(a) + Units(b)
  {
    if b == [] {
      assert a + b == a;
    } else {
      var n := |b| - 1;
      UnitsJoin(a, b[..n]);
      assert (a + b)[..|a + b| - 1] == a + b[..n];
    }
  }

  lemma Distance(text: seq<Scalar>, i: nat, j: nat)
    requires i <= j <= |text|
    ensures |Units(text[..j])| == |Units(text[..i])| + |Units(text[i..j])|
  {
    assert text[..i] + text[i..j] == text[..j];
    UnitsJoin(text[..i], text[i..j]);
  }

  lemma PieceIs(text: seq<Scalar>, i: nat, j: nat, color: nat, flags: nat, heading: nat)
    requires i <= |text| && j <= |text|
    ensures Boundary(text, |Bytes(text[..i])|) && Boundary(text, |Bytes(text[..j])|)
    ensures Piece(text, |Bytes(text[..i])|, |Bytes(text[..j])|, color, flags, heading) ==
            Stroke(text, i, j, flags, color, heading)
    ensures Bit(text, |Bytes(text[..i])|, |Bytes(text[..j])|, color, flags, heading) ==
            Stroke(text, i, j, flags, color, heading)
  {
    var a, b := |Bytes(text[..i])|, |Bytes(text[..j])|;
    UnitsBeforeAt(text, i, a) by { assert BoundaryAt(text, i, a); }
    UnitsBeforeAt(text, j, b) by { assert BoundaryAt(text, j, b); }
    hide Bytes, Units, Boundary, UnitsBefore;
    if i < j {
      PrefixesGrow(text, i, j);
      Distance(text, i, j);
    } else {
      PrefixesGrow(text, j, i);
    }
  }

  // ---------- blocks that are formatted as a whole ----------

  lemma WholeIs(text: seq<Scalar>, color: nat, flags: nat)
    ensures Whole(text, color, flags) == Layout(Stroke(text, 0, |text|, flags, color, 0), None)
  {
    assert text[..0] == [] && text[..|text|] == text;
    PieceIs(text, 0, |text|, color, flags, 0);
  }

  // Muted and nothing else, in front matter monospaced.
  lemma MatterEffect(text: seq<Scalar>, valid: bool, previous: int, first: bool, item: Option<ListItem>,
        task: Option<Task>)
    requires ListOn(text, item, task)
    ensures var layout := BlockLayout(text, valid, previous, first, item, task);
      && (first && previous <= 0 && Only(text, "---") ==> layout == Layout(Stroke(text, 0, |text|, 0, 1, 0), None))
      && (previous == 2 ==> layout == Layout(Stroke(text, 0, |text|, 32, 1, 0), None))
  {
    hide Trim, Only, FenceLine, LineLayout, Ruler, Whole;
    LineIs(text);
    WholeIs(text, 1, 0);
    WholeIs(text, 1, 32);
  }

  // A fence is one muted span, and what stands in it one span of code, each monospaced on
  // a background.
  lemma FenceEffect(text: seq<Scalar>, valid: bool, previous: int, first: bool, item: Option<ListItem>,
        task: Option<Task>)
    requires ListOn(text, item, task) && previous != 2 && !(first && previous <= 0 && Only(text, "---"))
    ensures var layout := BlockLayout(text, valid, previous, first, item, task);
      && (FenceLine(text) ==> layout == Layout(Stroke(text, 0, |text|, 96, 1, 0), None))
      && (!FenceLine(text) && previous == 1 ==> layout == Layout(Stroke(text, 0, |text|, 96, 3, 0), None))
  {
    hide Trim, Only, FenceLine, LineLayout, Ruler, Whole;
    LineIs(text);
    WholeIs(text, 1, 96);
    WholeIs(text, 3, 96);
  }

  /**
   A document without front matter: a fence line is one muted span, and between an
   opening fence and the next one every block is one span of code.
   */
  lemma FencedEffect(blocks: seq<seq<Scalar>>, i: nat, valid: bool, item: Option<ListItem>, task: Option<Task>)
    requires i < |blocks| && !Only(blocks[0], "---") && ListOn(blocks[i], item, task)
    ensures var layout := BlockLayout(blocks[i], valid, StateAfter(blocks[..i]), i == 0, item, task);
      && (FenceLine(blocks[i]) ==> layout == Layout(Stroke(blocks[i], 0, |blocks[i]|, 96, 1, 0), None))
      && (!FenceLine(blocks[i]) && FenceCount(blocks[..i]) % 2 == 1 ==>
            layout == Layout(Stroke(blocks[i], 0, |blocks[i]|, 96, 3, 0), None))
  {
    hide Only, FenceLine, BlockLayout, NextState;
    if i > 0 { FencesAlternate(blocks[..i]); }
    FenceEffect(blocks[i], valid, StateAfter(blocks[..i]), i == 0, item, task);
  }

  // ---------- blocks of text ----------

  // At least three bytes between the white on both sides, all one of three signs or white.
  ghost predicate RulerLine(text: seq<Scalar>) {
    exists a: nat, b: nat {:trigger Core(text, a, b)} :: Core(text, a, b) && Ruled(text, a, b)
  }

  predicate Ruled(text: seq<Scalar>, a: nat, b: nat)
    requires a <= b <= |text|
  {
    && |Bytes(text[a..b])| >= 3 && a < b
    && (text[a] == '-' as int || text[a] == '*' as int || text[a] == '_' as int)
    && forall i: nat {:trigger text[i]} :: a <= i < b ==> text[i] == text[a] || White(text[i])
  }

  ghost predicate Blank(text: seq<Scalar>) { forall i: nat {:trigger text[i]} :: i < |text| ==> White(text[i]) }

  lemma RuledIs(text: seq<Scalar>, a: nat, b: nat)
    requires a <= b <= |text|
    ensures Ruler(text[a..b]) <==> Ruled(text, a, b)
  {
    hide White;
    var m := text[a..b];
    assert m == [] ==> Bytes(m) == [];
    assert forall i: nat {:trigger m[i]} :: i < |m| ==> m[i] == text[a + i];
    if Ruler(m) {
      forall i: nat | a <= i < b ensures text[i] == text[a] || White(text[i]) { assert m[i - a] in m; }
    }
    if Ruled(text, a, b) {
      forall x: Scalar | x in m ensures x == m[0] || White(x) {
        var i: nat :| i < |m| && m[i] == x;
        assert text[a + i] == text[a] || White(text[a + i]);
      }
    }
  }

  lemma RulerIs(text: seq<Scalar>)
    ensures Ruler(Trim(text)) <==> RulerLine(text)
    ensures Lead(text) == |text| <==> Blank(text)
  {
    hide Ruled, Trim, Ruler, White;
    var a, b := Trims(text);
    RuledIs(text, a, b);
    if RulerLine(text) {
      var c: nat, d: nat :| Core(text, c, d) && Ruled(text, c, d);
      CoreUnique(text, a, b, c, d);
    }
  }

  // Neither front matter nor a fence, nor in one of them.
  ghost predicate InText(text: seq<Scalar>, previous: int, first: bool) {
    previous != 1 && previous != 2 && !(first && previous <= 0 && Only(text, "---")) && !FenceLine(text)
  }

  // The i-th character is the first that is not white.
  ghost predicate Starts(text: seq<Scalar>, i: nat) {
    i < |text| && !White(text[i]) && forall k: nat {:trigger text[k]} :: k < i ==> White(text[k])
  }

  lemma StartsIs(text: seq<Scalar>, i: nat)
    requires Starts(text, i)
    ensures Lead(text) == i && !Blank(text)
  {
    LeadIs(text);
  }

  // A ruler is one muted span, and of a blank block nothing is formatted.
  lemma RulerEffect(text: seq<Scalar>, valid: bool, previous: int, first: bool, item: Option<ListItem>,
        task: Option<Task>)
    requires ListOn(text, item, task) && InText(text, previous, first)
    ensures var layout := BlockLayout(text, valid, previous, first, item, task);
      && (RulerLine(text) ==> layout == Layout(Stroke(text, 0, |text|, 0, 1, 0), None))
      && (!RulerLine(text) && Blank(text) ==> layout == Layout([], None))
      && (!RulerLine(text) && !Blank(text) ==>
            Lead(text) < |text| && layout == LineLayout(text, valid, item, task))
  {
    hide Trim, Only, FenceLine, LineLayout, Ruler, RulerLine, Blank, Whole;
    LineIs(text);
    RulerIs(text);
    WholeIs(text, 1, 0);
  }

  // One to six signs at the beginning, with white or nothing behind them.
  ghost predicate HeadingAt(text: seq<Scalar>, i: nat, n: nat) {
    && Starts(text, i) && 1 <= n <= 6 && i + n <= |text|
    && (forall k: nat {:trigger text[k]} :: i <= k < i + n ==> text[k] == '#' as int)
    && (i + n == |text| || White(text[i + n]))
  }

  lemma {:induction false} HashesIs(text: seq<Scalar>, i: nat)
    requires i <= |text|
    ensures var n := Hashes(text, i); i + n == |text| || text[i + n] != '#' as int
    decreases |text| - i
  {
    if i < |text| && text[i] == HASH { HashesIs(text, i + 1); }
  }

  lemma HeadingIs(text: seq<Scalar>, i: nat)
    requires Starts(text, i)
    ensures Heading(text, i) ==> HeadingAt(text, i, Hashes(text, i))
    ensures forall n: nat :: HeadingAt(text, i, n) ==> Heading(text, i) && n == Hashes(text, i)
  {
    HashesIs(text, i);
    forall n: nat | HeadingAt(text, i, n) ensures n == Hashes(text, i) {
      assert !White(HASH);
    }
  }

  lemma BeginsWith(text: seq<Scalar>, i: nat, sign: string)
    requires Starts(text, i) && sign != "" && '!' <= sign[0] <= '~'
    ensures Begins(text, sign) ==> text[i] == sign[0] as int
    ensures Only(text, sign) ==> Begins(text, sign)
  {
    if k: nat :| Behind(text, k, sign) {
      assert text[k + 0] == sign[0] as int;
    }
  }

  lemma Visible(text: seq<Scalar>, i: nat, sign: Scalar)
    requires Starts(text, i) && text[i] == sign && sign in {'#' as int, '>' as int}
    ensures !FenceLine(text) && !RulerLine(text) && !Only(text, "---")
  {
    BeginsWith(text, i, "```");
    BeginsWith(text, i, "~~~");
    BeginsWith(text, i, "---");
    forall a: nat, b: nat | Core(text, a, b) ensures !Ruled(text, a, b) { assert a < b ==> a == i; }
  }

  /**
   A heading: the line from its first sign on in bold at its level, the signs muted on top
   of it. What comes behind them is formatted as text.
   */
  lemma HeadingEffect(text: seq<Scalar>, valid: bool, previous: int, first: bool, item: Option<ListItem>,
        task: Option<Task>, i: nat, n: nat)
    requires ListOn(text, item, task) && previous != 1 && previous != 2 && HeadingAt(text, i, n)
    ensures BlockLayout(text, valid, previous, first, item, task) ==
            Layout(Stroke(text, i, |text|, 2, 0, n) + Stroke(text, i, i + n, 2, 1, n), Some(|Bytes(text[..i + n])|))
  {
    hide White, Trim, Only, FenceLine, RulerLine, Blank, BlockLayout, LineLayout, Bytes, HeadingAt, ListOn, Stroke;
    HeadingText(text, i, n);
    Visible(text, i, '#' as int);
    StartsIs(text, i);
    RulerEffect(text, valid, previous, first, item, task);
    HeadingLayout(text, valid, item, task, i, n);
  }

  lemma HeadingLayout(text: seq<Scalar>, valid: bool, item: Option<ListItem>, task: Option<Task>, i: nat, n: nat)
    requires ListOn(text, item, task) && HeadingAt(text, i, n) && Lead(text) == i < |text|
    ensures i + n <= |text|
    ensures LineLayout(text, valid, item, task) ==
            Layout(Stroke(text, i, |text|, 2, 0, n) + Stroke(text, i, i + n, 2, 1, n), Some(|Bytes(text[..i + n])|))
  {
    hide White, Bytes, Heading, HeadingAt, Hashes, ListOn, Bit, Stroke, ListLayout, Lead;
    HeadingText(text, i, n);
    HeadingIs(text, i);
    Along(text, i, n);
    PieceIs(text, i, |text|, 0, 2, n);
    PieceIs(text, i, i + n, 1, 2, n);
    assert text[..|text|] == text;
  }

  lemma HeadingText(text: seq<Scalar>, i: nat, n: nat)
    requires HeadingAt(text, i, n)
    ensures Starts(text, i) && i + n <= |text| && text[i] == '#' as int
    ensures forall k: nat {:trigger text[k]} :: i <= k < i + n ==> text[k] < 0x80
  {
    assert text[i + 0] == '#' as int;
  }

  lemma Along(text: seq<Scalar>, i: nat, n: nat)
    requires i + n <= |text| && forall k: nat {:trigger text[k]} :: i <= k < i + n ==> text[k] < 0x80
    ensures |Bytes(text[..i + n])| == |Bytes(text[..i])| + n
  {
    AsciiSteps(text, i, |Bytes(text[..i])|, n);
  }

  // A quote: the line in italics, its sign muted.
  lemma QuoteEffect(text: seq<Scalar>, valid: bool, previous: int, first: bool, item: Option<ListItem>,
        task: Option<Task>, i: nat)
    requires ListOn(text, item, task) && previous != 1 && previous != 2 && Starts(text, i) && text[i] == '>' as int
    ensures BlockLayout(text, valid, previous, first, item, task) ==
            Layout(Stroke(text, i, |text|, 4, 4, 0) + Stroke(text, i, i + 1, 0, 1, 0), Some(|Bytes(text[..i + 1])|))
  {
    hide White, Trim, Only, FenceLine, RulerLine, Blank, BlockLayout, LineLayout, Bytes, ListOn, Stroke;
    Visible(text, i, '>' as int);
    StartsIs(text, i);
    RulerEffect(text, valid, previous, first, item, task);
    QuoteLayout(text, valid, item, task, i);
  }

  lemma QuoteLayout(text: seq<Scalar>, valid: bool, item: Option<ListItem>, task: Option<Task>, i: nat)
    requires ListOn(text, item, task) && Lead(text) == i < |text| && text[i] == '>' as int
    ensures LineLayout(text, valid, item, task) ==
            Layout(Stroke(text, i, |text|, 4, 4, 0) + Stroke(text, i, i + 1, 0, 1, 0), Some(|Bytes(text[..i + 1])|))
  {
    hide White, Bytes, Heading, Hashes, ListOn, Bit, Stroke, ListLayout, Lead;
    NoHash(text, i);
    Along(text, i, 1);
    PieceIs(text, i, |text|, 4, 4, 0);
    PieceIs(text, i, i + 1, 1, 0, 0);
    assert text[..|text|] == text;
  }

  lemma NoHash(text: seq<Scalar>, i: nat)
    requires i < |text| && text[i] != '#' as int
    ensures !Heading(text, i)
  { }

  // The box of a task has a sign in it that is no space.
  predicate Checked(text: seq<Scalar>, content: nat)
    requires content < |Bytes(text)|
  {
    Bytes(text)[content] != ' ' as int
  }

  /**
   A line of a list, of which the patterns tell the marker and the box of a task: the
   marker stands out, an empty box is muted, and behind a box that is checked all is
   struck through. A line that is none is text from its first character on.
   */
  lemma ListEffect(text: seq<Scalar>, valid: bool, previous: int, first: bool, item: Option<ListItem>,
        task: Option<Task>, i: nat)
    requires ListOn(text, item, task) && InText(text, previous, first) && !RulerLine(text)
    requires Starts(text, i) && text[i] != '>' as int && forall n: nat :: !HeadingAt(text, i, n)
    ensures var layout := BlockLayout(text, valid, previous, first, item, task);
      if !valid || item.None? then layout == Layout([], Some(|Bytes(text[..i])|))
      else
        var marker := Bit(text, item.value.start, item.value.end, 2, 0, 0);
        match task
        case None => layout == Layout(marker, Some(item.value.after))
        case Some(box) =>
          layout == Layout(marker +
            (if Checked(text, box.content)
             then Bit(text, box.start, box.end, 5, 2, 0) + Bit(text, box.end, |Bytes(text)|, 1, 8, 0)
             else Bit(text, box.start, box.end, 1, 2, 0)), Some(box.end))
  {
    hide White, Trim, Only, FenceLine, RulerLine, BlockLayout, Bytes, Heading, HeadingAt, Hashes, Bit, ListOn;
    StartsIs(text, i);
    HeadingIs(text, i);
    RulerEffect(text, valid, previous, first, item, task);
    if valid && item.Some? { ListIs(text, item, task); }
  }

  lemma ListIs(text: seq<Scalar>, item: Option<ListItem>, task: Option<Task>)
    requires ListOn(text, item, task) && item.Some?
    ensures var marker := Bit(text, item.value.start, item.value.end, 2, 0, 0);
      ListLayout(text, item.value, task) ==
        match task
        case None => Layout(marker, Some(item.value.after))
        case Some(box) =>
          Layout(marker +
            (if Checked(text, box.content)
             then Bit(text, box.start, box.end, 5, 2, 0) + Bit(text, box.end, |Bytes(text)|, 1, 8, 0)
             else Bit(text, box.start, box.end, 1, 2, 0)), Some(box.end))
  {
    hide Bytes, Bit, Boundary;
  }

  // ---------- which backticks belong together ----------

  // How many there are in the i-th run.
  function Ticks(runs: seq<Run>, i: nat): int
    requires i < |runs|
  {
    runs[i].end as int - runs[i].start as int
  }

  // A later run of no more backticks; of all these one of the most, and of those the first.
  ghost predicate Closes(runs: seq<Run>, i: nat, c: nat) {
    && i < c < |runs| && Ticks(runs, c) <= Ticks(runs, i)
    && (forall k: nat {:trigger runs[k]} :: i < k < |runs| && Ticks(runs, k) <= Ticks(runs, i) ==>
          Ticks(runs, k) <= Ticks(runs, c))
    && (forall k: nat {:trigger runs[k]} :: i < k < c ==> Ticks(runs, k) != Ticks(runs, c))
  }

  // No later run has as few.
  ghost predicate Lone(runs: seq<Run>, i: nat) {
    i < |runs| && forall k: nat {:trigger runs[k]} :: i < k < |runs| ==> Ticks(runs, i) < Ticks(runs, k)
  }

  // Pairs from left to right, one behind the other, and no run left out that has a match.
  ghost predicate PairedUp(runs: seq<Run>, from: nat, pairs: seq<Pair>) {
    && (forall j: nat {:trigger pairs[j]} :: j < |pairs| ==>
          from <= pairs[j].opening && Closes(runs, pairs[j].opening, pairs[j].closing))
    && (forall j: nat {:trigger pairs[j]} :: j + 1 < |pairs| ==> pairs[j].closing < pairs[j + 1].opening)
    && (forall i: nat {:trigger Lone(runs, i)} :: from <= i < |runs| && Outside(pairs, i) ==> Lone(runs, i))
  }

  ghost predicate Outside(pairs: seq<Pair>, i: nat) {
    forall j: nat {:trigger pairs[j]} :: j < |pairs| ==> i < pairs[j].opening || pairs[j].closing < i
  }

  ghost predicate Nonempty(runs: seq<Run>) {
    forall i: nat {:trigger runs[i]} :: i < |runs| ==> runs[i].start < runs[i].end
  }

  lemma TicksIs(runs: seq<Run>, k: nat)
    requires Nonempty(runs) && k < |runs|
    ensures Length(runs[k]) == Ticks(runs, k) > 0
  { }

  lemma MatchesIs(runs: seq<Run>, i: nat, c: nat)
    requires Nonempty(runs)
    ensures Matches(runs, i, c) <==> Closes(runs, i, c)
    ensures Unmatched(runs, i) <==> Lone(runs, i)
    ensures Lone(runs, i) ==> !Closes(runs, i, c)
  {
    hide Length, Ticks, Nonempty;
    forall k: nat | k < |runs| ensures Length(runs[k]) == Ticks(runs, k) { TicksIs(runs, k); }
  }

  lemma {:induction false} InOrder(runs: seq<Run>, from: nat, pairs: seq<Pair>, j: nat)
    requires PairedUp(runs, from, pairs) && 0 < j < |pairs|
    ensures pairs[0].closing < pairs[j].opening
  {
    assert Closes(runs, pairs[j - 1].opening, pairs[j - 1].closing) && pairs[j - 1 + 1] == pairs[j];
    if j > 1 { InOrder(runs, from, pairs, j - 1); }
  }

  lemma PairsSkip(runs: seq<Run>, from: nat, pairs: seq<Pair>)
    requires from < |runs|
    ensures PairedUp(runs, from + 1, pairs) && Lone(runs, from) ==> PairedUp(runs, from, pairs)
    ensures PairedUp(runs, from, pairs) && Outside(pairs, from) ==> PairedUp(runs, from + 1, pairs) && Lone(runs, from)
  {
    hide Lone;
    if PairedUp(runs, from, pairs) && Outside(pairs, from) {
      assert Lone(runs, from);
      forall j: nat | j < |pairs| ensures from + 1 <= pairs[j].opening {
        assert Closes(runs, pairs[j].opening, pairs[j].closing);
      }
    }
  }

  lemma PairsOne(runs: seq<Run>, from: nat, p: Pair, rest: seq<Pair>)
    requires p.opening == from && Closes(runs, from, p.closing)
    ensures PairedUp(runs, p.closing + 1, rest) ==> PairedUp(runs, from, [p] + rest)
    ensures PairedUp(runs, from, [p] + rest) ==> PairedUp(runs, p.closing + 1, rest)
  {
    hide PairedUp;
    CloseBehind(runs, from, p.closing);
    if PairedUp(runs, p.closing + 1, rest) { PairBefore(runs, from, p, rest); }
    if PairedUp(runs, from, [p] + rest) { PairBehind(runs, from, p, rest); }
  }

  lemma PairBefore(runs: seq<Run>, from: nat, p: Pair, rest: seq<Pair>)
    requires p.opening == from && from < p.closing && Closes(runs, from, p.closing)
    requires PairedUp(runs, p.closing + 1, rest)
    ensures PairedUp(runs, from, [p] + rest)
  {
    hide Lone, Closes, Outside;
    var pairs := [p] + rest;
    assert forall j: nat {:trigger pairs[j]} :: 0 < j < |pairs| ==> pairs[j] == rest[j - 1];
    forall i: nat | from <= i < |runs| && Outside(pairs, i) ensures Lone(runs, i) { OutsideOne(p, rest, i); }
  }

  lemma PairBehind(runs: seq<Run>, from: nat, p: Pair, rest: seq<Pair>)
    requires p.opening == from && from < p.closing && PairedUp(runs, from, [p] + rest)
    ensures PairedUp(runs, p.closing + 1, rest)
  {
    hide Lone, Closes, Outside;
    var pairs := [p] + rest;
    assert forall j: nat {:trigger rest[j]} :: j < |rest| ==> rest[j] == pairs[j + 1];
    forall j: nat | j < |rest| ensures p.closing + 1 <= rest[j].opening { InOrder(runs, from, pairs, j + 1); }
    forall i: nat | p.closing + 1 <= i < |runs| && Outside(rest, i) ensures Lone(runs, i) { OutsideOne(p, rest, i); }
  }

  lemma CloseBehind(runs: seq<Run>, i: nat, c: nat)
    requires Closes(runs, i, c)
    ensures i < c < |runs|
  { }

  lemma OutsideOne(p: Pair, rest: seq<Pair>, i: nat)
    ensures Outside([p] + rest, i) <==> (i < p.opening || p.closing < i) && Outside(rest, i)
  {
    var pairs := [p] + rest;
    assert forall j: nat {:trigger rest[j]} :: j < |rest| ==> rest[j] == pairs[j + 1];
    assert forall j: nat {:trigger pairs[j]} :: 0 < j < |pairs| ==> pairs[j] == rest[j - 1];
    assert pairs[0] == p;
  }

  // The rule without its order of looking: which backticks open and close code.
  lemma {:induction false} RuleEffect(runs: seq<Run>, from: nat, pairs: seq<Pair>)
    requires Nonempty(runs)
    ensures Rule(runs, from, pairs) <==> PairedUp(runs, from, pairs)
    decreases |runs| - from
  {
    hide PairedUp, Matches, Unmatched, Lone, Closes;
    if from >= |runs| {
      NoneLeft(runs, from, pairs);
    } else {
      MatchesIs(runs, from, 0);
      RuleEffect(runs, from + 1, pairs);
      PairsSkip(runs, from, pairs);
      if pairs != [] {
        var p, rest := pairs[0], pairs[1..];
        assert pairs == [p] + rest;
        MatchesIs(runs, from, p.closing);
        if PairedUp(runs, from, pairs) && !Outside(pairs, from) { FirstPair(runs, from, pairs); }
        if p.opening == from && Closes(runs, from, p.closing) {
          CloseBehind(runs, from, p.closing);
          RuleEffect(runs, p.closing + 1, rest);
          PairsOne(runs, from, p, rest);
        }
      }
      NoPair(runs, from, pairs);
    }
  }

  lemma NoneLeft(runs: seq<Run>, from: nat, pairs: seq<Pair>)
    requires from >= |runs|
    ensures PairedUp(runs, from, pairs) <==> pairs == []
  {
    assert PairedUp(runs, from, pairs) ==> |pairs| == 0 || Closes(runs, pairs[0].opening, pairs[0].closing);
  }

  // A run that is in a pair, and the first that may be, opens the first pair.
  lemma FirstPair(runs: seq<Run>, from: nat, pairs: seq<Pair>)
    requires PairedUp(runs, from, pairs) && !Outside(pairs, from)
    ensures pairs != [] && pairs[0].opening == from && Closes(runs, from, pairs[0].closing)
  {
    var j: nat :| j < |pairs| && pairs[j].opening <= from <= pairs[j].closing;
    assert j == 0 || Closes(runs, pairs[j - 1].opening, pairs[j - 1].closing);
  }

  lemma NoPair(runs: seq<Run>, from: nat, pairs: seq<Pair>)
    ensures pairs == [] ==> Outside(pairs, from)
  { }

  // ---------- inline spans ----------

  function At(text: seq<Scalar>, i: nat): nat
    requires i <= |text|
  {
    |Bytes(text[..i])|
  }

  // A match from the i-th character up to the l-th, formatted by what stands from the j-th
  // up to the k-th.
  function FoundAt(text: seq<Scalar>, kind: nat, i: nat, j: nat, k: nat, l: nat): Found
    requires i <= j <= k <= l <= |text|
  {
    Found(kind, At(text, i), At(text, l), At(text, j), At(text, k))
  }

  /**
   Links and emphasis: what is between the marks in the colour and style of its kind, the
   marks muted. An address is underlined as it stands.
   */
  lemma MarksEffect(text: seq<Scalar>, kind: nat, i: nat, j: nat, k: nat, l: nat)
    requires 1 <= kind <= 6 && i <= j <= k <= l <= |text| && FoundAt(text, kind, i, j, k, l).On(text)
    ensures var marks := Stroke(text, i, j, 0, 1, 0) + Stroke(text, k, l, 0, 1, 0);
            Marks(text, FoundAt(text, kind, i, j, k, l)) ==
            match kind
            case 1 => Stroke(text, j, k, 0, 2, 0) + marks
            case 2 => Stroke(text, i, l, 16, 2, 0)
            case 3 => Stroke(text, j, k, 7, 6, 0) + marks
            case 4 => Stroke(text, j, k, 3, 6, 0) + marks
            case 5 => Stroke(text, j, k, 9, 1, 0) + marks
            case _ => Stroke(text, j, k, 5, 6, 0) + marks
  {
    hide Stroke, Around, Bytes, Boundary, Piece;
    match kind
    case 2 => PieceIs(text, i, l, 2, 16, 0);
    case _ =>
      var (color, flags) :=
        match kind case 1 => (2, 0) case 3 => (6, 7) case 4 => (6, 3) case 5 => (1, 9) case _ => (6, 5);
      AroundIs(text, kind, i, j, k, l, color, flags);
  }

  lemma AroundIs(text: seq<Scalar>, kind: nat, i: nat, j: nat, k: nat, l: nat, color: nat, flags: nat)
    requires i <= j <= k <= l <= |text| && FoundAt(text, kind, i, j, k, l).On(text)
    ensures Around(text, FoundAt(text, kind, i, j, k, l), color, flags) ==
            Stroke(text, j, k, flags, color, 0) + (Stroke(text, i, j, 0, 1, 0) + Stroke(text, k, l, 0, 1, 0))
  {
    hide Stroke, Bytes, Boundary, Piece;
    PieceIs(text, j, k, color, flags, 0);
    PieceIs(text, i, j, 1, 0, 0);
    PieceIs(text, k, l, 1, 0, 0);
  }

  // A wiki link stands out as a whole, its brackets muted, with the sign of an embedding
  // before the opening ones if it has one.
  lemma WikiEffect(text: seq<Scalar>, i: nat, embeds: nat, l: nat)
    requires i + embeds + 2 <= l - 2 && l <= |text|
    requires forall x: nat {:trigger text[x]} :: i <= x < i + embeds + 2 || l - 2 <= x < l ==> text[x] < 0x80
    ensures var f := FoundAt(text, 0, i, i, i + embeds, l);
      && f.On(text)
      && Marks(text, f) ==
         Stroke(text, i, l, 0, 2, 0) + Stroke(text, i, i + embeds + 2, 0, 1, 0) + Stroke(text, l - 2, l, 0, 1, 0)
  {
    hide Piece, Boundary, Bytes, Stroke;
    Along(text, i, embeds);
    Along(text, i, embeds + 2);
    Along(text, l - 2, 2);
    PrefixesGrow(text, i, l);
    PieceIs(text, i, i + embeds, 1, 0, 0);
    PieceIs(text, i, l, 2, 0, 0);
    PieceIs(text, i, i + embeds + 2, 1, 0, 0);
    PieceIs(text, l - 2, l, 1, 0, 0);
  }

  // Code from the last backticks of one run, as many as the other has, up to the end of
  // the other: monospaced on a background, both fences muted.
  lemma CodeEffect(text: seq<Scalar>, runs: seq<Run>, p: Pair, a: nat, b: nat, c: nat, d: nat)
    requires PairOn(text, runs, p) && a <= |text| && b <= |text| && c <= |text| && d <= |text|
    requires At(text, b) == runs[p.opening].end && At(text, c) == runs[p.closing].start
    requires At(text, d) == runs[p.closing].end
    requires At(text, a) == At(text, b) - (At(text, d) - At(text, c))
    ensures PairSpans(text, runs, p) ==
            Stroke(text, a, d, 96, 3, 0) + Stroke(text, a, b, 0, 1, 0) + Stroke(text, c, d, 0, 1, 0)
  {
    hide Piece, Boundary, Bytes;
    PieceIs(text, a, d, 3, 96, 0);
    PieceIs(text, a, b, 1, 0, 0);
    PieceIs(text, c, d, 1, 0, 0);
  }

  // And it is claimed.
  lemma {:induction false} CodeClaimed(text: seq<Scalar>, runs: seq<Run>, pairs: seq<Pair>, s: nat)
    requires PairsOn(text, runs, pairs)
    ensures s in CodeClaims(text, runs, pairs) <==>
            exists i: nat :: i < |pairs| && s == runs[pairs[i].opening].end -
              (runs[pairs[i].closing].end - runs[pairs[i].closing].start)
    ensures s in CodeClaims(text, runs, pairs) ==>
            exists i: nat :: i < |pairs| && CodeClaims(text, runs, pairs)[s] == runs[pairs[i].closing].end &&
              s == runs[pairs[i].opening].end - (runs[pairs[i].closing].end - runs[pairs[i].closing].start)
  {
    hide Boundary;
    if pairs != [] {
      CodeClaimed(text, runs, pairs[..|pairs| - 1], s);
    }
  }

  // Pattern by pattern a match is formatted, and claimed for good, unless it overlaps what
  // is claimed before it.
  lemma GreedyEffect(text: seq<Scalar>, base: map<nat, nat>, found: seq<Found>, f: Found)
    requires AllOn(text, found) && f.On(text)
    ensures AllOn(text, found + [f])
    ensures var claims := Claimed(base, found);
      if exists s: nat :: s in claims && s < f.end && f.start < claims[s]
      then
        Claimed(base, found + [f]) == claims && Marked(text, base, found + [f]) == Marked(text, base, found)
      else
        && Claimed(base, found + [f]) == claims[f.start := f.end]
        && Marked(text, base, found + [f]) == Marked(text, base, found) + Marks(text, f)
    ensures Claimed(base, []) == base && Marked(text, base, []) == []
  {
    hide Marks, Boundary;
    assert (found + [f])[..|found|] == found;
  }

  // The matches of the seven patterns come one behind the other.
  lemma {:induction false} FlatEffect(found: seq<seq<Found>>, more: seq<seq<Found>>, one: seq<Found>)
    ensures Flat([]) == [] && Flat([one]) == one && Flat(found + more) == Flat(found) + Flat(more)
  {
    assert [one][..0] == [];
    if more == [] {
      assert found + more == found;
    } else {
      var n := |more| - 1;
      FlatEffect(found, more[..n], one);
      assert (found + more)[..|found + more| - 1] == found + more[..n];
    }
  }
}
