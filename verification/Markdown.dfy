/**
 The inline engine of the highlighter: claims over byte intervals, spans in
 UTF-16 units, code spans first and the seven patterns after them.
 */
module Markdown {
  import opened Prelude
  import opened Unicode
  import opened MarkdownText
  import opened MarkdownRuns

  const INHERIT := 1
  const BOLD := 2
  const ITALIC := 4
  const STRIKE := 8
  const UNDERLINE := 16
  const MONO := 32
  const BACKGROUND := 64

  const MUTED := 1
  const ACCENT := 2
  const CODE := 3
  const KEEP_COLOR := 6


  datatype Span = Span(start: nat, length: nat, flags: nat, color: nat, heading: nat)

  // What the highlighter on Qt's side asks of a span before it formats it.
  predicate InRange(span: Span, units: nat) {
    span.start <= units && span.length <= units - span.start
  }

  ghost predicate AllInRange(spans: seq<Span>, units: nat) {
    forall i: nat {:trigger spans[i]} :: i < |spans| ==> InRange(spans[i], units)
  }

  // ---------- claims ----------

  // Claims by start position: never empty, and disjoint.
  ghost predicate Disjoint(claims: map<nat, nat>) {
    && (forall s: nat :: s in claims ==> s < claims[s])
    && (forall s: nat, t: nat :: s in claims && t in claims && s < t ==> claims[s] <= t)
  }

  ghost predicate Free(claims: map<nat, nat>, start: nat, end: nat) {
    forall s: nat :: s in claims ==> claims[s] <= start || end <= s
  }

  // Only the neighbour that starts last before `end` can be in the way.
  lemma OneNeighbour(claims: map<nat, nat>, start: nat, end: nat, neighbour: Option<nat>)
    requires Disjoint(claims) && start < end && IsFloor(claims.Keys, end - 1, neighbour)
    ensures (neighbour.None? || claims[neighbour.value] <= start) <==> Free(claims, start, end)
    ensures Free(claims, start, end) ==> start !in claims && Disjoint(claims[start := end])
  { }

  // ---------- what the patterns find ----------

  /**
   A match of pattern `kind`, in bytes. `left` and `right` bound the capture the
   pattern is formatted by: the optional `!` of kind 0, else the label or body.
   */
  datatype Found = Found(kind: nat, start: nat, end: nat, left: nat, right: nat)
  {
    ghost predicate On(text: seq<Scalar>) {
      && start < end && Boundary(text, start) && Boundary(text, end)
      && left <= right && Boundary(text, left) && Boundary(text, right)
      && (kind == 0 ==> end >= 2 && Boundary(text, start + (right - left) + 2) && Boundary(text, end - 2))
    }
  }

  ghost predicate AllOn(text: seq<Scalar>, found: seq<Found>) {
    forall f: Found :: f in found ==> f.On(text)
  }

  ghost function Piece(text: seq<Scalar>, start: nat, end: nat, color: nat, flags: nat, heading: nat): seq<Span>
    requires Boundary(text, start) && Boundary(text, end)
  {
    if end <= start then []
    else
      UnitsBeforeMonotone(text, start, end);
      [Span(UnitsBefore(text, start), UnitsBefore(text, end) - UnitsBefore(text, start), flags, color, heading)]
  }

  // Each kind of match in its colours: the whole or its body, then its marks.
  ghost function Marks(text: seq<Scalar>, f: Found): seq<Span>
    requires f.On(text)
  {
    if f.kind == 0 then
      Piece(text, f.start, f.end, ACCENT, 0, 0)
      + Piece(text, f.start, f.start + (f.right - f.left) + 2, MUTED, 0, 0)
      + Piece(text, f.end - 2, f.end, MUTED, 0, 0)
    else if f.kind == 1 then Around(text, f, ACCENT, 0)
    else if f.kind == 2 then Piece(text, f.start, f.end, ACCENT, UNDERLINE, 0)
    else if f.kind == 3 then Around(text, f, KEEP_COLOR, INHERIT + BOLD + ITALIC)
    else if f.kind == 4 then Around(text, f, KEEP_COLOR, INHERIT + BOLD)
    else if f.kind == 5 then Around(text, f, MUTED, INHERIT + STRIKE)
    else Around(text, f, KEEP_COLOR, INHERIT + ITALIC)
  }

  ghost function Around(text: seq<Scalar>, f: Found, color: nat, flags: nat): seq<Span>
    requires f.On(text)
  {
    Piece(text, f.left, f.right, color, flags, 0)
    + Piece(text, f.start, f.left, MUTED, 0, 0)
    + Piece(text, f.right, f.end, MUTED, 0, 0)
  }

  // First come, first served: a match is kept when it is free of all kept before it.
  ghost function Claimed(base: map<nat, nat>, found: seq<Found>): map<nat, nat> {
    if found == [] then base
    else
      var before, f := Claimed(base, found[..|found| - 1]), found[|found| - 1];
      if Free(before, f.start, f.end) then before[f.start := f.end] else before
  }

  ghost function Marked(text: seq<Scalar>, base: map<nat, nat>, found: seq<Found>): seq<Span>
    requires AllOn(text, found)
  {
    if found == [] then []
    else
      var earlier, f := found[..|found| - 1], found[|found| - 1];
      Marked(text, base, earlier) + if Free(Claimed(base, earlier), f.start, f.end) then Marks(text, f) else []
  }

  // Claims stay disjoint, nothing claimed is given up, and every match is
  // claimed or overlaps a claim.
  lemma {:induction false} ClaimedIsMaximal(text: seq<Scalar>, base: map<nat, nat>, found: seq<Found>)
    requires Disjoint(base) && AllOn(text, found)
    ensures Disjoint(Claimed(base, found))
    ensures forall s: nat :: s in base ==> s in Claimed(base, found) && Claimed(base, found)[s] == base[s]
    ensures forall f: Found :: f in found ==> !Free(Claimed(base, found), f.start, f.end)
  {
    hide Free, Disjoint, Boundary;
    if found != [] {
      var earlier, f := found[..|found| - 1], found[|found| - 1];
      assert found == earlier + [f];
      assert f in found && f.On(text);
      ClaimedIsMaximal(text, base, earlier);
      var before, after := Claimed(base, earlier), Claimed(base, found);
      OneMore(before, f.start, f.end);
      forall g: Found | g in found ensures !Free(after, g.start, g.end) {
        assert g in earlier ==> !Free(before, g.start, g.end);
      }
    }
  }

  lemma OneMore(claims: map<nat, nat>, start: nat, end: nat)
    requires Disjoint(claims) && start < end
    ensures var after := if Free(claims, start, end) then claims[start := end] else claims;
      && Disjoint(after) && !Free(after, start, end)
      && (forall s: nat :: s in claims ==> s in after && after[s] == claims[s])
      && (forall a: nat, b: nat {:trigger Free(after, a, b)} {:trigger Free(claims, a, b)} :: Free(after, a, b) ==>
        Free(claims, a, b))
  {
    if Free(claims, start, end) {
      assert start !in claims;
      var after := claims[start := end];
      assert start in after;
      forall a: nat, b: nat | Free(after, a, b) ensures Free(claims, a, b) {
        forall s: nat | s in claims ensures claims[s] <= a || b <= s { assert s in after; }
      }
    }
  }

  // The matches of the seven patterns, in the order they are looked for.
  function Flat(found: seq<seq<Found>>): seq<Found> {
    if found == [] then [] else Flat(found[..|found| - 1]) + found[|found| - 1]
  }

  ghost predicate FoundOn(text: seq<Scalar>, found: seq<seq<Found>>) {
    forall k: nat, f: Found {:trigger f in found[k]} :: k < |found| && f in found[k] ==> f.On(text) && f.kind == k
  }

  lemma {:induction false} FlatOn(text: seq<Scalar>, found: seq<seq<Found>>, n: nat)
    requires FoundOn(text, found) && n <= |found|
    ensures AllOn(text, Flat(found[..n]))
  {
    if n > 0 {
      FlatOn(text, found, n - 1);
      assert found[..n][..n - 1] == found[..n - 1] && found[..n][n - 1] == found[n - 1];
    }
  }

  lemma KindOn(text: seq<Scalar>, found: seq<seq<Found>>, k: nat)
    requires FoundOn(text, found) && k < |found|
    ensures AllOn(text, found[k])
  { }

  // The matches of earlier patterns and the first j of pattern k are dealt with.
  ghost predicate Formatted(text: seq<Scalar>, base: map<nat, nat>, before: seq<Span>, done: seq<Found>,
        spans: seq<Span>, claims: map<nat, nat>)
  {
    AllOn(text, done) && spans == before + Marked(text, base, done) && claims == Claimed(base, done)
  }

  lemma FormattedNone(text: seq<Scalar>, base: map<nat, nat>, before: seq<Span>)
    ensures Formatted(text, base, before, [], before, base)
  { }

  lemma FormattedOne(text: seq<Scalar>, base: map<nat, nat>, before: seq<Span>, done: seq<Found>, f: Found,
        spans: seq<Span>, claims: map<nat, nat>)
    requires Formatted(text, base, before, done, spans, claims) && f.On(text)
    ensures Free(claims, f.start, f.end) ==>
              Formatted(text, base, before, done + [f], spans + Marks(text, f), claims[f.start := f.end])
    ensures !Free(claims, f.start, f.end) ==> Formatted(text, base, before, done + [f], spans, claims)
  {
    hide Marks, Free;
    assert (done + [f])[..|done|] == done;
  }

  // ---------- code spans ----------

  function Opening(runs: seq<Run>, p: Pair): int
    requires p.opening < |runs| && p.closing < |runs|
  {
    runs[p.opening].end - Length(runs[p.closing])
  }

  ghost predicate PairOn(text: seq<Scalar>, runs: seq<Run>, p: Pair) {
    && p.opening < p.closing < |runs|
    && runs[p.opening].start <= Opening(runs, p) < runs[p.opening].end < runs[p.closing].start < runs[p.closing].end
    && Boundary(text, Opening(runs, p)) && Boundary(text, runs[p.opening].end)
    && Boundary(text, runs[p.closing].start) && Boundary(text, runs[p.closing].end)
  }

  ghost predicate PairsOn(text: seq<Scalar>, runs: seq<Run>, pairs: seq<Pair>) {
    forall i: nat {:trigger pairs[i]} :: i < |pairs| ==> PairOn(text, runs, pairs[i])
  }

  ghost function PairSpans(text: seq<Scalar>, runs: seq<Run>, p: Pair): seq<Span>
    requires PairOn(text, runs, p)
  {
    Piece(text, Opening(runs, p), runs[p.closing].end, CODE, MONO + BACKGROUND, 0)
    + Piece(text, Opening(runs, p), runs[p.opening].end, MUTED, 0, 0)
    + Piece(text, runs[p.closing].start, runs[p.closing].end, MUTED, 0, 0)
  }

  ghost function CodeSpans(text: seq<Scalar>, runs: seq<Run>, pairs: seq<Pair>): seq<Span>
    requires PairsOn(text, runs, pairs)
  {
    if pairs == [] then []
    else CodeSpans(text, runs, pairs[..|pairs| - 1]) + PairSpans(text, runs, pairs[|pairs| - 1])
  }

  ghost function CodeClaims(text: seq<Scalar>, runs: seq<Run>, pairs: seq<Pair>): map<nat, nat>
    requires PairsOn(text, runs, pairs)
  {
    if pairs == [] then map[]
    else
      var p := pairs[|pairs| - 1];
      CodeClaims(text, runs, pairs[..|pairs| - 1])[Opening(runs, p) := runs[p.closing].end]
  }

  lemma RunBoundaries(text: seq<Scalar>, from: nat, runs: seq<Run>, i: nat, byte: nat)
    requires AreRuns(Bytes(text), from, |Bytes(text)|, runs) && i < |runs| && runs[i].start <= byte <= runs[i].end
    ensures Boundary(text, byte)
  {
    if byte < runs[i].end {
      assert Bytes(text)[byte] == BACKTICK;
      BacktickBoundary(text, byte);
    } else {
      assert Bytes(text)[byte - 1] == BACKTICK;
      BacktickBoundary(text, byte - 1);
    }
  }

  lemma MatchOn(text: seq<Scalar>, from: nat, runs: seq<Run>, p: Pair)
    requires AreRuns(Bytes(text), from, |Bytes(text)|, runs) && Matches(runs, p.opening, p.closing)
    ensures PairOn(text, runs, p)
  {
    var o, c := runs[p.opening], runs[p.closing];
    EndsBefore(Bytes(text), from, runs, p.opening, p.closing);
    RunBoundaries(text, from, runs, p.opening, Opening(runs, p));
    RunBoundaries(text, from, runs, p.opening, o.end);
    RunBoundaries(text, from, runs, p.closing, c.start);
    RunBoundaries(text, from, runs, p.closing, c.end);
  }

  // The pairs so far take the rule from the first run to run `index`.
  ghost predicate RuleSoFar(runs: seq<Run>, index: nat, pairs: seq<Pair>) {
    forall rest: seq<Pair> {:trigger Rule(runs, index, rest)} :: Rule(runs, index, rest) ==> Rule(runs, 0, pairs + rest)
  }

  lemma RuleStarts(runs: seq<Run>)
    ensures RuleSoFar(runs, 0, [])
  {
    forall rest: seq<Pair> | Rule(runs, 0, rest) ensures Rule(runs, 0, [] + rest) {
      assert [] + rest == rest;
    }
  }

  lemma RuleSkips(runs: seq<Run>, index: nat, pairs: seq<Pair>)
    requires RuleSoFar(runs, index, pairs) && Unmatched(runs, index)
    ensures RuleSoFar(runs, index + 1, pairs)
  {
    forall rest: seq<Pair> | Rule(runs, index + 1, rest) ensures Rule(runs, 0, pairs + rest) {
      assert Rule(runs, index, rest);
    }
  }

  lemma RuleMatches(runs: seq<Run>, index: nat, pairs: seq<Pair>, p: Pair)
    requires RuleSoFar(runs, index, pairs) && p.opening == index && Matches(runs, index, p.closing)
    ensures RuleSoFar(runs, p.closing + 1, pairs + [p])
  {
    forall rest: seq<Pair> | Rule(runs, p.closing + 1, rest) ensures Rule(runs, 0, pairs + [p] + rest) {
      assert ([p] + rest)[1..] == rest;
      assert Rule(runs, index, [p] + rest);
      assert pairs + [p] + rest == pairs + ([p] + rest);
    }
  }

  lemma RuleEnds(runs: seq<Run>, index: nat, pairs: seq<Pair>)
    requires RuleSoFar(runs, index, pairs) && index >= |runs|
    ensures Rule(runs, 0, pairs)
  {
    assert Rule(runs, index, []);
    assert pairs + [] == pairs;
  }

  // ---------- the parser ----------

  predicate Eligible(source: Source) {
    source.valid && LINE_FEED !in source.text && source.units <= MAX_INLINE_UNITS
  }

  class Parser {
    const source: Source
    var spans: seq<Span>
    var claims: map<nat, nat>

    ghost predicate Valid()
      reads this
    {
      source.Valid() && Disjoint(claims) && AllInRange(spans, source.units)
    }

    constructor (source: Source)
      requires source.Valid()
      ensures Valid() && this.source == source && spans == [] && claims == map[]
    {
      this.source := source;
      spans := [];
      claims := map[];
    }

    method Emit(start: nat, end: nat, color: nat, flags: nat, heading: nat)
      requires Valid() && Boundary(source.text, start) && Boundary(source.text, end)
      modifies this`spans
      ensures Valid() && spans == old(spans) + Piece(source.text, start, end, color, flags, heading)
    {
      hide AllInRange, Boundary, UnitsBefore, TableOk, Bytes, Units;
      if end <= start { return; }
      UnitsBeforeMonotone(source.text, start, end);
      var first := source.Offset(start);
      var last := source.Offset(end);
      RangeKept(spans, Span(first, last - first, flags, color, heading), source.units);
      spans := spans + [Span(first, last - first, flags, color, heading)];
    }

    // Accepts an interval exactly when it overlaps no earlier claim.
    method Claim(start: nat, end: nat) returns (accepted: bool)
      requires Valid() && start < end
      modifies this`claims
      ensures Valid() && accepted == Free(old(claims), start, end)
      ensures accepted ==> start !in old(claims) && claims == old(claims)[start := end]
      ensures !accepted ==> claims == old(claims)
    {
      var neighbour := Floor(claims.Keys, end - 1);
      OneNeighbour(claims, start, end, neighbour);
      if neighbour.Some? && claims[neighbour.value] > start { return false; }
      claims := claims[start := end];
      accepted := true;
    }

    // One code span: the whole, its two fences, and its claim.
    method Mark(runs: seq<Run>, p: Pair)
      requires Valid() && PairOn(source.text, runs, p)
      requires EndBy(claims, runs[p.opening].start)
      modifies this
      ensures Valid() && spans == old(spans) + PairSpans(source.text, runs, p)
      ensures claims == old(claims)[Opening(runs, p) := runs[p.closing].end]
      ensures EndBy(claims, runs[p.closing].end)
    {
      hide Piece, Boundary, AllInRange, Bytes, Units, TableOk;
      var open, close := runs[p.opening], runs[p.closing];
      var start := open.end - (close.end - close.start);
      Emit(start, close.end, CODE, MONO + BACKGROUND, 0);
      Emit(start, open.end, MUTED, 0, 0);
      Emit(close.start, close.end, MUTED, 0, 0);
      var accepted := Claim(start, close.end);
    }

    // A kept match in its colours.
    method Format(f: Found)
      requires Valid() && f.On(source.text)
      modifies this`spans
      ensures Valid() && spans == old(spans) + Marks(source.text, f)
    {
      hide Piece, Boundary, AllInRange, Bytes, Units, TableOk, Disjoint;
      if f.kind == 0 {
        Emit(f.start, f.end, ACCENT, 0, 0);
        Emit(f.start, f.start + f.right - f.left + 2, MUTED, 0, 0);
        Emit(f.end - 2, f.end, MUTED, 0, 0);
      } else if f.kind == 1 {
        Emit(f.left, f.right, ACCENT, 0, 0);
        Emit(f.start, f.left, MUTED, 0, 0);
        Emit(f.right, f.end, MUTED, 0, 0);
      } else if f.kind == 2 {
        Emit(f.start, f.end, ACCENT, UNDERLINE, 0);
      } else {
        var flags := INHERIT +
          match f.kind
          case 3 => BOLD + ITALIC
          case 4 => BOLD
          case 5 => STRIKE
          case _ => ITALIC;
        Emit(f.left, f.right, if f.kind == 5 then MUTED else KEEP_COLOR, flags, 0);
        Emit(f.start, f.left, MUTED, 0, 0);
        Emit(f.right, f.end, MUTED, 0, 0);
      }
    }

    // The matches of one pattern, each kept unless it overlaps an earlier claim.
    method Keep(found: seq<Found>, ghost base: map<nat, nat>, ghost before: seq<Span>, ghost done: seq<Found>)
      requires Valid() && AllOn(source.text, found)
      requires Formatted(source.text, base, before, done, spans, claims)
      modifies this
      ensures Valid() && Formatted(source.text, base, before, done + found, spans, claims)
    {
      hide Formatted, Marks, Free, Disjoint, AllInRange, Boundary, Bytes, Units, TableOk;
      var i := 0;
      assert done + found[..0] == done;
      while i < |found|
        invariant i <= |found| && Valid()
        invariant Formatted(source.text, base, before, done + found[..i], spans, claims)
      {
        var f := found[i];
        assert f in found && f.On(source.text);
        FormattedOne(source.text, base, before, done + found[..i], f, spans, claims);
        var accepted := Claim(f.start, f.end);
        if accepted { Format(f); }
        assert done + found[..i + 1] == done + found[..i] + [f];
        i := i + 1;
      }
      assert found[..i] == found;
    }

    /**
     The spans of one line: `found` is what each pattern matches, one after the
     other, and `exhausted` says the search budget ran out on the way.
     */
    method Inline(from: nat, found: seq<seq<Found>>, exhausted: bool)
      returns (ghost runs: seq<Run>, ghost pairs: seq<Pair>)
      requires Valid() && claims == map[] && from <= |source.bytes|
      requires |found| == 7 && FoundOn(source.text, found)
      modifies this
      ensures Valid()
      ensures !Eligible(source) || exhausted ==> spans == old(spans)
      ensures Eligible(source) ==>
                && AreRuns(source.bytes, from, |source.bytes|, runs) && Rule(runs, 0, pairs)
                && PairsOn(source.text, runs, pairs) && AllOn(source.text, Flat(found))
                && claims == Claimed(CodeClaims(source.text, runs, pairs), Flat(found))
                && (!exhausted ==> spans == old(spans) + CodeSpans(source.text, runs, pairs)
                                   + Marked(source.text, CodeClaims(source.text, runs, pairs), Flat(found)))
    {
      hide AreRuns, Rule, Matches, PairsOn, CodeSpans, CodeClaims, Claimed, Marked, AllOn, Disjoint, AllInRange;
      hide Bytes, Units, Boundary;
      runs, pairs := [], [];
      WholeBoundary(source.text);
      var length := source.Offset(|source.bytes|);
      if !source.valid || LINE_FEED in source.text || length > MAX_INLINE_UNITS { return; }
      var original := |spans|;
      runs, pairs := Code(from);
      ghost var base, before, done := claims, spans, [];
      FormattedNone(source.text, base, before);
      var kind := 0;
      while kind < |found|
        invariant kind <= |found| && Valid() && done == Flat(found[..kind])
        invariant Formatted(source.text, base, before, done, spans, claims)
      {
        KindOn(source.text, found, kind);
        Keep(found[kind], base, before, done);
        done := done + found[kind];
        assert found[..kind + 1][..kind] == found[..kind];
        kind := kind + 1;
      }
      assert found[..|found|] == found;
      if exhausted {
        assert spans[..original] == old(spans);
        spans := spans[..original];
      }
    }

    // The runs of the text and the pairs the rule makes of them, in colour.
    method Code(from: nat) returns (ghost runs: seq<Run>, ghost pairs: seq<Pair>)
      requires Valid() && claims == map[] && from <= |source.bytes|
      modifies this
      ensures Valid() && AreRuns(source.bytes, from, |source.bytes|, runs) && Rule(runs, 0, pairs)
      ensures PairsOn(source.text, runs, pairs)
      ensures spans == old(spans) + CodeSpans(source.text, runs, pairs)
      ensures claims == CodeClaims(source.text, runs, pairs)
    {
      hide AreRuns, Indexed, Rule, RuleSoFar, Matches, Unmatched, Bytes, PairsOn, CodeSpans, CodeClaims, EndBy;
      hide Disjoint, AllInRange;
      var list, future := Scan(source.bytes, from);
      runs, pairs := list, [];
      RuleStarts(runs);
      NoPairs(source.text, runs);
      var index := 0;
      while index < |list|
        invariant index <= |list| && runs == list && Valid() && Indexed(future, list, index)
        invariant Coded(source.text, old(spans), list, index, pairs, spans, claims)
      {
        EndsBefore(source.bytes, from, runs, index, index);
        var closing;
        future, closing := Take(future, list, index);
        pairs := CodeAt(from, list, index, closing, old(spans), pairs);
        index := index + 1;
        if closing.Some? { future, index := DropThrough(future, list, index, closing.value); }
      }
      RuleEnds(runs, index, pairs);
    }

    // One run: passed over, or marked up to the run that closes it.
    method CodeAt(ghost from: nat, runs: seq<Run>, index: nat, closing: Option<nat>, ghost before: seq<Span>,
          ghost pairs: seq<Pair>)
        returns (ghost after: seq<Pair>)
      requires Valid() && AreRuns(source.bytes, from, |source.bytes|, runs) && index < |runs|
      requires closing.None? ==> Unmatched(runs, index)
      requires closing.Some? ==> Matches(runs, index, closing.value)
      requires Coded(source.text, before, runs, index, pairs, spans, claims)
      modifies this
      ensures Valid() && (closing.Some? ==> closing.value < |runs|)
      ensures Coded(source.text, before, runs, (if closing.Some? then closing.value else index) + 1, after, spans,
                claims)
    {
      hide AreRuns, Rule, RuleSoFar, Matches, Unmatched, Bytes, PairsOn, PairOn, PairSpans, CodeSpans, CodeClaims;
      hide EndBy, Disjoint, AllInRange;
      match closing {
        case None =>
          RuleSkips(runs, index, pairs);
          after := pairs;
          ClaimsBehind(source.bytes, from, runs, index, claims, runs[index].start);
        case Some(c) =>
          MatchBounds(runs, index, c);
          after := CodePair(from, runs, Pair(index, c), before, pairs);
      }
    }

    method CodePair(ghost from: nat, runs: seq<Run>, p: Pair, ghost before: seq<Span>, ghost pairs: seq<Pair>)
        returns (ghost after: seq<Pair>)
      requires Valid() && AreRuns(source.bytes, from, |source.bytes|, runs) && p.opening < p.closing < |runs|
      requires Matches(runs, p.opening, p.closing) && Coded(source.text, before, runs, p.opening, pairs, spans, claims)
      modifies this
      ensures Valid() && Coded(source.text, before, runs, p.closing + 1, after, spans, claims)
    {
      assert source.bytes == Bytes(source.text);
      hide AreRuns, Rule, RuleSoFar, Matches, Unmatched, Bytes, PairsOn, PairOn, PairSpans, CodeSpans, CodeClaims;
      hide EndBy, Disjoint, AllInRange;
      hide Source.Valid, Boundary, Piece, Opening, TableOk, UnitsBefore, Coded;
      MatchOn(source.text, from, runs, p);
      ghost var spansBefore, claimsBefore := spans, claims;
      CodedEnd(source.text, before, runs, p.opening, pairs, spans, claims);
      Mark(runs, p);
      CodedPair(source.text, from, before, runs, p, pairs, spansBefore, claimsBefore);
      after := pairs + [p];
    }
  }

  // The pairs so far follow the rule and are all there is in spans and claims.
  ghost predicate Coded(text: seq<Scalar>, before: seq<Span>, runs: seq<Run>, index: nat, pairs: seq<Pair>,
        spans: seq<Span>, claims: map<nat, nat>)
  {
    && RuleSoFar(runs, index, pairs) && PairsOn(text, runs, pairs)
    && spans == before + CodeSpans(text, runs, pairs)
    && claims == CodeClaims(text, runs, pairs)
    && (index < |runs| ==> EndBy(claims, runs[index].start))
  }

  lemma CodedEnd(text: seq<Scalar>, before: seq<Span>, runs: seq<Run>, index: nat, pairs: seq<Pair>, spans: seq<Span>,
        claims: map<nat, nat>)
    requires Coded(text, before, runs, index, pairs, spans, claims) && index < |runs|
    ensures EndBy(claims, runs[index].start)
  { }

  lemma CodedPair(text: seq<Scalar>, from: nat, before: seq<Span>, runs: seq<Run>, p: Pair, pairs: seq<Pair>,
        spans: seq<Span>, claims: map<nat, nat>)
    requires AreRuns(Bytes(text), from, |Bytes(text)|, runs) && PairOn(text, runs, p)
    requires Matches(runs, p.opening, p.closing)
    requires Coded(text, before, runs, p.opening, pairs, spans, claims)
    requires EndBy(claims[Opening(runs, p) := runs[p.closing].end], runs[p.closing].end)
    ensures Coded(text, before, runs, p.closing + 1, pairs + [p],
      spans + PairSpans(text, runs, p), claims[Opening(runs, p) := runs[p.closing].end])
  {
    hide AreRuns, Rule, RuleSoFar, Matches, Bytes, PairsOn, PairSpans, CodeSpans, CodeClaims, EndBy, Boundary;
    RuleMatches(runs, p.opening, pairs, p);
    PairAdded(text, runs, pairs, p);
    ClaimsBehind(Bytes(text), from, runs, p.closing, claims[Opening(runs, p) := runs[p.closing].end],
      runs[p.closing].end);
  }

  lemma NoPairs(text: seq<Scalar>, runs: seq<Run>)
    ensures PairsOn(text, runs, []) && CodeSpans(text, runs, []) == [] && CodeClaims(text, runs, []) == map[]
    ensures runs != [] ==> EndBy(map[], runs[0].start)
  { }

  // Nothing is claimed behind `bound`.
  ghost predicate EndBy(claims: map<nat, nat>, bound: nat) {
    forall s: nat :: s in claims ==> claims[s] <= bound
  }

  lemma ClaimsBehind(bytes: seq<Byte>, from: nat, runs: seq<Run>, i: nat, claims: map<nat, nat>, bound: nat)
    requires AreRuns(bytes, from, |bytes|, runs) && i < |runs|
    requires EndBy(claims, bound) && (bound == runs[i].start || bound == runs[i].end)
    ensures i + 1 < |runs| ==> EndBy(claims, runs[i + 1].start)
  { }

  lemma RangeKept(spans: seq<Span>, span: Span, units: nat)
    requires AllInRange(spans, units) && InRange(span, units)
    ensures AllInRange(spans + [span], units)
  { }

  lemma PairAdded(text: seq<Scalar>, runs: seq<Run>, pairs: seq<Pair>, p: Pair)
    requires PairsOn(text, runs, pairs) && PairOn(text, runs, p)
    ensures PairsOn(text, runs, pairs + [p])
    ensures CodeSpans(text, runs, pairs + [p]) == CodeSpans(text, runs, pairs) + PairSpans(text, runs, p)
    ensures CodeClaims(text, runs, pairs + [p]) ==
              CodeClaims(text, runs, pairs)[Opening(runs, p) := runs[p.closing].end]
  {
    hide PairOn, PairSpans, Opening;
    assert (pairs + [p])[..|pairs|] == pairs;
  }
}
