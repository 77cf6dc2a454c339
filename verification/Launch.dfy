/** The cursor that reads a template, and its agreement with the meaning of the template. */
module Launch {
  import opened Prelude
  import opened Unicode
  import opened LaunchSyntax

  // A stretch without special bytes is appended in one go.
  lemma {:induction false} PlainRun(text: seq<Byte>, i: nat, end: nat, environment: Environment, depth: nat,
        out: seq<Byte>)
    requires i <= end <= |text| && |out| <= LIMIT && forall k :: i <= k < end ==> !Special(text[k])
    ensures Scan(text, i, environment, depth, out) ==
            match Add(out, text[i..end]) { case Err(e) => Err(e) case Ok(o) => Scan(text, end, environment, depth, o) }
    decreases end - i
  {
    if i == end {
      assert out + text[i..i] == out;
    } else if |out| < LIMIT {
      PlainRun(text, i + 1, end, environment, depth, out + [text[i]]);
      assert out + [text[i]] + text[i + 1..end] == out + text[i..end];
    }
  }

  // The bytes of the character at `i`: it and the continuation bytes behind it.
  function Width(text: seq<Byte>, i: nat): (w: nat)
    requires i < |text|
    ensures i < i + w <= |text| && forall k :: i < k < i + w ==> Continuation(text[k])
    decreases |text| - i
  {
    if i + 1 < |text| && Continuation(text[i + 1]) then 1 + Width(text, i + 1) else 1
  }

  // Continuation bytes never open, close or escape anything.
  lemma {:induction false} CloseSkips(text: seq<Byte>, i: nat, end: nat, nesting: nat)
    requires i <= end <= |text| && nesting >= 1 && forall k :: i <= k < end ==> Continuation(text[k])
    ensures Close(text, i, nesting) == Close(text, end, nesting)
    decreases end - i
  {
    if i < end { CloseSkips(text, i + 1, end, nesting); }
  }

  method FindClose(text: seq<Byte>, start: nat) returns (r: Closing)
    requires start <= |text|
    ensures r == Close(text, start, 1)
  {
    var cursor, nesting := start, 1;
    while cursor < |text|
      invariant start <= cursor <= |text| && nesting >= 1
      invariant Close(text, start, 1) == Close(text, cursor, nesting)
    {
      if text[cursor] == BACKSLASH {
        cursor := cursor + 1;
        if cursor < |text| {
          CloseSkips(text, cursor + 1, cursor + Width(text, cursor), nesting);
          cursor := cursor + Width(text, cursor);
        }
        continue;
      }
      if Opens(text, cursor) {
        nesting := nesting + 1;
        if nesting > DEEPEST { return TooManyOpen; }
        cursor := cursor + 2;
        continue;
      }
      if text[cursor] == UNBRACE {
        nesting := nesting - 1;
        if nesting == 0 { return At(cursor); }
      }
      CloseSkips(text, cursor + 1, cursor + Width(text, cursor), nesting);
      cursor := cursor + Width(text, cursor);
    }
    r := Unclosed;
  }

  datatype Step = Step(output: seq<Byte>, cursor: nat)

  // What is read so far and what is left make up the whole.
  ghost predicate Agrees(whole: Expanded, step: Result<Step, Error>, at: nat, text: seq<Byte>,
        environment: Environment, depth: nat)
  {
    match step
    case Err(e) => whole == Err(e)
    case Ok(s) =>
      && at <= s.cursor <= |text| && |s.output| <= LIMIT
      && whole == Scan(text, s.cursor, environment, depth, s.output)
  }

  function Onward(out: Expanded, cursor: nat): Result<Step, Error> {
    match out
    case Err(e) => Err(e)
    case Ok(o) => Ok(Step(o, cursor))
  }

  method ReadName(text: seq<Byte>, start: nat) returns (cursor: nat)
    requires start <= |text|
    ensures cursor == NameEnd(text, start)
  {
    cursor := start;
    while cursor < |text| && NameByte(text[cursor])
      invariant start <= cursor <= |text| && NameEnd(text, start) == NameEnd(text, cursor)
    {
      cursor := cursor + 1;
    }
  }

  method Expand(template: seq<Byte>, environment: Environment, depth: nat) returns (result: Expanded)
    ensures result == Expansion(template, environment, depth)
    decreases |template|, 2
  {
    if depth > DEEPEST || |template| > LIMIT || NUL in template { return Err(Invalid); }
    hide Continue, Substitute;
    var output, cursor := [], 0;
    while cursor < |template|
      invariant Agrees(Expansion(template, environment, depth), Ok(Step(output, cursor)), 0, template, environment,
                  depth)
    {
      var start := cursor;
      while cursor < |template| && !Special(template[cursor])
        invariant start <= cursor <= |template|
        invariant forall k :: start <= k < cursor ==> !Special(template[k])
      {
        cursor := cursor + 1;
      }
      PlainRun(template, start, cursor, environment, depth, output);
      var added := Add(output, template[start..cursor]);
      if added.Err? { return added; }
      output := added.value;
      if cursor == |template| { break; }
      if template[cursor] == BACKTICK { return Err(Command); }
      var step;
      if template[cursor] == BACKSLASH {
        step := Escape(template, cursor, environment, depth, output);
      } else {
        step := Dollar(template, cursor, environment, depth, output);
      }
      if step.Err? { return Err(step.error); }
      output, cursor := step.value.output, step.value.cursor;
    }
    result := Ok(output);
  }

  method Escape(template: seq<Byte>, at: nat, ghost environment: Environment, ghost depth: nat, output: seq<Byte>)
    returns (step: Result<Step, Error>)
    requires Has(template, at, BACKSLASH) && |output| <= LIMIT
    ensures Agrees(Scan(template, at, environment, depth, output), step, at + 1, template, environment, depth)
  {
    var cursor := at + 1;
    var added;
    if cursor < |template| && Escapable(template[cursor]) {
      added := Add(output, if template[cursor] == LINE_FEED then [] else [template[cursor]]);
      cursor := cursor + 1;
    } else {
      added := Add(output, [BACKSLASH]);
    }
    step := Onward(added, cursor);
  }

  method Dollar(template: seq<Byte>, at: nat, environment: Environment, depth: nat, output: seq<Byte>)
    returns (step: Result<Step, Error>)
    requires Has(template, at, DOLLAR) && |output| <= LIMIT
    ensures Agrees(Scan(template, at, environment, depth, output), step, at + 1, template, environment, depth)
    decreases |template|, 1
  {
    hide Braced;
    var cursor := at + 1;
    if Has(template, cursor, PAREN) { return Err(Command); }
    var braced := Has(template, cursor, BRACE);
    cursor := if braced then cursor + 1 else cursor;
    var start := cursor;
    cursor := ReadName(template, start);
    var name := template[start..cursor];
    if !braced && name == [] {
      if cursor < |template| && Parameter(template[cursor]) { return Err(Unsupported); }
      assert Substitute(template, at, environment, depth, output)
        == Continue(Add(output, [DOLLAR]), template, at, cursor, environment, depth);
      return Onward(Add(output, [DOLLAR]), cursor);
    }
    if !Variable(name) { return Err(Unsupported); }
    if !braced {
      assert Substitute(template, at, environment, depth, output)
        == Continue(AddVariable(output, environment, name), template, at, cursor, environment, depth);
      return Onward(AddVariable(output, environment, name), cursor);
    }
    step := BracedAt(template, at, cursor, environment, depth, output);
  }

  method BracedAt(template: seq<Byte>, at: nat, end: nat, environment: Environment, depth: nat, output: seq<Byte>)
    returns (step: Result<Step, Error>)
    requires at + 2 <= end <= |template| && |output| <= LIMIT
    ensures Agrees(Braced(template, at, end, environment, depth, output), step, at + 1, template, environment, depth)
    decreases |template|, 0
  {
    hide Close, Expansion, Scan;
    var name, cursor := template[at + 2..end], end;
    if Has(template, cursor, UNBRACE) { return Onward(AddVariable(output, environment, name), cursor + 1); }
    var colon := Has(template, cursor, COLON);
    cursor := if colon then cursor + 1 else cursor;
    if cursor == |template| { return Err(Incomplete); }
    var operator := template[cursor];
    if operator != MINUS && operator != PLUS { return Err(Unsupported); }
    cursor := cursor + 1;
    var close := FindClose(template, cursor);
    if close.TooManyOpen? { return Err(TooDeep); }
    if close.Unclosed? { return Err(Incomplete); }
    var value := Ok(output);
    if Present(environment, name, colon) == (operator == PLUS) {
      value := Expand(template[cursor..close.at], environment, depth + 1);
      if value.Ok? { value := Add(output, value.value); }
    } else if operator == MINUS {
      value := AddVariable(output, environment, name);
    }
    step := Onward(value, close.at + 1);
  }
}
