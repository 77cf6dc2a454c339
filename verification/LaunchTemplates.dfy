/**
 Template trees, their printed form and their value: reading a printed tree is
 evaluating it.
 */
module LaunchTemplates {
  import opened Prelude
  import opened Unicode
  import opened Slices
  import opened LaunchSyntax

  datatype Tree =
    | End
    | Literal(text: seq<Byte>, rest: Tree)
    | Var(name: seq<Byte>, braced: bool, rest: Tree)
    | Alt(name: seq<Byte>, colon: bool, plus: bool, body: Tree, rest: Tree)

  // ---------- printing ----------

  function Escaped(text: seq<Byte>): seq<Byte> {
    if text == [] then []
    else (if Special(text[0]) then [BACKSLASH, text[0]] else [text[0]]) + Escaped(text[1..])
  }

  function Operator(colon: bool, plus: bool): seq<Byte> {
    (if colon then [COLON] else []) + [if plus then PLUS else MINUS]
  }

  function Head(name: seq<Byte>, colon: bool, plus: bool): seq<Byte> {
    [DOLLAR, BRACE] + name + Operator(colon, plus)
  }

  function VarText(name: seq<Byte>, braced: bool): seq<Byte> {
    if braced then [DOLLAR, BRACE] + name + [UNBRACE] else [DOLLAR] + name
  }

  function Print(t: Tree): seq<Byte> {
    match t
    case End => []
    case Literal(text, rest) => Escaped(text) + Print(rest)
    case Var(name, braced, rest) => VarText(name, braced) + Print(rest)
    case Alt(name, colon, plus, body, rest) =>
      Head(name, colon, plus) + (Print(body) + ([UNBRACE] + Print(rest)))
  }

  // ---------- evaluating ----------

  function Eval(t: Tree, environment: Environment, out: seq<Byte>): Expanded
    decreases t, 0
  {
    match t
    case End => Ok(out)
    case Literal(text, rest) => Then(Add(out, text), rest, environment)
    case Var(name, _, rest) => Then(AddVariable(out, environment, name), rest, environment)
    case Alt(name, colon, plus, body, rest) =>
      if Present(environment, name, colon) != plus then
        Then(if plus then Ok(out) else AddVariable(out, environment, name), rest, environment)
      else match Eval(body, environment, [])
        case Err(e) => Err(e)
        case Ok(value) => Then(Add(out, value), rest, environment)
  }

  function Then(out: Expanded, rest: Tree, environment: Environment): Expanded
    decreases rest, 1
  {
    match out
    case Err(e) => Err(e)
    case Ok(o) => Eval(rest, environment, o)
  }

  // ---------- which trees can be printed ----------

  // The braces that are open at once.
  function Nesting(t: Tree): nat {
    match t
    case End => 0
    case Literal(_, rest) => Nesting(rest)
    case Var(_, braced, rest) => Max(if braced then 1 else 0, Nesting(rest))
    case Alt(_, _, _, body, rest) => Max(1 + Nesting(body), Nesting(rest))
  }

  // The expansions that are under way at once, but for the outermost.
  function Depth(t: Tree): nat {
    match t
    case End => 0
    case Literal(_, rest) => Depth(rest)
    case Var(_, _, rest) => Depth(rest)
    case Alt(_, _, _, body, rest) => Max(1 + Depth(body), Depth(rest))
  }

  function Max(a: nat, b: nat): nat { if a < b then b else a }

  // Names are variable names, a bare one ends before what follows, no text has a
  // NUL, and none inside an alternative has a closing brace.
  predicate Printable(t: Tree, inside: bool) {
    match t
    case End => true
    case Literal(text, rest) => NUL !in text && (inside ==> UNBRACE !in text) && Printable(rest, inside)
    case Var(name, braced, rest) =>
      && Variable(name) && Printable(rest, inside)
      && (!braced && Print(rest) != [] ==> !NameByte(Print(rest)[0]))
    case Alt(name, _, _, body, rest) => Variable(name) && Printable(body, true) && Printable(rest, inside)
  }

  // ---------- the closing brace of a printed alternative ----------

  // Bytes that are no backslash, dollar or closing brace are passed over.
  lemma {:induction false} ClosePasses(text: seq<Byte>, i: nat, end: nat, nesting: nat)
    requires i <= end <= |text| && nesting >= 1
    requires forall k :: i <= k < end ==> text[k] != BACKSLASH && text[k] != DOLLAR && text[k] != UNBRACE
    ensures Close(text, i, nesting) == Close(text, end, nesting)
    decreases end - i
  {
    if i < end { ClosePasses(text, i + 1, end, nesting); }
  }

  lemma {:induction false} CloseEscaped(text: seq<Byte>, i: nat, literal: seq<Byte>, nesting: nat)
    requires Reads(text, i, Escaped(literal)) && UNBRACE !in literal && nesting >= 1
    ensures Close(text, i, nesting) == Close(text, i + |Escaped(literal)|, nesting)
    decreases literal
  {
    if literal != [] {
      var head := if Special(literal[0]) then [BACKSLASH, literal[0]] else [literal[0]];
      ReadsSplit(text, i, head, Escaped(literal[1..]));
      ReadsAt(text, i, head, 0);
      assert UNBRACE !in literal[1..];
      CloseEscaped(text, i + |head|, literal[1..], nesting);
    }
  }

  lemma {:induction false} ClosePrinted(text: seq<Byte>, i: nat, t: Tree, nesting: nat)
    requires Reads(text, i, Print(t)) && Printable(t, true) && 1 <= nesting && nesting + Nesting(t) <= DEEPEST
    ensures Close(text, i, nesting) == Close(text, i + |Print(t)|, nesting)
    decreases t
  {
    hide Reads, Escaped, Variable, Close, Head, VarText;
    PrintedLength(t);
    match t
    case End =>
    case Literal(literal, rest) =>
      ReadsSplit(text, i, Escaped(literal), Print(rest));
      CloseEscaped(text, i, literal, nesting);
      ClosePrinted(text, i + |Escaped(literal)|, rest, nesting);
    case Var(name, braced, rest) =>
      var printed := VarText(name, braced);
      ReadsSplit(text, i, printed, Print(rest));
      CloseVariable(text, i, name, braced, nesting);
      ClosePrinted(text, i + |printed|, rest, nesting);
    case Alt(name, colon, plus, body, rest) =>
      var head := Head(name, colon, plus);
      AltReads(text, i, name, colon, plus, body, rest);
      CloseHead(text, i, name, Operator(colon, plus), nesting);
      ClosePrinted(text, i + |head|, body, nesting + 1);
      CloseOne(text, i + |head| + |Print(body)|, nesting + 1);
      ClosePrinted(text, i + |head| + |Print(body)| + 1, rest, nesting);
  }

  lemma CloseOne(text: seq<Byte>, i: nat, nesting: nat)
    requires Has(text, i, UNBRACE) && nesting > 1
    ensures Close(text, i, nesting) == Close(text, i + 1, nesting - 1)
  { }

  lemma PrintedLength(t: Tree)
    ensures match t
            case End => |Print(t)| == 0
            case Literal(text, rest) => |Print(t)| == |Escaped(text)| + |Print(rest)|
            case Var(name, braced, rest) =>
              |Print(t)| == |VarText(name, braced)| + |Print(rest)| &&
                |VarText(name, braced)| == |name| + if braced then 3 else 1
            case Alt(name, colon, plus, body, rest) =>
              && |Print(t)| == |Head(name, colon, plus)| + |Print(body)| + 1 + |Print(rest)|
              && |Head(name, colon, plus)| == 2 + |name| + |Operator(colon, plus)|
  { }

  lemma AltReads(text: seq<Byte>, i: nat, name: seq<Byte>, colon: bool, plus: bool, body: Tree, rest: Tree)
    requires Reads(text, i, Print(Alt(name, colon, plus, body, rest)))
    ensures Reads(text, i, [DOLLAR, BRACE] + name + Operator(colon, plus))
    ensures Reads(text, i + |Head(name, colon, plus)|, Print(body))
    ensures Has(text, i + |Head(name, colon, plus)| + |Print(body)|, UNBRACE)
    ensures Reads(text, i + |Head(name, colon, plus)| + |Print(body)| + 1, Print(rest))
  {
    hide Reads;
    var head := Head(name, colon, plus);
    ReadsSplit(text, i, head, Print(body) + ([UNBRACE] + Print(rest)));
    ReadsSplit(text, i + |head|, Print(body), [UNBRACE] + Print(rest));
    ReadsSplit(text, i + |head| + |Print(body)|, [UNBRACE], Print(rest));
    ReadsAt(text, i + |head| + |Print(body)|, [UNBRACE], 0);
    ReadsEnd(text, i + |head| + |Print(body)|, [UNBRACE]);
  }

  // ${name and an operator open one brace.
  lemma CloseHead(text: seq<Byte>, i: nat, name: seq<Byte>, operator: seq<Byte>, nesting: nat)
    requires Reads(text, i, [DOLLAR, BRACE] + name + operator) && Variable(name) && 1 <= nesting < DEEPEST
    requires forall b :: b in operator ==> b == COLON || b == PLUS || b == MINUS
    ensures Close(text, i, nesting) == Close(text, i + 2 + |name| + |operator|, nesting + 1)
  {
    var head := [DOLLAR, BRACE] + name + operator;
    forall k: nat | k < |head| ensures text[i + k] == head[k] { ReadsAt(text, i, head, k); }
    assert head[0] == DOLLAR && head[1] == BRACE;
    assert Opens(text, i);
    forall k | i + 2 <= k < i + |head| ensures text[k] != BACKSLASH && text[k] != DOLLAR && text[k] != UNBRACE {
      assert text[k] == head[k - i];
      assert head[k - i] in name || head[k - i] in operator;
    }
    ClosePasses(text, i + 2, i + |head|, nesting + 1);
  }

  lemma CloseVariable(text: seq<Byte>, i: nat, name: seq<Byte>, braced: bool, nesting: nat)
    requires Reads(text, i, VarText(name, braced))
    requires Variable(name) && 1 <= nesting && (braced ==> nesting < DEEPEST)
    ensures Close(text, i, nesting) == Close(text, i + |name| + if braced then 3 else 1, nesting)
  {
    if braced {
      assert [DOLLAR, BRACE] + name + [] == [DOLLAR, BRACE] + name;
      ReadsSplit(text, i, [DOLLAR, BRACE] + name + [], [UNBRACE]);
      CloseHead(text, i, name, [], nesting);
      ReadsAt(text, i + 2 + |name|, [UNBRACE], 0);
    } else {
      var printed := [DOLLAR] + name;
      forall k: nat | k < |printed| ensures text[i + k] == printed[k] { ReadsAt(text, i, printed, k); }
      assert text[i + 1] == printed[1] == name[0];
      forall k | i + 1 <= k < i + |printed| ensures text[k] != BACKSLASH && text[k] != DOLLAR && text[k] != UNBRACE {
        assert text[k] == printed[k - i] && printed[k - i] in name;
      }
      ClosePasses(text, i + 1, i + |printed|, nesting);
    }
  }

  // ---------- reading a printed tree ----------

  // A name that stands at `i` and is not continued is what is read there.
  lemma NameRead(text: seq<Byte>, i: nat, name: seq<Byte>)
    requires Reads(text, i, name) && Variable(name)
    requires i + |name| < |text| ==> !NameByte(text[i + |name|])
    ensures NameEnd(text, i) == i + |name| && text[i..i + |name|] == name
    ensures i < |text| && Letter(text[i])
  { }

  lemma {:induction false} ScanEscaped(text: seq<Byte>, i: nat, literal: seq<Byte>, environment: Environment,
        depth: nat, out: seq<Byte>)
    requires Reads(text, i, Escaped(literal)) && |out| <= LIMIT
    ensures Scan(text, i, environment, depth, out) ==
            match Add(out, literal)
            case Err(e) => Err(e)
            case Ok(o) => Scan(text, i + |Escaped(literal)|, environment, depth, o)
    decreases literal
  {
    if literal == [] {
      assert out + [] == out;
    } else {
      var c := literal[0];
      var head := if Special(c) then [BACKSLASH, c] else [c];
      ReadsSplit(text, i, head, Escaped(literal[1..]));
      ReadsAt(text, i, head, 0);
      if Special(c) { ReadsAt(text, i, head, 1); }
      assert Scan(text, i, environment, depth, out) == Continue(Add(out, [c]), text, i, i + |head|, environment, depth);
      if |out| < LIMIT {
        ScanEscaped(text, i + |head|, literal[1..], environment, depth, out + [c]);
        assert out + [c] + literal[1..] == out + literal;
      }
    }
  }

  lemma {:induction false} ScanVariable(text: seq<Byte>, i: nat, name: seq<Byte>, braced: bool,
        environment: Environment, depth: nat, out: seq<Byte>)
    requires Reads(text, i, VarText(name, braced)) && Variable(name)
    requires var end := i + |VarText(name, braced)|; !braced && end < |text| ==> !NameByte(text[end])
    ensures Scan(text, i, environment, depth, out) ==
            Continue(AddVariable(out, environment, name), text, i, i + |VarText(name, braced)|, environment, depth)
  {
    hide Variable;
    if braced {
      ReadsSplit(text, i, [DOLLAR, BRACE] + name, [UNBRACE]);
      ReadsSplit(text, i, [DOLLAR, BRACE], name);
      ReadsAt(text, i, [DOLLAR, BRACE], 0);
      ReadsAt(text, i, [DOLLAR, BRACE], 1);
      ReadsAt(text, i + 2 + |name|, [UNBRACE], 0);
      NameRead(text, i + 2, name);
      assert Substitute(text, i, environment, depth, out) == Braced(text, i, i + 2 + |name|, environment, depth, out);
    } else {
      ReadsSplit(text, i, [DOLLAR], name);
      ReadsAt(text, i, [DOLLAR], 0);
      NameRead(text, i + 1, name);
      assert Scan(text, i, environment, depth, out) == Substitute(text, i, environment, depth, out);
    }
  }

  // An alternative is read as one: name, operator, the slice up to its brace.
  lemma {:induction false} ScanAlternative(text: seq<Byte>, i: nat, name: seq<Byte>, colon: bool, plus: bool,
        body: Tree, rest: Tree, environment: Environment, depth: nat, out: seq<Byte>)
    requires Reads(text, i, Print(Alt(name, colon, plus, body, rest)))
    requires Variable(name) && Printable(body, true) && 1 + Nesting(body) <= DEEPEST
    ensures var close := i + |Head(name, colon, plus)| + |Print(body)|;
      Scan(text, i, environment, depth, out) ==
      Continue(Choose(name, colon, plus, Print(body), environment, depth, out), text, i, close + 1, environment, depth)
  {
    hide Variable, Printable, Close, Choose, Print, Continue, Reads, Braced;
    AltReads(text, i, name, colon, plus, body, rest);
    AltHead(text, i, name, colon, plus);
    NameRead(text, i + 2, name);
    BracedAlternative(text, i, name, colon, plus, body, rest, environment, depth, out);
    assert Scan(text, i, environment, depth, out) == Substitute(text, i, environment, depth, out);
    assert Substitute(text, i, environment, depth, out) == Braced(text, i, i + 2 + |name|, environment, depth, out);
  }

  lemma BracedAlternative(text: seq<Byte>, i: nat, name: seq<Byte>, colon: bool, plus: bool, body: Tree, rest: Tree,
        environment: Environment, depth: nat, out: seq<Byte>)
    requires Reads(text, i, Print(Alt(name, colon, plus, body, rest)))
    requires Variable(name) && Printable(body, true) && 1 + Nesting(body) <= DEEPEST && i + 2 + |name| <= |text|
    ensures var close := i + |Head(name, colon, plus)| + |Print(body)|;
      && close < |text|
      && Braced(text, i, i + 2 + |name|, environment, depth, out) ==
         Continue(Choose(name, colon, plus, Print(body), environment, depth, out), text, i, close + 1, environment,
           depth)
  {
    hide Variable, Printable, Close, Choose, Print, Continue, Scan;
    var start := i + |Head(name, colon, plus)|;
    AltReads(text, i, name, colon, plus, body, rest);
    AltHead(text, i, name, colon, plus);
    ClosePrinted(text, start, body, 1);
    CloseHere(text, start + |Print(body)|);
    assert text[start..start + |Print(body)|] == Print(body);
    assert text[i + 2..i + 2 + |name|] == name;
  }

  lemma CloseHere(text: seq<Byte>, i: nat)
    requires Has(text, i, UNBRACE)
    ensures Close(text, i, 1) == At(i)
  { }

  lemma AltHead(text: seq<Byte>, i: nat, name: seq<Byte>, colon: bool, plus: bool)
    requires Reads(text, i, [DOLLAR, BRACE] + name + Operator(colon, plus))
    ensures Opens(text, i) && Reads(text, i + 2, name)
    ensures var end := i + 2 + |name|;
      && end < |text| && !NameByte(text[end]) && Has(text, end, COLON) == colon && text[end] != UNBRACE
      && Has(text, if colon then end + 1 else end, if plus then PLUS else MINUS)
  {
    var end := i + 2 + |name|;
    ReadsSplit(text, i, [DOLLAR, BRACE] + name, Operator(colon, plus));
    ReadsSplit(text, i, [DOLLAR, BRACE], name);
    ReadsAt(text, i, [DOLLAR, BRACE], 0);
    ReadsAt(text, i, [DOLLAR, BRACE], 1);
    ReadsAt(text, end, Operator(colon, plus), 0);
    if colon { ReadsAt(text, end, Operator(colon, plus), 1); }
  }

  lemma {:induction false} EscapedNoNul(text: seq<Byte>)
    requires NUL !in text
    ensures NUL !in Escaped(text)
  {
    if text != [] {
      assert text[0] in text && NUL !in text[1..];
      EscapedNoNul(text[1..]);
    }
  }

  lemma {:induction false} PrintNoNul(t: Tree, inside: bool)
    requires Printable(t, inside)
    ensures NUL !in Print(t)
    decreases t
  {
    match t
    case End =>
    case Literal(text, rest) => EscapedNoNul(text); PrintNoNul(rest, inside);
    case Var(name, braced, rest) => PrintNoNul(rest, inside);
    case Alt(name, colon, plus, body, rest) => PrintNoNul(body, true); PrintNoNul(rest, inside);
  }

  lemma {:induction false} ScanPrinted(text: seq<Byte>, i: nat, t: Tree, inside: bool, environment: Environment,
        depth: nat, out: seq<Byte>)
    requires Reads(text, i, Print(t)) && i + |Print(t)| == |text| <= LIMIT
    requires Printable(t, inside) && Nesting(t) <= DEEPEST && depth + Depth(t) <= DEEPEST && |out| <= LIMIT
    ensures Scan(text, i, environment, depth, out) == Eval(t, environment, out)
    decreases t, 0
  {
    hide Reads, Escaped, Head, VarText, Variable, Substitute, Braced;
    PrintedLength(t);
    match t
    case End =>
    case Literal(literal, rest) =>
      ReadsSplit(text, i, Escaped(literal), Print(rest));
      ScanEscaped(text, i, literal, environment, depth, out);
      var o := Add(out, literal);
      if o.Ok? { ScanPrinted(text, i + |Escaped(literal)|, rest, inside, environment, depth, o.value); }
    case Var(name, braced, rest) =>
      var next := i + |VarText(name, braced)|;
      ReadsSplit(text, i, VarText(name, braced), Print(rest));
      if next < |text| { ReadsAt(text, next, Print(rest), 0); }
      ScanVariable(text, i, name, braced, environment, depth, out);
      var o := AddVariable(out, environment, name);
      if o.Ok? { ScanPrinted(text, next, rest, inside, environment, depth, o.value); }
    case Alt(name, colon, plus, body, rest) =>
      var next := i + |Head(name, colon, plus)| + |Print(body)| + 1;
      AltReads(text, i, name, colon, plus, body, rest);
      ScanAlternative(text, i, name, colon, plus, body, rest, environment, depth, out);
      ChoosePrinted(name, colon, plus, body, environment, depth, out);
      var o := Choose(name, colon, plus, Print(body), environment, depth, out);
      if o.Ok? { ScanPrinted(text, next, rest, inside, environment, depth, o.value); }
  }

  lemma {:induction false} ChoosePrinted(name: seq<Byte>, colon: bool, plus: bool, body: Tree,
        environment: Environment, depth: nat, out: seq<Byte>)
    requires Printable(body, true) && |Print(body)| <= LIMIT && |out| <= LIMIT
    requires Nesting(body) <= DEEPEST && depth + 1 + Depth(body) <= DEEPEST
    ensures Choose(name, colon, plus, Print(body), environment, depth, out) ==
            if Present(environment, name, colon) != plus then
              (if plus then Ok(out) else AddVariable(out, environment, name))
            else match Eval(body, environment, []) case Err(e) => Err(e) case Ok(value) => Add(out, value)
    ensures Choose(name, colon, plus, Print(body), environment, depth, out).Ok? ==>
              |Choose(name, colon, plus, Print(body), environment, depth, out).value| <= LIMIT
    decreases body, 1
  {
    hide Scan, Eval;
    PrintNoNul(body, true);
    assert Print(body)[0..0 + |Print(body)|] == Print(body);
    ScanPrinted(Print(body), 0, body, true, environment, depth + 1, []);
  }

  /**
   Reading the printed form of a tree gives the value of the tree, errors
   included: chosen alternatives are expanded, the others are not looked into,
   and values are never read again.
   */
  lemma ExpandInvertsPrint(t: Tree, environment: Environment)
    requires Printable(t, false) && |Print(t)| <= LIMIT && Nesting(t) <= DEEPEST
    ensures Expansion(Print(t), environment, 0) == Eval(t, environment, [])
  {
    hide Scan, Eval;
    PrintNoNul(t, false);
    DepthFollowsNesting(t);
    assert Print(t)[0..0 + |Print(t)|] == Print(t);
    ScanPrinted(Print(t), 0, t, false, environment, 0, []);
  }

  lemma {:induction false} DepthFollowsNesting(t: Tree)
    ensures Depth(t) <= Nesting(t)
  {
    match t
    case End =>
    case Literal(_, rest) => DepthFollowsNesting(rest);
    case Var(_, _, rest) => DepthFollowsNesting(rest);
    case Alt(_, _, _, body, rest) => DepthFollowsNesting(body); DepthFollowsNesting(rest);
  }
}
