/**
 Launch templates: data substitution with defaults and alternatives, no
 commands. A template is the bytes of a UTF-8 text; values are any bytes.
 */
module LaunchSyntax {
  import opened Prelude
  import opened Unicode

  type Environment = map<seq<Byte>, seq<Byte>>

  const LIMIT := 1024 * 1024
  const DEEPEST := 16

  const NUL: Byte := 0x00
  const DOLLAR: Byte := 0x24
  const PAREN: Byte := 0x28
  const PLUS: Byte := 0x2B
  const MINUS: Byte := 0x2D

  datatype Error = Invalid | TooLong | Command | Unsupported | Undefined | Incomplete | TooDeep

  type Expanded = Result<seq<Byte>, Error>

  predicate Letter(b: Byte) { 0x41 <= b <= 0x5A || 0x61 <= b <= 0x7A || b == 0x5F }
  predicate NameByte(b: Byte) { Letter(b) || 0x30 <= b <= 0x39 }
  predicate Special(b: Byte) { b == DOLLAR || b == BACKSLASH || b == BACKTICK }
  predicate Escapable(b: Byte) { Special(b) || b == QUOTE || b == LINE_FEED }
  predicate Continuation(b: Byte) { 0x80 <= b < 0xC0 }

  // Shell parameters without a name: ? * ! @ # - $
  predicate Parameter(b: Byte) { b in {0x3F, 0x2A, 0x21, 0x40, 0x23, MINUS, DOLLAR} }

  predicate Variable(name: seq<Byte>) {
    name != [] && Letter(name[0]) && forall b :: b in name ==> NameByte(b)
  }

  function Add(out: seq<Byte>, value: seq<Byte>): Expanded {
    if |out| + |value| > LIMIT then Err(TooLong) else Ok(out + value)
  }

  function AddVariable(out: seq<Byte>, environment: Environment, name: seq<Byte>): Expanded {
    if name in environment then Add(out, environment[name]) else Err(Undefined)
  }

  // Where the name that starts at `i` ends.
  function NameEnd(text: seq<Byte>, i: nat): (end: nat)
    requires i <= |text|
    ensures i <= end <= |text| && (forall k :: i <= k < end ==> NameByte(text[k]))
    ensures (end < |text| ==> !NameByte(text[end]))
    decreases |text| - i
  {
    if i < |text| && NameByte(text[i]) then NameEnd(text, i + 1) else i
  }

  predicate Present(environment: Environment, name: seq<Byte>, colon: bool) {
    name in environment && (!colon || environment[name] != [])
  }

  predicate Has(text: seq<Byte>, i: nat, b: Byte) { i < |text| && text[i] == b }

  predicate Opens(text: seq<Byte>, i: nat) { Has(text, i, DOLLAR) && Has(text, i + 1, BRACE) }

  // ---------- the brace that closes an alternative ----------

  datatype Closing = At(at: nat) | Unclosed | TooManyOpen

  function Close(text: seq<Byte>, i: nat, nesting: nat): (r: Closing)
    requires i <= |text| && nesting >= 1
    ensures r.At? ==> i <= r.at < |text| && text[r.at] == UNBRACE
    decreases |text| - i
  {
    if i == |text| then Unclosed
    else if text[i] == BACKSLASH then
      if i + 1 == |text| then Unclosed else Close(text, i + 2, nesting)
    else if Opens(text, i) then
      if nesting + 1 > DEEPEST then TooManyOpen else Close(text, i + 2, nesting + 1)
    else if text[i] == UNBRACE then
      if nesting == 1 then At(i) else Close(text, i + 1, nesting - 1)
    else Close(text, i + 1, nesting)
  }

  // ---------- the meaning of a template, byte by byte ----------

  function Expansion(template: seq<Byte>, environment: Environment, depth: nat): Expanded
    decreases |template|, |template| + 1
  {
    if depth > DEEPEST || |template| > LIMIT || NUL in template then Err(Invalid)
    else Scan(template, 0, environment, depth, [])
  }

  function Scan(text: seq<Byte>, i: nat, environment: Environment, depth: nat, out: seq<Byte>): Expanded
    requires i <= |text|
    decreases |text|, |text| - i, 3
  {
    if i == |text| then Ok(out)
    else if text[i] == BACKTICK then Err(Command)
    else if text[i] == BACKSLASH && i + 1 < |text| && Escapable(text[i + 1]) then
      Continue(Add(out, if text[i + 1] == LINE_FEED then [] else [text[i + 1]]), text, i, i + 2, environment, depth)
    else if text[i] == DOLLAR then Substitute(text, i, environment, depth, out)
    else Continue(Add(out, [text[i]]), text, i, i + 1, environment, depth)
  }

  function Continue(out: Expanded, text: seq<Byte>, i: nat, next: nat, environment: Environment, depth: nat): Expanded
    requires i < next <= |text|
    decreases |text|, |text| - i, 0
  {
    match out
    case Err(e) => Err(e)
    case Ok(o) => Scan(text, next, environment, depth, o)
  }

  // At a dollar.
  function Substitute(text: seq<Byte>, i: nat, environment: Environment, depth: nat, out: seq<Byte>): Expanded
    requires Has(text, i, DOLLAR)
    decreases |text|, |text| - i, 2
  {
    if Has(text, i + 1, PAREN) then Err(Command)
    else if Has(text, i + 1, BRACE) then
      var end := NameEnd(text, i + 2);
      if !Variable(text[i + 2..end]) then Err(Unsupported)
      else Braced(text, i, end, environment, depth, out)
    else
      var end := NameEnd(text, i + 1);
      if end == i + 1 then
        if end < |text| && Parameter(text[end]) then Err(Unsupported)
        else Continue(Add(out, [DOLLAR]), text, i, end, environment, depth)
      else if !Variable(text[i + 1..end]) then Err(Unsupported)
      else Continue(AddVariable(out, environment, text[i + 1..end]), text, i, end, environment, depth)
  }

  // Behind ${ and a name.
  function Braced(text: seq<Byte>, i: nat, end: nat, environment: Environment, depth: nat, out: seq<Byte>): Expanded
    requires i + 2 <= end <= |text|
    decreases |text|, |text| - i, 1
  {
    var name := text[i + 2..end];
    if Has(text, end, UNBRACE) then
      Continue(AddVariable(out, environment, name), text, i, end + 1, environment, depth)
    else
      var colon := Has(text, end, COLON);
      var operator := if colon then end + 1 else end;
      if operator == |text| then Err(Incomplete)
      else if text[operator] != MINUS && text[operator] != PLUS then Err(Unsupported)
      else match Close(text, operator + 1, 1)
        case Unclosed => Err(Incomplete)
        case TooManyOpen => Err(TooDeep)
        case At(at) =>
          var value := Choose(name, colon, text[operator] == PLUS, text[operator + 1..at], environment, depth, out);
          Continue(value, text, i, at + 1, environment, depth)
  }

  function Choose(name: seq<Byte>, colon: bool, plus: bool, body: seq<Byte>, environment: Environment, depth: nat,
        out: seq<Byte>): Expanded
    decreases |body|, |body| + 2
  {
    if Present(environment, name, colon) == plus then
      match Expansion(body, environment, depth + 1)
      case Err(e) => Err(e)
      case Ok(value) => Add(out, value)
    else if plus then Ok(out)
    else AddVariable(out, environment, name)
  }
}
