/** What a template means where no printed tree shows it: signs, names, limits and refusals. */
module LaunchEffects {
  import opened Prelude
  import opened Unicode
  import opened LaunchSyntax

  predicate Between(b: Byte, first: char, last: char) { first as int <= b <= last as int }

  predicate NameLetter(b: Byte) { Between(b, 'a', 'z') || Between(b, 'A', 'Z') || b == '_' as int }

  // A name is of letters, digits and underscores, and no digit comes first.
  lemma VariableEffect(name: seq<Byte>)
    ensures Variable(name) <==>
            && name != [] && NameLetter(name[0])
            && forall i: nat {:trigger name[i]} :: i < |name| ==> NameLetter(name[i]) || Between(name[i], '0', '9')
  {
    assert forall i: nat {:trigger name[i]} :: i < |name| ==> name[i] in name;
  }

  // A parameter of the shell that has no name.
  predicate ShellParameter(b: Byte) {
    || b == '?' as int || b == '*' as int || b == '!' as int || b == '@' as int || b == '#' as int
    || b == '-' as int || b == '$' as int
  }

  // One byte more, within a megabyte.
  function Next(out: seq<Byte>, more: seq<Byte>, text: seq<Byte>, next: nat, environment: Environment, depth: nat)
    : Expanded
    requires next <= |text|
  {
    if |out + more| <= 1_048_576 then Scan(text, next, environment, depth, out + more) else Err(TooLong)
  }

  /**
   A backslash in front of a dollar, a backslash, a backtick or a quote gives that sign,
   and in front of a line feed nothing. In front of anything else it stands for itself,
   as every other sign does; a backtick is refused.
   */
  lemma SignEffect(text: seq<Byte>, i: nat, environment: Environment, depth: nat, out: seq<Byte>)
    requires i < |text| && text[i] != '$' as int && |out| <= 1_048_576
    ensures var r := Scan(text, i, environment, depth, out);
      if text[i] == '`' as int then r == Err(Command)
      else if text[i] == '\\' as int && i + 1 < |text| then
        var c := text[i + 1];
        if c == '$' as int || c == '\\' as int || c == '`' as int || c == '"' as int
        then r == Next(out, [c], text, i + 2, environment, depth)
        else if c == '\n' as int then r == Scan(text, i + 2, environment, depth, out)
        else r == Next(out, [text[i]], text, i + 1, environment, depth)
      else r == Next(out, [text[i]], text, i + 1, environment, depth)
  {
    assert out + [] == out;
  }

  /**
   A dollar: a command is refused, and so is a parameter of the shell that is no variable.
   In front of anything that is neither a name nor a brace it stands for itself. A
   variable gives its value, if it has one.
   */
  lemma DollarEffect(text: seq<Byte>, i: nat, environment: Environment, depth: nat, out: seq<Byte>, end: nat)
    requires i < |text| && text[i] == '$' as int && i < end <= |text|
    requires i + 1 < |text| ==> text[i + 1] != '{' as int
    requires forall k: nat {:trigger text[k]} :: i < k < end ==> NameLetter(text[k]) || Between(text[k], '0', '9')
    requires end < |text| ==> !NameLetter(text[end]) && !Between(text[end], '0', '9')
    ensures var r, name := Scan(text, i, environment, depth, out), text[i + 1..end];
      if name == [] then
        if end < |text| && text[end] == '(' as int then r == Err(Command)
        else if end < |text| && ShellParameter(text[end]) then r == Err(Unsupported)
        else r == Next(out, ['$' as int], text, end, environment, depth)
      else if Between(name[0], '0', '9') then r == Err(Unsupported)
      else if name !in environment then r == Err(Undefined)
      else r == Next(out, environment[name], text, end, environment, depth)
  {
    hide Continue;
    NameEnds(text, i + 1, end);
    VariableEffect(text[i + 1..end]);
    assert Scan(text, i, environment, depth, out) == Substitute(text, i, environment, depth, out);
    Continues(Add(out, [DOLLAR]), text, i, end, environment, depth);
    if end > i + 1 { Continues(AddVariable(out, environment, text[i + 1..end]), text, i, end, environment, depth); }
  }

  lemma Continues(out: Expanded, text: seq<Byte>, i: nat, next: nat, environment: Environment, depth: nat)
    requires i < next <= |text|
    ensures Continue(out, text, i, next, environment, depth) ==
            match out case Err(e) => Err(e) case Ok(o) => Scan(text, next, environment, depth, o)
  { }

  lemma {:induction false} NameEnds(text: seq<Byte>, i: nat, end: nat)
    requires i <= end <= |text|
    requires forall k: nat {:trigger text[k]} :: i <= k < end ==> NameLetter(text[k]) || Between(text[k], '0', '9')
    requires end < |text| ==> !NameLetter(text[end]) && !Between(text[end], '0', '9')
    ensures NameEnd(text, i) == end
    decreases end - i
  {
    if i < end { NameEnds(text, i + 1, end); }
  }

  /**
   A braced name: it must be one, and be closed, or have an operator and an alternative
   up to its own brace. With `-` the alternative is for a variable that is missing, with
   `+` for one that is there; with a colon an empty one counts as missing. A value is
   taken as it is, an alternative is expanded in its turn.
   */
  lemma BracedEffect(text: seq<Byte>, i: nat, environment: Environment, depth: nat, out: seq<Byte>, end: nat)
    requires i + 1 < |text| && text[i] == '$' as int && text[i + 1] == '{' as int && i + 2 <= end <= |text|
    requires forall k: nat {:trigger text[k]} :: i + 2 <= k < end ==> NameLetter(text[k]) || Between(text[k], '0', '9')
    requires end < |text| ==> !NameLetter(text[end]) && !Between(text[end], '0', '9')
    ensures var r, name := Scan(text, i, environment, depth, out), text[i + 2..end];
      if name == [] || Between(name[0], '0', '9') then r == Err(Unsupported)
      else if end == |text| then r == Err(Incomplete)
      else if text[end] == '}' as int then
        if name !in environment then r == Err(Undefined)
        else r == Next(out, environment[name], text, end + 1, environment, depth)
      else
        var colon := text[end] == ':' as int;
        var o := if colon then end + 1 else end;
        if o == |text| then r == Err(Incomplete)
        else if text[o] != '-' as int && text[o] != '+' as int then r == Err(Unsupported)
        else
          var there := name in environment && (colon ==> environment[name] != []);
          match Close(text, o + 1, 1)
          case Unclosed => r == Err(Incomplete)
          case TooManyOpen => r == Err(TooDeep)
          case At(at) =>
            if there != (text[o] == '+' as int) then
              if text[o] == '+' as int then r == Scan(text, at + 1, environment, depth, out)
              else r == Next(out, environment[name], text, at + 1, environment, depth)
            else match Expansion(text[o + 1..at], environment, depth + 1)
              case Err(e) => r == Err(e)
              case Ok(value) => r == Next(out, value, text, at + 1, environment, depth)
  {
    hide Scan, Expansion, Close;
    NameEnds(text, i + 2, end);
    VariableEffect(text[i + 2..end]);
    AtDollar(text, i, environment, depth, out, end);
  }

  lemma AtDollar(text: seq<Byte>, i: nat, environment: Environment, depth: nat, out: seq<Byte>, end: nat)
    requires i + 1 < |text| && text[i] == '$' as int && text[i + 1] == '{' as int && end == NameEnd(text, i + 2)
    ensures Scan(text, i, environment, depth, out) ==
            if Variable(text[i + 2..end]) then Braced(text, i, end, environment, depth, out) else Err(Unsupported)
  {
    hide Braced, Expansion, Close;
  }

  // What is not looked at: a template of more than a megabyte, one with a zero byte, and
  // one inside sixteen others.
  lemma ExpansionEffect(template: seq<Byte>, environment: Environment, depth: nat)
    ensures var r := Expansion(template, environment, depth);
      if depth > 16 || |template| > 1_048_576 || (exists i: nat :: i < |template| && template[i] == 0)
      then r == Err(Invalid) else r == Scan(template, 0, environment, depth, [])
    ensures Scan([], 0, environment, depth, template) == Ok(template)
  {
    hide Scan;
    ScanEnds(environment, depth, template);
  }

  lemma ScanEnds(environment: Environment, depth: nat, out: seq<Byte>)
    ensures Scan([], 0, environment, depth, out) == Ok(out)
  { }

  // ---------- the closing brace ----------

  // One step on the way to it: what is escaped is passed over, `${` opens one brace more,
  // sixteen at most, and every other brace closes one.
  lemma CloseEffect(text: seq<Byte>, i: nat, nesting: nat)
    requires i <= |text| && nesting >= 1
    ensures var r := Close(text, i, nesting);
      if i == |text| then r == Unclosed
      else if text[i] == '\\' as int then
        r == if i + 1 == |text| then Unclosed else Close(text, i + 2, nesting)
      else if text[i] == '$' as int && i + 1 < |text| && text[i + 1] == '{' as int then
        r == if nesting >= 16 then TooManyOpen else Close(text, i + 2, nesting + 1)
      else if text[i] == '}' as int then
        r == if nesting == 1 then At(i) else Close(text, i + 1, nesting - 1)
      else r == Close(text, i + 1, nesting)
  { }
}
