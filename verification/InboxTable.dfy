/** The maintenance inbox as a value, and what each operation makes of it. */
module InboxTable {
  import opened Prelude
  import opened Unicode
  import opened Encoding
  import opened Findings

  const CAPACITY := 4096
  const WEEK := 604800.0
  const COUNTER_MAX := 0xFFFF_FFFF_FFFF_FFFF
  const DIAGNOSTIC_BYTES := 16384
  const KEY_LENGTH := 200
  const OUTCOMES := 20
  const UNRESOLVED := 0.0
  const SEPARATOR: Scalar := 0x3A

  // Seconds since the epoch; the clock stands behind it.
  type Time = t: real | t > 0.0 witness 1.0

  datatype Error =
    | UnregisteredSource | InvalidFinding | DiagnosticTooLarge | CapacityReached | RevisionLimit
    | StaleFinding | PublisherOwned | InvalidDuration | InvalidOperation
    | CheckFailed | InvalidResult | DuplicateKey | StateCapacity | StateUnavailable
    | Busy | UnregisteredAction | ConfirmationRequired | NoDiagnostic

  // The actions of a source, and whether each asks for confirmation.
  type Registry = map<Text, bool>

  datatype Rules = Rules(registrations: map<Text, Registry>, clean: (Text, nat) -> Text)
  {
    // No source name has the separator of ids in it.
    predicate Valid() { forall s: Text :: s in registrations ==> SEPARATOR !in s }
  }

  datatype Outcome = Outcome(action: Text, revision: nat, at: real, result: Text)

  datatype Row = Row(
    id: Text,
    source: Text,
    key: Text,
    title: Text,
    explanation: Text,
    details: Text,
    urgency: Urgency,
    lifecycle: Lifecycle,
    actions: seq<Text>,
    firstSeen: real,
    updated: real,
    revision: nat,
    recurrence: nat,
    snoozedUntil: real,
    resolved: real,
    outcomes: seq<Outcome>,
    fingerprint: Code,
    busy: Text)
  {
    predicate Open() { resolved == UNRESOLVED }
  }

  datatype Analysis = Analysis(revision: nat, text: Text)

  datatype Box = Box(items: map<Text, Row>, diagnostics: map<Text, Text>, analysis: map<Text, Analysis>)

  function Id(source: Text, key: Text): Text { source + [SEPARATOR] + key }

  lemma FirstSeparator(s: Text, k: Text)
    requires SEPARATOR !in s
    ensures Id(s, k)[|s|] == SEPARATOR && forall i: nat {:trigger Id(s, k)[i]} :: i < |s| ==> Id(s, k)[i] != SEPARATOR
  { }

  // Sources have no separator in them, so an id names one source and one key.
  lemma IdsDiffer(s: Text, k: Text, t: Text, l: Text)
    requires SEPARATOR !in s && SEPARATOR !in t && Id(s, k) == Id(t, l)
    ensures s == t && k == l
  {
    FirstSeparator(s, k);
    FirstSeparator(t, l);
    assert s == Id(s, k)[..|s|] && t == Id(t, l)[..|t|];
    assert k == Id(s, k)[|s| + 1..] && l == Id(t, l)[|t| + 1..];
  }

  // ---------- keys and findings ----------

  predicate KeyChar(c: Scalar) {
    0x41 <= c <= 0x5A || 0x61 <= c <= 0x7A || 0x30 <= c <= 0x39 || c in {0x5F, 0x2E, SEPARATOR, 0x40, 0x2F, 0x2D}
  }

  predicate ValidKey(key: Text) { 1 <= |key| <= KEY_LENGTH && forall c :: c in key ==> KeyChar(c) }

  function ByteLength(text: Text): nat {
    if text == [] then 0 else |Utf8(text[0])| + ByteLength(text[1..])
  }

  predicate Unique(actions: seq<Text>) { forall i: nat, j: nat :: i < j < |actions| ==> actions[i] != actions[j] }

  predicate Registered(registry: Registry, actions: seq<Text>) {
    |actions| <= |registry| && forall a :: a in actions ==> a in registry
  }

  function Cleaned(rules: Rules, f: Finding): Finding {
    f.(title := rules.clean(f.title, 160),
       explanation := rules.clean(f.explanation, 500),
       details := rules.clean(f.details, 2000),
       diagnostic := if f.diagnostic.Some? then Some(rules.clean(f.diagnostic.value, DIAGNOSTIC_BYTES)) else None)
  }

  // ---------- publishing ----------

  function Refusal(rules: Rules, box: Box, source: Text, f: Finding): Option<Error> {
    if source !in rules.registrations then Some(UnregisteredSource)
    else if !ValidKey(f.key) || !Registered(rules.registrations[source], f.actions) || !Unique(f.actions) then
      Some(InvalidFinding)
    else if f.diagnostic.Some? && ByteLength(f.diagnostic.value) > DIAGNOSTIC_BYTES then Some(DiagnosticTooLarge)
    else if Cleaned(rules, f).title == [] then Some(InvalidFinding)
    else if Id(source, f.key) !in box.items && |box.items| >= CAPACITY then Some(CapacityReached)
    else None
  }

  // What a row says: its fields and its diagnostic, as the finding it came from.
  function Says(row: Row, diagnostic: Option<Text>): Finding {
    Finding(row.key, row.title, row.explanation, row.details, row.urgency, row.lifecycle, row.actions, diagnostic)
  }

  function Lookup<V>(m: map<Text, V>, id: Text): Option<V> { if id in m then Some(m[id]) else None }

  function Content(box: Box, id: Text): Finding
    requires id in box.items
  {
    Says(box.items[id], Lookup(box.diagnostics, id))
  }

  // A finding is news when its row is new or resolved, or says something else.
  predicate News(previous: Option<Row>, signature: Code) {
    previous.None? || previous.value.fingerprint != signature || !previous.value.Open()
  }

  function Fresh(source: Text, f: Finding, now: real): Row {
    Row(Id(source, f.key), source, f.key, [], [], [], f.urgency, f.lifecycle, [], now, now, 0, 0, 0.0, UNRESOLVED, [],
      [], [])
  }

  function Renewed(previous: Option<Row>, source: Text, f: Finding, now: real): Row {
    var row := if previous.Some? then previous.value else Fresh(source, f, now);
    var news := News(previous, Signature(f));
    row.(recurrence := if row.Open() then row.recurrence else row.recurrence + 1,
         snoozedUntil := if Rank(f.urgency) < Rank(row.urgency) then 0.0 else row.snoozedUntil,
         title := f.title, explanation := f.explanation, details := f.details,
         urgency := f.urgency, lifecycle := f.lifecycle, actions := f.actions,
         fingerprint := Signature(f), resolved := UNRESOLVED,
         updated := if news then now else row.updated,
         revision := if news then row.revision + 1 else row.revision)
  }

  function Rank(u: Urgency): nat {
    match u
    case Now => 0
    case Soon => 1
    case Eventually => 2
    case Informational => 3
  }

  datatype Published = Published(box: Box, row: Row, notify: bool, changed: bool)

  function Publish(rules: Rules, box: Box, source: Text, finding: Finding, now: real): Result<Published, Error> {
    var refusal := Refusal(rules, box, source, finding);
    if refusal.Some? then Err(refusal.value)
    else
      var f := Cleaned(rules, finding);
      var id := Id(source, f.key);
      var previous := Lookup(box.items, id);
      var row := Renewed(previous, source, f, now);
      if row.recurrence > COUNTER_MAX || row.revision > COUNTER_MAX then Err(RevisionLimit)
      else
        var news := News(previous, Signature(f));
        Ok(Published(
          Box(box.items[id := row],
              if f.diagnostic.Some? then box.diagnostics[id := f.diagnostic.value] else box.diagnostics - {id},
              box.analysis),
          row, news && Rank(row.urgency) <= Rank(Soon) && row.snoozedUntil <= now, news))
  }

  // ---------- resolving, pruning, operations ----------

  function Settle(row: Row, now: real): Row { row.(resolved := now, busy := []) }

  function Resolve(box: Box, id: Text, now: real): Box {
    if id in box.items && box.items[id].Open() then
      Box(box.items[id := Settle(box.items[id], now)], box.diagnostics - {id}, box.analysis - {id})
    else box
  }

  predicate Kept(rules: Rules, row: Row, now: real) {
    row.source in rules.registrations && (row.Open() || row.resolved >= now - WEEK)
  }

  function Recent(outcomes: seq<Outcome>, now: real): seq<Outcome> {
    if outcomes == [] then []
    else Recent(outcomes[..|outcomes| - 1], now)
         + if outcomes[|outcomes| - 1].at >= now - WEEK then [outcomes[|outcomes| - 1]] else []
  }

  function Prune(rules: Rules, box: Box, now: real): Box {
    var items := map id | id in box.items && Kept(rules, box.items[id], now) ::
                   box.items[id].(outcomes := Recent(box.items[id].outcomes, now));
    Box(items,
      map id | id in box.diagnostics && id in items :: box.diagnostics[id],
      map id | id in box.analysis && id in items :: box.analysis[id])
  }

  predicate Current(box: Box, id: Text, revision: nat) {
    id in box.items && box.items[id].Open() && box.items[id].revision == revision
  }

  datatype Operation = Done | Snooze(seconds: Option<nat>) | Unsnooze | Other

  function Operate(box: Box, id: Text, revision: nat, op: Operation, now: real): Result<Box, Error> {
    if !Current(box, id, revision) then Err(StaleFinding)
    else
      var row := box.items[id];
      match op
      case Done => if row.lifecycle.Notice? then Ok(Resolve(box, id, now)) else Err(PublisherOwned)
      case Snooze(seconds) =>
        if seconds.None? || seconds.value < 60 || seconds.value > 30 * 86400 then Err(InvalidDuration)
        else Ok(box.(items := box.items[id := row.(snoozedUntil := now + seconds.value as real)]))
      case Unsnooze => Ok(box.(items := box.items[id := row.(snoozedUntil := 0.0)]))
      case Other => Err(InvalidOperation)
  }

  function Latest(outcomes: seq<Outcome>): seq<Outcome> {
    if |outcomes| > OUTCOMES then outcomes[1..] else outcomes
  }

  function Report(box: Box, id: Text, outcome: Outcome): Box {
    if id !in box.items then box
    else
      var row := box.items[id];
      box.(items := box.items[id := row.(busy := [], outcomes := Latest(row.outcomes + [outcome]))])
  }

  function Mark(box: Box, id: Text, busy: Text): Box {
    if id in box.items then box.(items := box.items[id := box.items[id].(busy := busy)]) else box
  }

  function Analyze(box: Box, id: Text, analysis: Analysis): Box {
    if id in box.items && box.items[id].Open() then box.(analysis := box.analysis[id := analysis]) else box
  }

  // ---------- what a start finds on disk ----------

  // A row as it was written; `digest` tells whether its fingerprint has the form of one.
  datatype Stored = Stored(row: Row, digest: bool)

  // The rows of a file; what does not parse is None.
  type File = seq<Option<Stored>>

  function Retained(registry: Registry, actions: seq<Text>): seq<Text> {
    if actions == [] then []
    else (if actions[0] in registry then [actions[0]] else []) + Retained(registry, actions[1..])
  }

  // Vec::dedup: of equal neighbours the first stays.
  function Dedup(actions: seq<Text>): seq<Text> {
    if |actions| < 2 then actions
    else if actions[0] == actions[1] then Dedup(actions[1..])
    else [actions[0]] + Dedup(actions[1..])
  }

  // The outcomes of registered actions and analyses that are not too old, their texts cleaned.
  function Remembered(rules: Rules, registry: Registry, outcomes: seq<Outcome>, now: real): seq<Outcome> {
    if outcomes == [] then []
    else
      var o := outcomes[|outcomes| - 1];
      Remembered(rules, registry, outcomes[..|outcomes| - 1], now)
      + if (o.action in registry || o.action == Ascii("analyze")) && o.at >= 0.0 && o.at >= now - WEEK
        then [o.(result := rules.clean(o.result, 160))] else []
  }

  function LastOnes(outcomes: seq<Outcome>): seq<Outcome> {
    if |outcomes| > OUTCOMES then outcomes[|outcomes| - OUTCOMES..] else outcomes
  }

  function LoadRow(rules: Rules, s: Stored, now: real): Option<Row> {
    var row := s.row;
    if row.source !in rules.registrations || !ValidKey(row.key) then None
    else if row.firstSeen < 0.0 || row.updated < 0.0 || row.snoozedUntil < 0.0 || row.resolved < 0.0 then None
    else if row.revision > COUNTER_MAX || row.recurrence > COUNTER_MAX then None
    else
      var registry := rules.registrations[row.source];
      Some(row.(
        id := Id(row.source, row.key),
        title := rules.clean(row.title, 160),
        explanation := rules.clean(row.explanation, 500),
        details := rules.clean(row.details, 2000),
        actions := Dedup(Retained(registry, row.actions)),
        outcomes := LastOnes(Remembered(rules, registry, row.outcomes, now)),
        fingerprint := if s.digest then row.fingerprint else [],
        busy := []))
  }

  // Row by row; what does not parse is dropped.
  function LoadRows(rules: Rules, rows: File, now: real): map<Text, Row> {
    if rows == [] then map[]
    else
      var before, last := LoadRows(rules, rows[..|rows| - 1], now), rows[|rows| - 1];
      if last.Some? && LoadRow(rules, last.value, now).Some? then
        var row := LoadRow(rules, last.value, now).value;
        before[row.id := row]
      else before
  }

  // A start: no diagnostics and no analyses, and nothing of a file that is too long.
  function Load(rules: Rules, rows: File, now: real): Box {
    var items := if |rows| > CAPACITY then map[] else LoadRows(rules, rows, now);
    Prune(rules, Box(items, map[], map[]), now)
  }

  // ---------- a source's report as one transaction ----------

  datatype Stage = Stage(box: Box, seen: set<Text>, notify: seq<Row>, dirty: bool)

  // The findings before the n-th, published one after the other.
  function Staged(rules: Rules, box: Box, source: Text, reports: seq<Finding>, now: real): Result<Stage, Error> {
    if reports == [] then Ok(Stage(box, {}, [], false))
    else
      var f := reports[|reports| - 1];
      match Staged(rules, box, source, reports[..|reports| - 1], now)
      case Err(e) => Err(e)
      case Ok(stage) =>
        if f.key in stage.seen then Err(DuplicateKey)
        else match Publish(rules, stage.box, source, f, now)
          case Err(e) => Err(e)
          case Ok(p) =>
            Ok(Stage(p.box, stage.seen + {f.key}, if p.notify then stage.notify + [p.row] else stage.notify,
                     stage.dirty || p.changed))
  }

  predicate Absent(row: Row, source: Text, seen: set<Text>) { row.source == source && row.key !in seen }

  // Every open row of the source that was not reported is resolved.
  function ResolveAbsent(box: Box, source: Text, seen: set<Text>, now: real): Box {
    ResolveAll(box, Gone(box, source, seen), now)
  }

  function ResolveAll(box: Box, gone: set<Text>, now: real): Box {
    Box(map id | id in box.items :: if id in gone then Settle(box.items[id], now) else box.items[id],
      box.diagnostics - gone, box.analysis - gone)
  }

  function Gone(box: Box, source: Text, seen: set<Text>): set<Text> {
    set id | id in box.items && Absent(box.items[id], source, seen) && box.items[id].Open()
  }

  const REPORTS := 512
  const TASKS := 8

  // Why a check is refused, else what it stages: `fits` tells whether the
  // snapshot stays below its limit, `failure` whether writing the state fails.
  function Verdict(rules: Rules, box: Box, source: Text, reports: Result<seq<Finding>, Error>, now: real, fits: bool,
        failure: Option<Error>): Result<Stage, Error>
  {
    if source !in rules.registrations then Err(UnregisteredSource)
    else match reports
      case Err(e) => Err(e)
      case Ok(list) =>
        if |list| > REPORTS then Err(InvalidResult)
        else match Checked(rules, box, source, list, now)
          case Err(e) => Err(e)
          case Ok(stage) =>
            if stage.dirty && !fits then Err(StateCapacity)
            else if stage.dirty && failure.Some? then Err(failure.value)
            else Ok(stage)
  }

  function Checked(rules: Rules, box: Box, source: Text, reports: seq<Finding>, now: real): Result<Stage, Error> {
    if source !in rules.registrations then Err(UnregisteredSource)
    else match Staged(rules, box, source, reports, now)
    case Err(e) => Err(e)
    case Ok(stage) =>
      Ok(stage.(box := ResolveAbsent(stage.box, source, stage.seen, now),
                dirty := stage.dirty || Gone(stage.box, source, stage.seen) != {}))
  }
}
