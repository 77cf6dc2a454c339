/** What each operation makes of the inbox, said over the fields of its rows. */
module InboxEffects {
  import opened Prelude
  import opened Unicode
  import opened Encoding
  import opened Findings
  import opened InboxTable
  import opened InboxInvariants
  import opened InboxTransactions
  import opened InboxLoading

  // ---------- who is notified ----------

  predicate MorePressing(a: Urgency, b: Urgency) {
    match b
    case Now => false
    case Soon => a.Now?
    case Eventually => a.Now? || a.Soon?
    case Informational => !a.Informational?
  }

  // The finding as it is published: its texts are cleaned, each to its own length.
  function Clean(rules: Rules, f: Finding): Finding {
    Finding(f.key, rules.clean(f.title, 160), rules.clean(f.explanation, 500), rules.clean(f.details, 2000),
            f.urgency, f.lifecycle, f.actions,
            match f.diagnostic case Some(d) => Some(rules.clean(d, 16384)) case None => None)
  }

  // The finding is new, or back, or says something else than its row.
  predicate Differs(rules: Rules, box: Box, source: Text, f: Finding) {
    var id := Id(source, f.key);
    id in box.items ==> box.items[id].resolved != 0.0 || box.items[id].fingerprint != Signature(Clean(rules, f))
  }

  // The user is to hear of the finding now: it is urgent, and not put off, unless it
  // presses more than when it was put off.
  predicate Tells(rules: Rules, box: Box, source: Text, f: Finding, now: real) {
    var id := Id(source, f.key);
    && Differs(rules, box, source, f)
    && (f.urgency.Now? || f.urgency.Soon?)
    && (id in box.items ==> box.items[id].snoozedUntil <= now || MorePressing(f.urgency, box.items[id].urgency))
  }

  // The row that the finding gets.
  ghost predicate Told(rules: Rules, box: Box, source: Text, f: Finding, now: real, row: Row) {
    var id := Id(source, f.key);
    var c := Clean(rules, f);
    && row.id == id && row.source == source && row.key == f.key
    && row.title == c.title && row.explanation == c.explanation && row.details == c.details
    && row.urgency == f.urgency && row.lifecycle == f.lifecycle && row.actions == f.actions
    && row.fingerprint == Signature(c) && row.resolved == 0.0
    && (id !in box.items ==>
          && row.firstSeen == now && row.updated == now && row.revision == 1 && row.recurrence == 0
          && row.snoozedUntil == 0.0 && row.outcomes == [] && row.busy == [])
    && (id in box.items ==>
          var was := box.items[id];
          && row.firstSeen == was.firstSeen && row.outcomes == was.outcomes && row.busy == was.busy
          && row.updated == (if Differs(rules, box, source, f) then now else was.updated)
          && row.revision == was.revision + (if Differs(rules, box, source, f) then 1 else 0)
          && row.recurrence == was.recurrence + (if was.resolved == 0.0 then 0 else 1)
          && row.snoozedUntil == (if MorePressing(f.urgency, was.urgency) then 0.0 else was.snoozedUntil))
  }

  /**
   A publication: it gives the finding its row and its diagnostic, leaves every other
   row alone, and notifies exactly when the finding is news, urgent, and not put off.
   */
  lemma PublishEffect(rules: Rules, box: Box, source: Text, f: Finding, now: Time)
    requires rules.Valid() && Inv(rules, box) && Publish(rules, box, source, f, now).Ok?
    ensures var p := Publish(rules, box, source, f, now).value; var id := Id(source, f.key);
      && Told(rules, box, source, f, now, p.row)
      && p.notify == Tells(rules, box, source, f, now)
      && p.changed == Differs(rules, box, source, f)
      && p.box.items == box.items[id := p.row] && p.box.analysis == box.analysis
      && p.box.diagnostics == (match f.diagnostic
                               case Some(d) => box.diagnostics[id := rules.clean(d, 16384)]
                               case None => box.diagnostics - {id})
  {
    hide Signature, Registered, Unique, ByteLength, ValidKey;
    assert Cleaned(rules, f) == Clean(rules, f);
    var id := Id(source, f.key);
    if id in box.items {
      RowOf(rules, box, id);
      IdsDiffer(source, f.key, box.items[id].source, box.items[id].key);
    }
  }

  // ---------- who is notified of a check ----------

  // The findings of a report that the user is to hear of, in its order.
  function Telling(rules: Rules, box: Box, source: Text, reports: seq<Finding>, now: real): seq<Finding> {
    if reports == [] then []
    else
      var n := |reports| - 1;
      Telling(rules, box, source, reports[..n], now)
      + if Tells(rules, box, source, reports[n], now) then [reports[n]] else []
  }

  ghost predicate AllTold(rules: Rules, box: Box, source: Text, told: seq<Finding>, now: real, rows: seq<Row>) {
    && |rows| == |told|
    && forall i: nat {:trigger rows[i]} :: i < |told| ==> Told(rules, box, source, told[i], now, rows[i])
  }

  // A finding that is not reported before finds its row as it was at first.
  lemma SameTells(rules: Rules, box: Box, other: Box, source: Text, f: Finding, now: real, row: Row)
    requires Same(box, other, Id(source, f.key))
    ensures Tells(rules, box, source, f, now) == Tells(rules, other, source, f, now)
    ensures Differs(rules, box, source, f) == Differs(rules, other, source, f)
    ensures Told(rules, box, source, f, now, row) <==> Told(rules, other, source, f, now, row)
  {
    hide Signature, Id;
  }

  lemma StagedSame(rules: Rules, box: Box, source: Text, reports: seq<Finding>, now: real, key: Text)
    requires rules.Valid() && Inv(rules, box) && Staged(rules, box, source, reports, now).Ok?
    requires key !in Keys(reports)
    ensures var stage := Staged(rules, box, source, reports, now).value;
      Inv(rules, stage.box) && stage.seen == Keys(reports) && Same(box, stage.box, Id(source, key))
  {
    hide Inv, Same, AllEvolve, AllShown, StageQuiet, Keys;
    StagedIsOk(rules, box, source, reports, now);
    NotTouched(source, key, Keys(reports));
  }

  lemma {:induction false} StagedNotifies(rules: Rules, box: Box, source: Text, reports: seq<Finding>, now: Time)
    requires rules.Valid() && Inv(rules, box) && Staged(rules, box, source, reports, now).Ok?
    ensures AllTold(rules, box, source, Telling(rules, box, source, reports, now), now,
                    Staged(rules, box, source, reports, now).value.notify)
  {
    hide Inv, Told, Tells, Publish, Keys, Same, Rules.Valid;
    if reports != [] {
      var n := |reports| - 1;
      var stage := Staged(rules, box, source, reports[..n], now).value;
      StagedNotifies(rules, box, source, reports[..n], now);
      StagedIsOk(rules, box, source, reports[..n], now);
      StagedSame(rules, box, source, reports[..n], now, reports[n].key);
      PublishEffect(rules, stage.box, source, reports[n], now);
      SameTells(rules, box, stage.box, source, reports[n], now,
                Publish(rules, stage.box, source, reports[n], now).value.row);
    }
  }

  /**
   A check returns, in the order of the report, the rows of exactly those findings that
   the user is to hear of: the ones that are news for the inbox as it was before the
   check, urgent, and not put off.
   */
  lemma CheckNotifies(rules: Rules, box: Box, source: Text, reports: seq<Finding>, now: Time)
    requires rules.Valid() && Inv(rules, box) && Checked(rules, box, source, reports, now).Ok?
    ensures AllTold(rules, box, source, Telling(rules, box, source, reports, now), now,
                    Checked(rules, box, source, reports, now).value.notify)
  {
    hide Inv, AllTold, Staged;
    StagedNotifies(rules, box, source, reports, now);
  }

  // ---------- what a check leaves ----------

  predicate Reported(id: Text, source: Text, reports: seq<Finding>) {
    exists i: nat {:trigger reports[i]} :: i < |reports| && id == Id(source, reports[i].key)
  }

  // The rows of a box whose diagnostics and analyses go with them.
  ghost predicate EndsAt(a: Box, b: Box, id: Text, now: real)
    requires id in a.items
  {
    && id in b.items && b.items[id] == a.items[id].(resolved := now, busy := [])
    && id !in b.diagnostics && id !in b.analysis
  }

  // Of the rows that are not reported the open ones of the source end, the others stay.
  ghost predicate UnreportedRow(a: Box, b: Box, source: Text, now: real, id: Text) {
    if id in a.items && a.items[id].source == source && a.items[id].resolved == 0.0 then EndsAt(a, b, id, now)
    else Same(a, b, id)
  }

  ghost predicate ReportedRow(rules: Rules, a: Box, b: Box, source: Text, f: Finding, now: real) {
    var id := Id(source, f.key);
    && id in b.items && Told(rules, a, source, f, now, b.items[id])
    && Lookup(b.diagnostics, id) == (match f.diagnostic case Some(d) => Some(rules.clean(d, 16384)) case None => None)
    && Lookup(b.analysis, id) == Lookup(a.analysis, id)
  }

  lemma ReportedKeys(source: Text, reports: seq<Finding>, key: Text)
    ensures Reported(Id(source, key), source, reports) <==> key in Keys(reports)
  {
    if key in Keys(reports) {
      var f := OfKey(reports, key);
    } else {
      forall i: nat | i < |reports| ensures Id(source, key) != Id(source, reports[i].key) {
        InKeys(reports, reports[i]);
        OtherKey(source, key, reports[i].key);
      }
    }
  }

  lemma {:induction false} StagedRows(rules: Rules, box: Box, source: Text, reports: seq<Finding>, now: Time)
    requires rules.Valid() && Inv(rules, box) && Staged(rules, box, source, reports, now).Ok?
    ensures var b := Staged(rules, box, source, reports, now).value.box;
      forall f: Finding {:trigger ReportedRow(rules, box, b, source, f, now)} :: f in reports ==>
        ReportedRow(rules, box, b, source, f, now)
  {
    hide Inv, Told, Publish, Keys, Same, Rules.Valid, Id;
    if reports != [] {
      var n := |reports| - 1;
      var f := reports[n];
      var stage := Staged(rules, box, source, reports[..n], now).value;
      var b := Staged(rules, box, source, reports, now).value.box;
      StagedRows(rules, box, source, reports[..n], now);
      StagedIsOk(rules, box, source, reports[..n], now);
      StagedSame(rules, box, source, reports[..n], now, f.key);
      PublishEffect(rules, stage.box, source, f, now);
      SameTells(rules, box, stage.box, source, f, now, Publish(rules, stage.box, source, f, now).value.row);
      SameAnalysis(box, stage.box, Id(source, f.key));
      forall g: Finding | g in reports ensures ReportedRow(rules, box, b, source, g, now) {
        if g != f {
          assert g in reports[..n] && ReportedRow(rules, box, stage.box, source, g, now);
          InKeys(reports[..n], g);
          OtherKey(source, g.key, f.key);
        }
      }
    }
  }

  lemma SameAnalysis(a: Box, b: Box, id: Text)
    requires Same(a, b, id)
    ensures Lookup(b.analysis, id) == Lookup(a.analysis, id)
  { }

  /**
   What a check stages, row by row: each finding has its row, the open rows of the source
   that were not reported have ended at this moment, and every other row is as it was.
   */
  lemma CheckEffect(rules: Rules, box: Box, source: Text, reports: seq<Finding>, now: Time)
    requires rules.Valid() && Inv(rules, box) && Checked(rules, box, source, reports, now).Ok?
    ensures var b := Checked(rules, box, source, reports, now).value.box;
      && (forall f: Finding {:trigger ReportedRow(rules, box, b, source, f, now)} :: f in reports ==>
            ReportedRow(rules, box, b, source, f, now))
      && (forall id: Text {:trigger UnreportedRow(box, b, source, now, id)} :: !Reported(id, source, reports) ==>
            UnreportedRow(box, b, source, now, id))
  {
    hide Inv, Staged, Keys, ReportedRow, UnreportedRow, StageOk, ResolveAbsent, Id;
    var stage := Staged(rules, box, source, reports, now).value;
    var b := ResolveAbsent(stage.box, source, stage.seen, now);
    StagedIsOk(rules, box, source, reports, now);
    StageFacts(rules, box, stage, source, reports);
    StagedRows(rules, box, source, reports, now);
    forall f: Finding | f in reports ensures ReportedRow(rules, box, b, source, f, now) {
      InKeys(reports, f);
      ReportedStays(rules, box, stage.box, source, Keys(reports), f, now);
    }
    forall id: Text | !Reported(id, source, reports) ensures UnreportedRow(box, b, source, now, id) {
      NotReported(rules, box, stage, source, reports, now, id);
    }
  }

  lemma ReportedStays(rules: Rules, a: Box, b: Box, source: Text, seen: set<Text>, f: Finding, now: real)
    requires ReportedRow(rules, a, b, source, f, now) && f.key in seen
    ensures ReportedRow(rules, a, ResolveAbsent(b, source, seen, now), source, f, now)
  {
    hide Differs, Clean;
  }

  lemma NotReported(rules: Rules, box: Box, stage: Stage, source: Text, reports: seq<Finding>, now: real, id: Text)
    requires Inv(rules, stage.box) && StageOk(rules, box, stage, source, reports) && !Reported(id, source, reports)
    ensures UnreportedRow(box, ResolveAbsent(stage.box, source, stage.seen, now), source, now, id)
  {
    hide Inv, AllShown, StageQuiet, AllEvolve, Keys, Same, Id;
    forall k: Text | k in stage.seen ensures id != Id(source, k) { ReportedKeys(source, reports, k); }
    assert Same(box, stage.box, id);
    if id in stage.box.items { RowOf(rules, stage.box, id); }
    SettlesUnseen(stage.box, source, stage.seen, now, id);
    SameFields(box, stage.box, id);
  }

  lemma SameFields(a: Box, b: Box, id: Text)
    requires Same(a, b, id)
    ensures Lookup(a.items, id) == Lookup(b.items, id)
    ensures forall c: Box :: Same(b, c, id) <==> Same(a, c, id)
  { }

  lemma SettlesUnseen(box: Box, source: Text, seen: set<Text>, now: real, id: Text)
    requires id in box.items ==> id == Id(box.items[id].source, box.items[id].key)
    requires forall k: Text :: k in seen ==> id != Id(source, k)
    ensures UnreportedRow(box, ResolveAbsent(box, source, seen, now), source, now, id)
  { }

  // ---------- what is refused ----------

  // The signs a key is made of: letters, digits and the six others.
  predicate KeySign(c: Scalar) {
    || Between(c, 'a', 'z') || Between(c, 'A', 'Z') || Between(c, '0', '9')
    || c == '_' as int || c == '.' as int || c == ':' as int || c == '@' as int || c == '/' as int || c == '-' as int
  }

  predicate Between(c: Scalar, first: char, last: char) { first as int <= c <= last as int }

  // The finding names a proper key and actions that the source offers, each once.
  predicate Proper(rules: Rules, source: Text, f: Finding)
    requires source in rules.registrations
  {
    && 0 < |f.key| <= 200 && (forall c :: c in f.key ==> KeySign(c))
    && (forall a :: a in f.actions ==> a in rules.registrations[source])
    && (forall i: nat, j: nat :: i < j < |f.actions| ==> f.actions[i] != f.actions[j])
  }

  // An action that is offered and named once at most: there are not more than are offered.
  lemma NotMore(registry: Registry, actions: seq<Text>)
    requires (forall a :: a in actions ==> a in registry) && Unique(actions)
    ensures |actions| <= |registry|
  {
    var named := set a | a in actions;
    Distinct(actions);
    SubsetSize(named, registry.Keys);
  }

  lemma {:induction false} Distinct(actions: seq<Text>)
    requires Unique(actions)
    ensures |set a | a in actions| == |actions|
  {
    if actions != [] {
      var init, last := actions[..|actions| - 1], actions[|actions| - 1];
      Distinct(init);
      assert last !in init;
      assert (set a | a in actions) == (set a | a in init) + {last};
    }
  }

  // Why the n-th finding of a report is refused: `have` are the rows there would be.
  function Denied(rules: Rules, box: Box, have: nat, source: Text, f: Finding): Option<Error>
    requires source in rules.registrations
  {
    var id := Id(source, f.key);
    if !Proper(rules, source, f) then Some(InvalidFinding)
    else if f.diagnostic.Some? && ByteLength(f.diagnostic.value) > 16384 then Some(DiagnosticTooLarge)
    else if rules.clean(f.title, 160) == [] then Some(InvalidFinding)
    else if id !in box.items then if have >= 4096 then Some(CapacityReached) else None
    else if box.items[id].resolved != 0.0 && box.items[id].recurrence == 0xFFFF_FFFF_FFFF_FFFF then Some(RevisionLimit)
    else if Differs(rules, box, source, f) && box.items[id].revision == 0xFFFF_FFFF_FFFF_FFFF then Some(RevisionLimit)
    else None
  }

  lemma KeySigns(key: Text)
    ensures ValidKey(key) <==> 0 < |key| <= 200 && forall c :: c in key ==> KeySign(c)
  { }

  lemma PublishRefuses(rules: Rules, box: Box, source: Text, f: Finding, now: real)
    requires Inv(rules, box)
    ensures var r := Publish(rules, box, source, f, now);
      if source !in rules.registrations then r == Err(UnregisteredSource)
      else
        var why := Denied(rules, box, |box.items|, source, f);
        if why.Some? then r == Err(why.value) else r.Ok?
  {
    hide Signature, ByteLength, ValidKey, KeySign;
    KeySigns(f.key);
    if source in rules.registrations && Unique(f.actions)
       && forall a :: a in f.actions ==> a in rules.registrations[source] {
      NotMore(rules.registrations[source], f.actions);
    }
    assert Cleaned(rules, f) == Clean(rules, f);
    if Id(source, f.key) in box.items { RowOf(rules, box, Id(source, f.key)); }
  }

  // The length of a text in UTF-8.
  lemma {:induction false} Bytes(a: Text, b: Text, c: Scalar)
    ensures ByteLength(a + b) == ByteLength(a) + ByteLength(b)
    ensures ByteLength([]) == 0
    ensures ByteLength([c]) == if c < 0x80 then 1 else if c < 0x800 then 2 else if c < 0x10000 then 3 else 4
  {
    if a == [] {
      assert a + b == b;
    } else {
      Bytes(a[1..], b, c);
      assert (a + b)[1..] == a[1..] + b;
    }
    assert [c][1..] == [];
  }

  // The rows there are with those of the findings.
  function Ids(source: Text, reports: seq<Finding>): set<Text> {
    set i: nat | i < |reports| :: Id(source, reports[i].key)
  }

  // Why a report is refused: the first of its findings that has a key once more or is
  // refused for itself decides.
  function FirstDenied(rules: Rules, box: Box, source: Text, reports: seq<Finding>): Option<Error>
    requires source in rules.registrations
  {
    if reports == [] then None
    else
      var n := |reports| - 1;
      var before := FirstDenied(rules, box, source, reports[..n]);
      if before.Some? then before
      else if exists i: nat :: i < n && reports[i].key == reports[n].key then Some(DuplicateKey)
      else Denied(rules, box, |box.items.Keys + Ids(source, reports[..n])|, source, reports[n])
  }

  lemma {:induction false} StagedKeys(rules: Rules, box: Box, source: Text, reports: seq<Finding>, now: Time)
    requires rules.Valid() && Inv(rules, box) && Staged(rules, box, source, reports, now).Ok?
    ensures var stage := Staged(rules, box, source, reports, now).value;
      && stage.box.items.Keys == box.items.Keys + Ids(source, reports)
      && stage.seen == Keys(reports) && Inv(rules, stage.box)
  {
    hide Inv, Publish, Id, AllEvolve, AllShown, StageQuiet;
    StagedIsOk(rules, box, source, reports, now);
    if reports != [] {
      var n := |reports| - 1;
      var stage := Staged(rules, box, source, reports[..n], now).value;
      StagedKeys(rules, box, source, reports[..n], now);
      PublishKeeps(rules, stage.box, source, reports[n], now);
      IdsStep(source, reports);
    }
  }

  lemma IdsStep(source: Text, reports: seq<Finding>)
    requires reports != []
    ensures Ids(source, reports) == Ids(source, reports[..|reports| - 1]) + {Id(source, reports[|reports| - 1].key)}
  {
    var n := |reports| - 1;
    forall id: Text | id in Ids(source, reports)
      ensures id in Ids(source, reports[..n]) + {Id(source, reports[n].key)}
    {
      var i: nat :| i < |reports| && id == Id(source, reports[i].key);
      assert i < n ==> reports[..n][i] == reports[i];
    }
    forall id: Text | id in Ids(source, reports[..n]) ensures id in Ids(source, reports) {
      var i: nat :| i < n && id == Id(source, reports[..n][i].key);
      assert reports[..n][i] == reports[i];
    }
  }

  lemma {:induction false} KeysAt(reports: seq<Finding>, key: Text)
    ensures key in Keys(reports) <==> exists i: nat :: i < |reports| && reports[i].key == key
  {
    if key in Keys(reports) {
      var f := OfKey(reports, key);
    } else {
      forall i: nat | i < |reports| ensures reports[i].key != key { InKeys(reports, reports[i]); }
    }
  }

  lemma DeniedSame(rules: Rules, box: Box, other: Box, have: nat, source: Text, f: Finding)
    requires source in rules.registrations && Same(box, other, Id(source, f.key))
    ensures Denied(rules, box, have, source, f) == Denied(rules, other, have, source, f)
  {
    hide Signature, Proper, ByteLength, Id;
  }

  lemma {:induction false} StagedRefuses(rules: Rules, box: Box, source: Text, reports: seq<Finding>, now: Time)
    requires rules.Valid() && Inv(rules, box) && source in rules.registrations
    ensures var r, why := Staged(rules, box, source, reports, now), FirstDenied(rules, box, source, reports);
      if why.Some? then r == Err(why.value) else r.Ok?
  {
    hide Inv, Publish, Denied, Same, Rules.Valid, Id, Keys, Ids;
    if reports != [] {
      var n := |reports| - 1;
      StagedRefuses(rules, box, source, reports[..n], now);
      if FirstDenied(rules, box, source, reports[..n]).None? {
        var stage := Staged(rules, box, source, reports[..n], now).value;
        StagedKeys(rules, box, source, reports[..n], now);
        KeysAt(reports[..n], reports[n].key);
        assert forall i: nat :: i < n ==> reports[..n][i] == reports[i];
        if reports[n].key !in stage.seen {
          StagedSame(rules, box, source, reports[..n], now, reports[n].key);
          PublishRefuses(rules, stage.box, source, reports[n], now);
          DeniedSame(rules, box, stage.box, |stage.box.items|, source, reports[n]);
          assert |stage.box.items| == |stage.box.items.Keys|;
        }
      }
    }
  }

  /**
   What becomes of a check: it is refused for its source, for what the source returned,
   for more than 512 findings, for the first finding that is refused, and last, if there
   is anything to write, because it cannot be listed or written.
   */
  lemma VerdictEffect(rules: Rules, box: Box, source: Text, reports: Result<seq<Finding>, Error>, now: Time, fits: bool,
        failure: Option<Error>)
    requires rules.Valid() && Inv(rules, box)
    ensures var r := Verdict(rules, box, source, reports, now, fits, failure);
      if source !in rules.registrations then r == Err(UnregisteredSource)
      else if reports.Err? then r == Err(reports.error)
      else if |reports.value| > 512 then r == Err(InvalidResult)
      else
        var why := FirstDenied(rules, box, source, reports.value);
        if why.Some? then r == Err(why.value)
        else
          var s := Checked(rules, box, source, reports.value, now);
          && s.Ok?
          && (s.value.dirty && !fits ==> r == Err(StateCapacity))
          && (s.value.dirty && fits && failure.Some? ==> r == Err(failure.value))
          && (!s.value.dirty || (fits && failure.None?) ==> r == s)
  {
    hide Inv, Staged, FirstDenied;
    if source in rules.registrations && reports.Ok? { StagedRefuses(rules, box, source, reports.value, now); }
  }

  // ---------- the client's operations, and time ----------

  /**
   Only an open row at the revision that the client has seen can be operated on. A notice
   can be done with; a condition ends only with its source. A row is put off from now on,
   for a minute at least and thirty days at most.
   */
  lemma OperateEffect(box: Box, id: Text, revision: nat, op: Operation, now: real)
    ensures var r := Operate(box, id, revision, op, now);
      if id !in box.items || box.items[id].resolved != 0.0 || box.items[id].revision != revision
      then r == Err(StaleFinding)
      else
        var row := box.items[id];
        match op
        case Done =>
          if row.lifecycle == Ongoing then r == Err(PublisherOwned)
          else
            && r.Ok? && r.value.items == box.items[id := row.(resolved := now, busy := [])]
            && r.value.diagnostics == box.diagnostics - {id} && r.value.analysis == box.analysis - {id}
        case Snooze(Some(seconds)) =>
          if 60 <= seconds <= 2_592_000
          then r == Ok(box.(items := box.items[id := row.(snoozedUntil := now + seconds as real)]))
          else r == Err(InvalidDuration)
        case Snooze(None) => r == Err(InvalidDuration)
        case Unsnooze => r == Ok(box.(items := box.items[id := row.(snoozedUntil := 0.0)]))
        case Other => r == Err(InvalidOperation)
  { }

  lemma ResolveEffect(box: Box, id: Text, now: real)
    ensures var b := Resolve(box, id, now);
      if id in box.items && box.items[id].resolved == 0.0
      then
        && b.items == box.items[id := box.items[id].(resolved := now, busy := [])]
        && b.diagnostics == box.diagnostics - {id} && b.analysis == box.analysis - {id}
      else b == box
  { }

  // Rows of sources that are gone are dropped, and those resolved for more than a week,
  // with what belongs to them; of the others the outcomes older than that.
  lemma PruneEffect(rules: Rules, box: Box, now: real, id: Text)
    ensures var b := Prune(rules, box, now);
      if id in box.items && box.items[id].source in rules.registrations
         && (box.items[id].resolved == 0.0 || now - box.items[id].resolved <= 604_800.0)
      then
        && id in b.items && b.items[id] == box.items[id].(outcomes := Recent(box.items[id].outcomes, now))
        && Lookup(b.diagnostics, id) == Lookup(box.diagnostics, id)
        && Lookup(b.analysis, id) == Lookup(box.analysis, id)
      else id !in b.items && id !in b.diagnostics && id !in b.analysis
  {
    hide Recent;
  }

  lemma {:induction false} RecentEffect(a: seq<Outcome>, b: seq<Outcome>, o: Outcome, now: real)
    ensures Recent(a + b, now) == Recent(a, now) + Recent(b, now)
    ensures Recent([], now) == [] && Recent([o], now) == if now - o.at <= 604_800.0 then [o] else []
  {
    assert [o][..0] == [];
    if b == [] {
      assert a + b == a;
    } else {
      var n := |b| - 1;
      RecentEffect(a, b[..n], o, now);
      assert (a + b)[..|a + b| - 1] == a + b[..n];
    }
  }

  // The outcome of an action stands last, behind those that were there; from twenty on the
  // first one goes. The row is free again.
  lemma ReportEffect(box: Box, id: Text, outcome: Outcome)
    requires id in box.items
    ensures var was, b := box.items[id].outcomes, Report(box, id, outcome);
      b == box.(items := box.items[id := box.items[id].(busy := [],
        outcomes := (if |was| < 20 then was else was[1..]) + [outcome])])
  {
    var was := box.items[id].outcomes;
    assert |was| >= 20 ==> (was + [outcome])[1..] == was[1..] + [outcome];
  }

  lemma AnalyzeEffect(box: Box, id: Text, analysis: Analysis, busy: Text, outcome: Outcome)
    ensures var b := Analyze(box, id, analysis);
      b == if id in box.items && box.items[id].resolved == 0.0
           then box.(analysis := box.analysis[id := analysis]) else box
    ensures Mark(box, id, busy) ==
            if id in box.items then box.(items := box.items[id := box.items[id].(busy := busy)]) else box
    ensures id !in box.items ==> Report(box, id, outcome) == box
  { }

  // ---------- what a start makes of a row ----------

  // Why a row on disk is dropped.
  predicate Unreadable(rules: Rules, row: Row) {
    || row.source !in rules.registrations || row.key == [] || |row.key| > 200
    || (exists c :: c in row.key && !KeySign(c))
    || row.firstSeen < 0.0 || row.updated < 0.0 || row.snoozedUntil < 0.0 || row.resolved < 0.0
    || row.revision > 0xFFFF_FFFF_FFFF_FFFF || row.recurrence > 0xFFFF_FFFF_FFFF_FFFF
  }

  /**
   A row that is read keeps what it is about, its counts and its times. Its texts are
   cleaned, it is free, and of its actions and outcomes only those that the source offers
   stay; a fingerprint that is none is emptied.
   */
  lemma LoadRowEffect(rules: Rules, s: Stored, now: real)
    ensures var r := LoadRow(rules, s, now);
      if Unreadable(rules, s.row) then r == None
      else
        var was := s.row;
        var offered := rules.registrations[was.source];
        && r.Some? && var row := r.value;
        && row == was.(id := Id(was.source, was.key), title := rules.clean(was.title, 160),
                       explanation := rules.clean(was.explanation, 500), details := rules.clean(was.details, 2000),
                       actions := Dedup(Retained(offered, was.actions)), outcomes := row.outcomes, busy := [],
                       fingerprint := if s.digest then was.fingerprint else [])
        && var kept := Remembered(rules, offered, was.outcomes, now);
        && |row.outcomes| <= 20 && (|kept| <= 20 ==> row.outcomes == kept)
        && (|kept| > 20 ==> |row.outcomes| == 20 && kept == kept[..|kept| - 20] + row.outcomes)
  {
    hide Dedup, Retained, Remembered, ValidKey, KeySign;
    KeySigns(s.row.key);
  }

  // In their order, the actions that are offered, and of neighbours that are the same one.
  lemma {:induction false} RetainedEffect(registry: Registry, a: seq<Text>, b: seq<Text>, x: Text)
    ensures Retained(registry, a + b) == Retained(registry, a) + Retained(registry, b)
    ensures Retained(registry, []) == [] && Retained(registry, [x]) == if x in registry then [x] else []
  {
    if a == [] {
      assert a + b == b;
    } else {
      RetainedEffect(registry, a[1..], b, x);
      assert (a + b)[1..] == a[1..] + b;
    }
    assert [x][1..] == [];
  }

  lemma {:induction false} DedupEffect(actions: seq<Text>, x: Text)
    ensures Dedup([]) == [] && Dedup([x]) == [x]
    ensures actions != [] ==>
              && Dedup(actions) != []
              && Dedup(actions + [x]) ==
                 Dedup(actions) + if actions[|actions| - 1] == x then [] else [x]
    decreases |actions|
  {
    if |actions| == 1 {
      assert (actions + [x])[1..] == [x];
    } else if |actions| >= 2 {
      DedupEffect(actions[1..], x);
      assert (actions + [x])[1..] == actions[1..] + [x];
    }
  }

  // In their order, the outcomes of actions that are offered and of analyses, of a week
  // at most, their results cleaned.
  lemma {:induction false} RememberedEffect(rules: Rules, registry: Registry, a: seq<Outcome>, b: seq<Outcome>,
        o: Outcome, now: real)
    ensures Remembered(rules, registry, a + b, now) ==
            Remembered(rules, registry, a, now) + Remembered(rules, registry, b, now)
    ensures Remembered(rules, registry, [], now) == []
    ensures Remembered(rules, registry, [o], now) ==
            if (o.action in registry || o.action == Ascii("analyze")) && 0.0 <= o.at && now - o.at <= 604_800.0
            then [Outcome(o.action, o.revision, o.at, rules.clean(o.result, 160))] else []
  {
    assert [o][..0] == [];
    if b == [] {
      assert a + b == a;
    } else {
      var n := |b| - 1;
      RememberedEffect(rules, registry, a, b[..n], o, now);
      assert (a + b)[..|a + b| - 1] == a + b[..n];
    }
  }

  // Of the rows of a file that make the same id the last one that is read stays; a file
  // of more than 4096 rows leaves nothing.
  lemma {:induction false} LoadEffect(rules: Rules, file: File, now: real, k: nat)
    requires k < |file| && file[k].Some? && LoadRow(rules, file[k].value, now).Some?
    requires var id := LoadRow(rules, file[k].value, now).value.id;
      forall j: nat :: k < j < |file| && file[j].Some? && LoadRow(rules, file[j].value, now).Some? ==>
        LoadRow(rules, file[j].value, now).value.id != id
    ensures var row := LoadRow(rules, file[k].value, now).value;
      row.id in LoadRows(rules, file, now) && LoadRows(rules, file, now)[row.id] == row
  {
    hide LoadRow;
    if k < |file| - 1 { LoadEffect(rules, file[..|file| - 1], now, k); }
  }

  lemma TooLong(rules: Rules, file: File, now: real)
    requires |file| > 4096
    ensures Load(rules, file, now) == Box(map[], map[], map[])
  { }

  // Of these rows a start keeps those that are not resolved for more than a week.
  lemma StartEffect(rules: Rules, file: File, now: real, id: Text)
    requires |file| <= 4096
    ensures var rows, b := LoadRows(rules, file, now), Load(rules, file, now);
      && b.diagnostics == map[] && b.analysis == map[]
      && (id in b.items <==> id in rows && (rows[id].resolved == 0.0 || now - rows[id].resolved <= 604_800.0))
      && (id in b.items ==> b.items[id] == rows[id].(outcomes := Recent(rows[id].outcomes, now)))
  {
    hide LoadRow, Recent;
    LoadRowsFrom(rules, file, now);
    PruneEffect(rules, Box(LoadRows(rules, file, now), map[], map[]), now, id);
    if id in LoadRows(rules, file, now) { Offered(rules, file, now, id); }
    PruneEmpty(rules, Box(LoadRows(rules, file, now), map[], map[]), now);
  }

  lemma Offered(rules: Rules, file: File, now: real, id: Text)
    requires id in LoadRows(rules, file, now)
    ensures LoadRows(rules, file, now)[id].source in rules.registrations
  {
    hide LoadRow;
    LoadRowsFrom(rules, file, now);
    var row := LoadRows(rules, file, now)[id];
    assert LoadedFrom(rules, file, now, id, row);
    var s: Stored :| Some(s) in file && LoadRow(rules, s, now) == Some(row) && row.id == id;
    LoadRowOk(rules, s, now, row);
  }

  // A change that is committed is cleared of what has expired.
  lemma CommitEffect(rules: Rules, staged: Box, now: real, id: Text)
    ensures Commit(rules, staged, now, false) == staged
    ensures var b := Commit(rules, staged, now, true);
      && (id in b.items <==>
            && id in staged.items && staged.items[id].source in rules.registrations
            && (staged.items[id].resolved == 0.0 || now - staged.items[id].resolved <= 604_800.0))
      && (id in b.items ==>
            && b.items[id] == staged.items[id].(outcomes := Recent(staged.items[id].outcomes, now))
            && Lookup(b.diagnostics, id) == Lookup(staged.diagnostics, id)
            && Lookup(b.analysis, id) == Lookup(staged.analysis, id))
  {
    hide Prune, Recent;
    PruneEffect(rules, staged, now, id);
  }
}
