/** What holds of every inbox a run can reach, and how a row may change in a step. */
module InboxInvariants {
  import opened Prelude
  import opened Encoding
  import opened Findings
  import opened InboxTable

  // The fingerprint is that of what the row says now.
  ghost predicate Known(box: Box, id: Text)
    requires id in box.items
  {
    box.items[id].fingerprint == Signature(Content(box, id))
  }

  // A loaded row need not be known: its diagnostic was never written, and its
  // fingerprint may be that of anything. A row with a diagnostic is.
  ghost predicate RowOk(rules: Rules, box: Box, id: Text)
    requires id in box.items
  {
    var row := box.items[id];
    && row.id == id == Id(row.source, row.key)
    && row.source in rules.registrations && ValidKey(row.key)
    && row.revision <= COUNTER_MAX && row.recurrence <= COUNTER_MAX
    && (forall a :: a in row.actions ==> a in rules.registrations[row.source])
    && (id in box.diagnostics ==> Known(box, id))
  }

  ghost predicate OnlyOpen<V>(box: Box, m: map<Text, V>) {
    forall id: Text :: id in m ==> id in box.items && box.items[id].Open()
  }

  ghost predicate Inv(rules: Rules, box: Box) {
    && (forall id: Text {:trigger RowOk(rules, box, id)} {:trigger id in box.items} :: id in box.items ==>
      RowOk(rules, box, id))
    && OnlyOpen(box, box.diagnostics) && OnlyOpen(box, box.analysis)
    && |box.items| <= CAPACITY
  }

  // Nothing about `id` differs.
  ghost predicate Same(a: Box, b: Box, id: Text) {
    && Lookup(a.items, id) == Lookup(b.items, id)
    && Lookup(a.diagnostics, id) == Lookup(b.diagnostics, id)
    && Lookup(a.analysis, id) == Lookup(b.analysis, id)
  }

  /**
   One step seen from a row that stays: its revision rises by one exactly when
   its fingerprint changes or the row comes back, its recurrence when it comes
   back.
   */
  ghost predicate Counted(a: Box, b: Box, id: Text)
    requires id in a.items && id in b.items
  {
    var was, row := a.items[id], b.items[id];
    var back := !was.Open() && row.Open();
    && row.revision == was.revision + (if back || (row.Open() && row.fingerprint != was.fingerprint) then 1 else 0)
    && row.recurrence == was.recurrence + (if back then 1 else 0)
  }

  // And whenever fingerprint or content has changed, an open row is known.
  ghost predicate Evolves(a: Box, b: Box, id: Text)
    requires id in a.items && id in b.items
  {
    var changed := b.items[id].fingerprint != a.items[id].fingerprint || Content(a, id) != Content(b, id);
    Counted(a, b, id) && (b.items[id].Open() && changed ==> Known(b, id))
  }

  // For a known row the fingerprint stands for the content.
  lemma KnownRevisionLaw(rules: Rules, a: Box, b: Box, id: Text)
    requires Inv(rules, a) && Inv(rules, b) && rules.Valid()
    requires id in a.items && id in b.items && Evolves(a, b, id) && Known(a, id) && b.items[id].Open()
    ensures var back := !a.items[id].Open();
      b.items[id].revision == a.items[id].revision + if back || Content(a, id) != Content(b, id) then 1 else 0
  {
    hide Signature, Inv;
    RowOf(rules, a, id);
    RowOf(rules, b, id);
    IdsDiffer(a.items[id].source, a.items[id].key, b.items[id].source, b.items[id].key);
    SignatureTellsContent(Content(a, id), Content(b, id));
  }

  ghost predicate AllEvolve(a: Box, b: Box) {
    forall id: Text {:trigger Evolves(a, b, id)} {:trigger id in a.items, id in b.items} ::
      id in a.items && id in b.items ==> Evolves(a, b, id)
  }

  lemma SameKeepsRow(rules: Rules, a: Box, b: Box, id: Text)
    requires Same(a, b, id) && id in a.items && RowOk(rules, a, id)
    ensures id in b.items && RowOk(rules, b, id) && Evolves(a, b, id)
  { }

  ghost predicate AllCounted(a: Box, b: Box) {
    forall id: Text {:trigger Counted(a, b, id)} :: id in a.items && id in b.items ==> Counted(a, b, id)
  }

  // ---------- publishing ----------

  // What is published is what the row says now, and the row is known.
  lemma PublishContent(rules: Rules, box: Box, source: Text, finding: Finding, now: real)
    requires rules.Valid() && Inv(rules, box) && Publish(rules, box, source, finding, now).Ok?
    ensures var p := Publish(rules, box, source, finding, now).value; var id := Id(source, finding.key);
      && id in p.box.items && p.box.items[id] == p.row && p.row.Open()
      && p.row.source == source && p.row.key == finding.key
      && Content(p.box, id) == Cleaned(rules, finding)
      && Known(p.box, id) && RowOk(rules, p.box, id)
  {
    hide Signature, Unique, ByteLength;
    var id := Id(source, finding.key);
    if id in box.items {
      assert RowOk(rules, box, id);
      IdsDiffer(source, finding.key, box.items[id].source, box.items[id].key);
    }
  }

  // An open row whose fingerprint is that of the finding: the finding is no news.
  ghost predicate Matches(rules: Rules, box: Box, source: Text, f: Finding) {
    var id := Id(source, f.key);
    id in box.items && box.items[id].Open() && box.items[id].fingerprint == Signature(Cleaned(rules, f))
  }

  lemma PublishOne(rules: Rules, box: Box, source: Text, finding: Finding, now: real)
    requires rules.Valid() && Inv(rules, box) && Publish(rules, box, source, finding, now).Ok?
    ensures var p := Publish(rules, box, source, finding, now).value; var id := Id(source, finding.key);
      && id in p.box.items
      && (id in box.items ==> Evolves(box, p.box, id))
      && p.changed == !Matches(rules, box, source, finding)
      && p.changed == (id !in box.items || p.row.revision != box.items[id].revision)
  {
    hide Signature, Registered, Unique, ByteLength, Content, Inv;
    PublishContent(rules, box, source, finding, now);
  }

  lemma RowOf(rules: Rules, box: Box, id: Text)
    requires Inv(rules, box) && id in box.items
    ensures RowOk(rules, box, id) && Content(box, id).key == box.items[id].key
  { }

  lemma PublishOthers(rules: Rules, box: Box, source: Text, finding: Finding, now: real, id: Text)
    requires Publish(rules, box, source, finding, now).Ok? && id != Id(source, finding.key)
    ensures Same(box, Publish(rules, box, source, finding, now).value.box, id)
  { }

  lemma PublishKeeps(rules: Rules, box: Box, source: Text, finding: Finding, now: real)
    requires rules.Valid() && Inv(rules, box) && Publish(rules, box, source, finding, now).Ok?
    ensures var p := Publish(rules, box, source, finding, now).value;
      && Inv(rules, p.box) && AllEvolve(box, p.box)
      && p.box.items.Keys == box.items.Keys + {Id(source, finding.key)}
  {
    hide Evolves, RowOk;
    var p := Publish(rules, box, source, finding, now).value;
    var id := Id(source, finding.key);
    PublishContent(rules, box, source, finding, now);
    PublishOne(rules, box, source, finding, now);
    PublishShape(rules, box, source, finding, now);
    forall other: Text | other != id ensures Same(box, p.box, other) {
      PublishOthers(rules, box, source, finding, now, other);
    }
    forall other: Text | other in box.items && other != id
      ensures RowOk(rules, p.box, other) && Evolves(box, p.box, other)
    {
      assert RowOk(rules, box, other);
      SameKeepsRow(rules, box, p.box, other);
    }
    forall other: Text | other in p.box.items ensures RowOk(rules, p.box, other) {
      assert Same(box, p.box, other) || other == id;
    }
    PublishMaps(rules, box, source, finding, now);
  }

  lemma PublishShape(rules: Rules, box: Box, source: Text, finding: Finding, now: real)
    requires Publish(rules, box, source, finding, now).Ok? && |box.items| <= CAPACITY
    ensures var p := Publish(rules, box, source, finding, now).value;
      && p.box.items.Keys == box.items.Keys + {Id(source, finding.key)}
      && |p.box.items| <= CAPACITY
  { }

  lemma PublishMaps(rules: Rules, box: Box, source: Text, finding: Finding, now: real)
    requires rules.Valid() && Inv(rules, box) && Publish(rules, box, source, finding, now).Ok?
    ensures var b := Publish(rules, box, source, finding, now).value.box;
              OnlyOpen(b, b.diagnostics) && OnlyOpen(b, b.analysis)
  { }

  // ---------- the other operations ----------

  // Row by row, an operation keeps or drops what is there.
  ghost predicate StepOk(rules: Rules, a: Box, b: Box) {
    && b.items.Keys <= a.items.Keys
    && (forall id: Text {:trigger RowOk(rules, b, id)} :: id in b.items ==> RowOk(rules, b, id))
    && OnlyOpen(b, b.diagnostics) && OnlyOpen(b, b.analysis)
    && AllEvolve(a, b)
  }

  lemma FewerRows(rules: Rules, a: Box, b: Box)
    requires Inv(rules, a) && StepOk(rules, a, b)
    ensures Inv(rules, b) && AllEvolve(a, b)
  {
    hide RowOk, Evolves, AllEvolve;
    SubsetSize(b.items.Keys, a.items.Keys);
    assert |b.items| == |b.items.Keys| && |a.items| == |a.items.Keys|;
  }

  // The rows in `gone` are resolved, all else stays.
  ghost predicate Settled(a: Box, b: Box, gone: set<Text>, now: real) {
    && b.items.Keys == a.items.Keys && gone <= a.items.Keys
    && (forall id: Text {:trigger b.items[id]} :: id in gone ==> b.items[id] == Settle(a.items[id], now))
    && (forall id: Text {:trigger Same(a, b, id)} :: id !in gone ==> Same(a, b, id))
    && (forall id: Text :: id in gone ==> id !in b.diagnostics && id !in b.analysis)
  }

  lemma SettledKeeps(rules: Rules, a: Box, b: Box, gone: set<Text>, now: Time)
    requires Inv(rules, a) && Settled(a, b, gone, now)
    ensures Inv(rules, b) && AllEvolve(a, b)
  {
    forall id: Text | id in b.items ensures RowOk(rules, b, id) && Evolves(a, b, id) {
      hide Signature, Content, Same, Inv;
      RowOf(rules, a, id);
      if id !in gone {
        assert Same(a, b, id);
        SameKeepsRow(rules, a, b, id);
      }
    }
    SettledMaps(rules, a, b, gone, now);
    FewerRows(rules, a, b);
  }

  lemma SettledMaps(rules: Rules, a: Box, b: Box, gone: set<Text>, now: Time)
    requires Inv(rules, a) && Settled(a, b, gone, now)
    ensures OnlyOpen(b, b.diagnostics) && OnlyOpen(b, b.analysis)
  {
    hide RowOk;
    forall id: Text | id in b.diagnostics || id in b.analysis ensures id in b.items && b.items[id].Open() {
      assert id !in gone && Same(a, b, id);
    }
  }

  lemma ResolveSettles(box: Box, id: Text, now: real)
    ensures Settled(box, Resolve(box, id, now), if id in box.items && box.items[id].Open() then {id} else {}, now)
  { }

  lemma ResolveKeeps(rules: Rules, box: Box, id: Text, now: Time)
    requires Inv(rules, box)
    ensures Inv(rules, Resolve(box, id, now)) && AllEvolve(box, Resolve(box, id, now))
  {
    ResolveSettles(box, id, now);
    SettledKeeps(rules, box, Resolve(box, id, now), if id in box.items && box.items[id].Open() then {id} else {}, now);
  }

  // Rows whose identity, content and openness stay.
  ghost predicate Alike(a: Row, b: Row) {
    b == a.(snoozedUntil := b.snoozedUntil, outcomes := b.outcomes, busy := b.busy)
  }

  ghost predicate AllAlike(a: Box, b: Box) {
    && b.items.Keys <= a.items.Keys
    && (forall id: Text {:trigger b.items[id]} :: id in b.items ==> Alike(a.items[id], b.items[id]))
    && (forall id: Text {:trigger id in b.diagnostics} :: id in b.diagnostics <==> id in a.diagnostics && id in b.items)
    && (forall id: Text {:trigger b.diagnostics[id]} :: id in b.diagnostics ==> b.diagnostics[id] == a.diagnostics[id])
    && (forall id: Text {:trigger id in b.analysis} :: id in b.analysis ==> id in b.items && b.items[id].Open())
  }

  lemma AlikeKeeps(rules: Rules, a: Box, b: Box)
    requires Inv(rules, a) && AllAlike(a, b)
    ensures Inv(rules, b) && AllEvolve(a, b)
  {
    hide RowOk, Evolves, Alike, AllEvolve;
    forall id: Text | id in b.items ensures RowOk(rules, b, id) && (id in a.items ==> Evolves(a, b, id)) {
      RowOf(rules, a, id);
      AlikeRow(rules, a, b, id);
    }
    AlikeEvolve(a, b);
    AlikeMaps(a, b);
    FewerRows(rules, a, b);
  }

  lemma AlikeRow(rules: Rules, a: Box, b: Box, id: Text)
    requires AllAlike(a, b) && id in a.items && id in b.items && RowOk(rules, a, id)
    ensures RowOk(rules, b, id) && Evolves(a, b, id)
  {
    hide Signature;
    assert Alike(a.items[id], b.items[id]);
    assert Lookup(a.diagnostics, id) == Lookup(b.diagnostics, id);
  }

  lemma AlikeMaps(a: Box, b: Box)
    requires AllAlike(a, b) && OnlyOpen(a, a.diagnostics)
    ensures OnlyOpen(b, b.diagnostics) && OnlyOpen(b, b.analysis)
  {
    forall id: Text | id in b.diagnostics ensures id in b.items && b.items[id].Open() {
      assert id in a.diagnostics && Alike(a.items[id], b.items[id]);
    }
  }

  lemma AlikeEvolve(a: Box, b: Box)
    requires forall id: Text | id in b.items :: id in a.items ==> Evolves(a, b, id)
    ensures AllEvolve(a, b)
  { }

  lemma PruneAlike(rules: Rules, box: Box, now: Time)
    requires Inv(rules, box)
    ensures AllAlike(box, Prune(rules, box, now))
  {
    hide Recent, Kept, RowOk;
    var b := Prune(rules, box, now);
    forall id: Text | id in b.items ensures Alike(box.items[id], b.items[id]) {
      assert b.items[id] == box.items[id].(outcomes := Recent(box.items[id].outcomes, now));
    }
  }

  lemma PruneKeeps(rules: Rules, box: Box, now: Time)
    requires Inv(rules, box)
    ensures Inv(rules, Prune(rules, box, now)) && AllEvolve(box, Prune(rules, box, now))
  {
    PruneAlike(rules, box, now);
    AlikeKeeps(rules, box, Prune(rules, box, now));
  }

  lemma OperateKeeps(rules: Rules, box: Box, id: Text, revision: nat, op: Operation, now: Time)
    requires Inv(rules, box) && Operate(box, id, revision, op, now).Ok?
    ensures var b := Operate(box, id, revision, op, now).value; Inv(rules, b) && AllEvolve(box, b)
  {
    hide RowOk, Evolves;
    if op.Done? { ResolveKeeps(rules, box, id, now); }
    else { AlikeKeeps(rules, box, Operate(box, id, revision, op, now).value); }
  }

  lemma ReportAlike(box: Box, id: Text, outcome: Outcome)
    requires OnlyOpen(box, box.diagnostics) && OnlyOpen(box, box.analysis)
    ensures AllAlike(box, Report(box, id, outcome))
  { }

  lemma MarkAlike(box: Box, id: Text, busy: Text)
    requires OnlyOpen(box, box.diagnostics) && OnlyOpen(box, box.analysis)
    ensures AllAlike(box, Mark(box, id, busy))
  { }

  lemma ReportKeeps(rules: Rules, box: Box, id: Text, outcome: Outcome)
    requires Inv(rules, box)
    ensures Inv(rules, Report(box, id, outcome)) && AllEvolve(box, Report(box, id, outcome))
  {
    hide RowOk, AllAlike, AllEvolve, Report;
    ReportAlike(box, id, outcome);
    AlikeKeeps(rules, box, Report(box, id, outcome));
  }

  lemma MarkKeeps(rules: Rules, box: Box, id: Text, busy: Text)
    requires Inv(rules, box)
    ensures Inv(rules, Mark(box, id, busy)) && AllEvolve(box, Mark(box, id, busy))
  {
    hide RowOk, AllAlike, AllEvolve, Mark;
    MarkAlike(box, id, busy);
    AlikeKeeps(rules, box, Mark(box, id, busy));
  }

  lemma AnalyzeKeeps(rules: Rules, box: Box, id: Text, analysis: Analysis)
    requires Inv(rules, box)
    ensures Inv(rules, Analyze(box, id, analysis)) && AllEvolve(box, Analyze(box, id, analysis))
  { }
}
