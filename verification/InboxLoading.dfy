/** What a start makes of the rows on disk, whatever they are. */
module InboxLoading {
  import opened Prelude
  import opened Encoding
  import opened Findings
  import opened InboxTable
  import opened InboxInvariants

  // ---------- any file ----------

  lemma {:induction false} RetainedRegistered(registry: Registry, actions: seq<Text>)
    ensures forall a :: a in Retained(registry, actions) ==> a in registry
  {
    if actions != [] { RetainedRegistered(registry, actions[1..]); }
  }

  lemma {:induction false} DedupKeeps(actions: seq<Text>)
    ensures forall a :: a in Dedup(actions) ==> a in actions
    decreases |actions|
  {
    if |actions| >= 2 { DedupKeeps(actions[1..]); }
  }

  lemma LoadRowOk(rules: Rules, s: Stored, now: real, row: Row)
    requires LoadRow(rules, s, now) == Some(row)
    ensures row.id == Id(row.source, row.key) && row.source in rules.registrations && ValidKey(row.key)
    ensures row.revision <= COUNTER_MAX && row.recurrence <= COUNTER_MAX
    ensures forall a :: a in row.actions ==> a in rules.registrations[row.source]
  {
    var registry := rules.registrations[s.row.source];
    RetainedRegistered(registry, s.row.actions);
    DedupKeeps(Retained(registry, s.row.actions));
  }

  // Each row is loaded from the file, under the id that its source and key make.
  ghost predicate LoadedFrom(rules: Rules, file: File, now: real, id: Text, row: Row) {
    exists s: Stored :: Some(s) in file && LoadRow(rules, s, now) == Some(row) && row.id == id
  }

  lemma {:induction false} LoadRowsFrom(rules: Rules, file: File, now: real)
    ensures var items := LoadRows(rules, file, now);
      && |items| <= |file|
      && forall id: Text {:trigger items[id]} :: id in items ==> LoadedFrom(rules, file, now, id, items[id])
  {
    hide LoadRow;
    if file != [] {
      var earlier, last := file[..|file| - 1], file[|file| - 1];
      var before, items := LoadRows(rules, earlier, now), LoadRows(rules, file, now);
      LoadRowsFrom(rules, earlier, now);
      assert file == earlier + [last];
      forall id: Text | id in items ensures LoadedFrom(rules, file, now, id, items[id]) {
        if id in before && items[id] == before[id] {
          assert LoadedFrom(rules, earlier, now, id, before[id]);
          var s: Stored :| Some(s) in earlier && LoadRow(rules, s, now) == Some(before[id]) && before[id].id == id;
          assert Some(s) in file;
        } else {
          assert Some(last.value) in file;
        }
      }
      if last.Some? && LoadRow(rules, last.value, now).Some? {
        var row := LoadRow(rules, last.value, now).value;
        OneMore(before, row.id, row);
      }
    }
  }

  lemma OneMore(items: map<Text, Row>, id: Text, row: Row)
    ensures |items[id := row]| <= |items| + 1
  {
    assert items[id := row].Keys == items.Keys + {id};
    assert |items[id := row]| == |items[id := row].Keys| && |items| == |items.Keys|;
  }

  // Whatever the file says, a start gives an inbox in order, without diagnostics.
  lemma LoadInv(rules: Rules, file: File, now: Time)
    ensures var b := Load(rules, file, now); Inv(rules, b) && b.diagnostics == map[] && b.analysis == map[]
  {
    hide LoadRow, Prune;
    var items := if |file| > CAPACITY then map[] else LoadRows(rules, file, now);
    var b := Box(items, map[], map[]);
    LoadRowsFrom(rules, file, now);
    forall id: Text | id in items ensures RowOk(rules, b, id) {
      assert LoadedFrom(rules, file, now, id, items[id]);
      var s: Stored :| Some(s) in file && LoadRow(rules, s, now) == Some(items[id]) && items[id].id == id;
      LoadRowOk(rules, s, now, items[id]);
    }
    assert Inv(rules, b);
    PruneKeeps(rules, b, now);
    PruneEmpty(rules, b, now);
  }

  lemma PruneEmpty(rules: Rules, b: Box, now: real)
    requires b.diagnostics == map[] && b.analysis == map[]
    ensures Prune(rules, b, now).diagnostics == map[] && Prune(rules, b, now).analysis == map[]
  { }

  // Two starts from one file load the same rows, but for outcomes that have expired.
  ghost predicate SameRow(a: Row, b: Row) { a == b.(outcomes := a.outcomes) }

  lemma {:induction false} LoadRowsAlike(rules: Rules, file: File, now: real, later: real)
    ensures var a, b := LoadRows(rules, file, now), LoadRows(rules, file, later);
      a.Keys == b.Keys && forall id: Text {:trigger a[id]} :: id in a ==> SameRow(a[id], b[id])
  {
    if file != [] { LoadRowsAlike(rules, file[..|file| - 1], now, later); }
  }

  lemma LoadsAlike(rules: Rules, file: File, now: Time, later: Time, id: Text)
    requires id in Load(rules, file, now).items && id in Load(rules, file, later).items
    ensures SameRow(Load(rules, file, now).items[id], Load(rules, file, later).items[id])
  {
    hide LoadRow;
    LoadRowsAlike(rules, file, now, later);
    assert SameRow(LoadRows(rules, file, now)[id], LoadRows(rules, file, later)[id]);
  }

  // ---------- a file that the service has written ----------

  function Written(row: Row): Stored { Stored(row.(busy := []), row.fingerprint != []) }

  // The rows of an inbox as they are written, each once, in some order.
  ghost predicate Saved(box: Box, file: File) {
    && |file| == |box.items|
    && (forall s: Option<Stored> {:trigger s in file} :: s in file ==> s.Some? && SavedRow(box, s.value))
    && (forall id: Text {:trigger box.items[id]} :: id in box.items ==> Some(Written(box.items[id])) in file)
  }

  ghost predicate SavedRow(box: Box, s: Stored) {
    s.row.id in box.items && s == Written(box.items[s.row.id])
  }

  // What a restart keeps of a row that it keeps.
  ghost predicate Reloaded(rules: Rules, was: Row, row: Row) {
    && row.key == was.key && row.source == was.source
    && row.urgency == was.urgency && row.lifecycle == was.lifecycle && row.resolved == was.resolved
    && row.revision == was.revision && row.recurrence == was.recurrence && row.fingerprint == was.fingerprint
    && row.title == rules.clean(was.title, 160) && row.explanation == rules.clean(was.explanation, 500)
    && row.details == rules.clean(was.details, 2000)
    && row.source in rules.registrations && row.actions == Dedup(Retained(rules.registrations[row.source], was.actions))
  }

  lemma RowReloads(rules: Rules, was: Row, now: real)
    ensures LoadRow(rules, Written(was), now).Some? ==>
              var row := LoadRow(rules, Written(was), now).value;
              Reloaded(rules, was, row) && row.id == Id(was.source, was.key)
  {
    hide Dedup, Retained, Remembered, LastOnes, ValidKey;
  }

  // A start from a written file brings no row that was not there.
  lemma RestartKeeps(rules: Rules, box: Box, file: File, now: Time, id: Text)
    requires Inv(rules, box) && Saved(box, file) && id in Load(rules, file, now).items
    ensures id in box.items && Reloaded(rules, box.items[id], Load(rules, file, now).items[id])
  {
    hide LoadRow, LoadRows, Recent, Reloaded;
    LoadRowsFrom(rules, file, now);
    var items := LoadRows(rules, file, now);
    assert LoadedFrom(rules, file, now, id, items[id]);
    var s: Stored :| Some(s) in file && LoadRow(rules, s, now) == Some(items[id]) && items[id].id == id;
    assert SavedRow(box, s);
    assert RowOk(rules, box, s.row.id);
    RowReloads(rules, box.items[s.row.id], now);
    PrunedReloads(rules, box.items[id], items[id], Load(rules, file, now).items[id]);
  }

  lemma PrunedReloads(rules: Rules, was: Row, row: Row, pruned: Row)
    requires Reloaded(rules, was, row) && SameRow(row, pruned)
    ensures Reloaded(rules, was, pruned)
  { }

  // ---------- what a file may say while the service runs ----------

  // Whenever the service is started again, that counts as one step at most: the
  // file says what the inbox says, or what it would have said after one more step.
  ghost predicate Keeps(rules: Rules, box: Box, file: File) {
    forall now: Time {:trigger Load(rules, file, now)} :: AllCounted(box, Load(rules, file, now))
  }

  lemma StartKeeps(rules: Rules, file: File, now: Time)
    ensures Keeps(rules, Load(rules, file, now), file)
  {
    hide Load;
    forall later: Time ensures AllCounted(Load(rules, file, now), Load(rules, file, later)) {
      var a, b := Load(rules, file, now), Load(rules, file, later);
      forall id: Text | id in a.items && id in b.items ensures Counted(a, b, id) {
        LoadsAlike(rules, file, now, later, id);
      }
    }
  }

  // An inbox that was written, or would have been.
  lemma SavedKeeps(rules: Rules, box: Box, saved: Box, file: File)
    requires Inv(rules, saved) && Saved(saved, file) && AllCounted(box, saved)
    ensures Keeps(rules, box, file)
  {
    hide Load, Inv, Saved;
    forall now: Time ensures AllCounted(box, Load(rules, file, now)) {
      forall id: Text | id in box.items && id in Load(rules, file, now).items
        ensures Counted(box, Load(rules, file, now), id)
      {
        RestartKeeps(rules, saved, file, now, id);
        assert Counted(box, saved, id);
      }
    }
  }

  // What a restart would count is the same in both.
  ghost predicate Uncounted(a: Box, b: Box) {
    forall id: Text {:trigger b.items[id]} :: id in b.items ==>
      && id in a.items && b.items[id].fingerprint == a.items[id].fingerprint
      && b.items[id].revision == a.items[id].revision && b.items[id].recurrence == a.items[id].recurrence
      && b.items[id].resolved == a.items[id].resolved
  }

  lemma UncountedKeeps(rules: Rules, a: Box, b: Box, file: File)
    requires Keeps(rules, a, file) && Uncounted(a, b)
    ensures Keeps(rules, b, file)
  {
    hide Load;
    forall now: Time ensures AllCounted(b, Load(rules, file, now)) {
      assert AllCounted(a, Load(rules, file, now));
      forall id: Text | id in b.items && id in Load(rules, file, now).items
        ensures Counted(b, Load(rules, file, now), id)
      {
        assert b.items[id].revision == a.items[id].revision && Counted(a, Load(rules, file, now), id);
      }
    }
  }

  // ---------- what a second cleaning does ----------

  // Another cleaning changes nothing: the texts are fixed by it, and so are the actions.
  ghost predicate FixedFields(rules: Rules, source: Text, f: Finding) {
    && f.title == rules.clean(f.title, 160) && f.explanation == rules.clean(f.explanation, 500)
    && f.details == rules.clean(f.details, 2000)
    && source in rules.registrations && f.actions == Dedup(Retained(rules.registrations[source], f.actions))
  }

  ghost predicate Fixed(rules: Rules, row: Row) { FixedFields(rules, row.source, Says(row, None)) }

  // The fingerprint is that of these fields with some diagnostic.
  ghost predicate SignedBy(code: Code, f: Finding) {
    exists d: Option<Text> :: code == Signature(f.(diagnostic := d))
  }

  ghost predicate Genuine(row: Row) { SignedBy(row.fingerprint, Says(row, None)) }

  // A row comes back from disk as it was exactly when it is fixed.
  lemma RestartFields(rules: Rules, box: Box, file: File, now: Time, id: Text)
    requires Inv(rules, box) && Saved(box, file) && id in Load(rules, file, now).items
    ensures id in box.items
    ensures Says(Load(rules, file, now).items[id], None) == Says(box.items[id], None) <==> Fixed(rules, box.items[id])
  {
    hide Load, Inv, Saved;
    RestartKeeps(rules, box, file, now, id);
  }

  // Rows of one fingerprint that are genuine have the same fields, and if one of
  // them is and the fields are the same then so is the other.
  lemma GenuineFields(a: Row, b: Row)
    requires a.key == b.key && a.fingerprint == b.fingerprint && Genuine(a)
    ensures Says(a, None) == Says(b, None) <==> Genuine(b)
  {
    hide Signature;
    var d: Option<Text> :| a.fingerprint == Signature(Says(a, None).(diagnostic := d));
    if Genuine(b) {
      var e: Option<Text> :| b.fingerprint == Signature(Says(b, None).(diagnostic := e));
      SignatureTellsContent(Says(a, None).(diagnostic := d), Says(b, None).(diagnostic := e));
    }
  }

  lemma {:induction false} RetainedAll(registry: Registry, actions: seq<Text>)
    requires forall a :: a in actions ==> a in registry
    ensures Retained(registry, actions) == actions
  {
    if actions != [] {
      assert actions[0] in registry && actions == [actions[0]] + actions[1..];
      RetainedAll(registry, actions[1..]);
    }
  }

  lemma {:induction false} DedupUnique(actions: seq<Text>)
    requires Unique(actions)
    ensures Dedup(actions) == actions
    decreases |actions|
  {
    if |actions| >= 2 {
      assert actions[0] != actions[1] && actions == [actions[0]] + actions[1..];
      DedupUnique(actions[1..]);
    }
  }

  // A finding without its diagnostic.
  function Bare(f: Finding): Finding { f.(diagnostic := None) }

  // A published row is genuine, and it is fixed exactly when cleaning the cleaned
  // finding once more would leave its texts.
  lemma PublishedFixed(rules: Rules, box: Box, source: Text, finding: Finding, now: real)
    requires rules.Valid() && Inv(rules, box) && Publish(rules, box, source, finding, now).Ok?
    ensures var row, once := Publish(rules, box, source, finding, now).value.row, Cleaned(rules, finding);
      Genuine(row) && (Fixed(rules, row) <==> Bare(Cleaned(rules, once)) == Bare(once))
  {
    hide Signature, Retained, Dedup, ByteLength;
    var p := Publish(rules, box, source, finding, now).value;
    PublishContent(rules, box, source, finding, now);
    var d := Lookup(p.box.diagnostics, Id(source, finding.key));
    assert Says(p.row, d) == Cleaned(rules, finding);
    assert Says(p.row, d) == Says(p.row, None).(diagnostic := d);
    RetainedAll(rules.registrations[source], finding.actions);
    DedupUnique(finding.actions);
  }
}
