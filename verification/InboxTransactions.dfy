/** A source's report: what a committed check leaves in the inbox. */
module InboxTransactions {
  import opened Encoding
  import opened Findings
  import opened InboxTable
  import opened InboxInvariants

  function Keys(reports: seq<Finding>): set<Text> {
    if reports == [] then {} else Keys(reports[..|reports| - 1]) + {reports[|reports| - 1].key}
  }

  // The open rows of a source, by key.
  function OpenKeys(box: Box, source: Text): set<Text> {
    set id | id in box.items && box.items[id].source == source && box.items[id].Open() :: box.items[id].key
  }

  function Commit(rules: Rules, staged: Box, now: real, dirty: bool): Box {
    if dirty then Prune(rules, staged, now) else staged
  }

  // ---------- the findings, one after the other ----------

  ghost predicate Touched(id: Text, source: Text, seen: set<Text>) {
    exists k: Text :: k in seen && id == Id(source, k)
  }

  ghost predicate Shows(rules: Rules, box: Box, source: Text, f: Finding) {
    var id := Id(source, f.key);
    id in box.items && box.items[id].Open() && box.items[id].source == source && Content(box, id) == Cleaned(rules, f)
  }

  ghost predicate KnownAt(box: Box, source: Text, f: Finding) {
    Id(source, f.key) in box.items && Known(box, Id(source, f.key))
  }

  ghost predicate StageOk(rules: Rules, box: Box, stage: Stage, source: Text, reports: seq<Finding>) {
    && Inv(rules, stage.box) && stage.seen == Keys(reports) && AllEvolve(box, stage.box)
    && box.items.Keys <= stage.box.items.Keys
    && AllShown(rules, stage.box, source, reports)
    && (forall id: Text {:trigger Same(box, stage.box, id)} :: !Touched(id, source, stage.seen) ==>
      Same(box, stage.box, id))
    && StageQuiet(rules, box, stage, source, reports)
  }

  // What was reported is what the rows say, and they are known.
  ghost predicate AllShown(rules: Rules, box: Box, source: Text, reports: seq<Finding>) {
    forall f: Finding {:trigger Shows(rules, box, source, f)} {:trigger KnownAt(box, source, f)} ::
      f in reports ==> Shows(rules, box, source, f) && KnownAt(box, source, f)
  }

  ghost predicate AllMatch(rules: Rules, box: Box, source: Text, reports: seq<Finding>) {
    forall f: Finding {:trigger Matches(rules, box, source, f)} :: f in reports ==> Matches(rules, box, source, f)
  }

  ghost predicate AllKnown(box: Box, source: Text, reports: seq<Finding>) {
    forall f: Finding {:trigger KnownAt(box, source, f)} :: f in reports ==> KnownAt(box, source, f)
  }

  // Clean exactly when every finding matches its row; then nobody is notified, and
  // nothing at all has changed if the rows were known.
  ghost predicate StageQuiet(rules: Rules, box: Box, stage: Stage, source: Text, reports: seq<Finding>) {
    && (!stage.dirty <==> AllMatch(rules, box, source, reports))
    && (!stage.dirty ==> stage.notify == [])
    && (!stage.dirty && AllKnown(box, source, reports) ==> stage.box == box)
  }

  lemma InKeys(reports: seq<Finding>, f: Finding)
    requires f in reports
    ensures f.key in Keys(reports)
  { }

  lemma SameChains(a: Box, b: Box, c: Box, id: Text)
    requires Same(a, b, id) && id in a.items && id in b.items && id in c.items && Evolves(b, c, id)
    ensures Evolves(a, c, id)
  { }

  // A finding that is no news notifies nobody, keeps the revision, and changes
  // nothing at all exactly when its row was known.
  lemma PublishUnchanged(rules: Rules, box: Box, source: Text, finding: Finding, now: real)
    requires rules.Valid() && Inv(rules, box) && Publish(rules, box, source, finding, now).Ok?
    requires !Publish(rules, box, source, finding, now).value.changed
    ensures var p := Publish(rules, box, source, finding, now).value; var id := Id(source, finding.key);
      && !p.notify && id in box.items && p.row.revision == box.items[id].revision
      && (p.box == box <==> Known(box, id))
  {
    hide Signature, Refusal, Inv;
    var f := Cleaned(rules, finding);
    var id := Id(source, f.key);
    var p := Publish(rules, box, source, finding, now).value;
    RowOf(rules, box, id);
    PublishContent(rules, box, source, finding, now);
    if Known(box, id) {
      IdsDiffer(source, f.key, box.items[id].source, box.items[id].key);
      SignatureTellsContent(f, Content(box, id));
      assert p.row == box.items[id];
      assert p.box.diagnostics == box.diagnostics;
    }
  }

  lemma StageOne(rules: Rules, box: Box, source: Text, earlier: seq<Finding>, stage: Stage, f: Finding, now: real)
    requires rules.Valid() && Inv(rules, box) && StageOk(rules, box, stage, source, earlier)
    requires f.key !in stage.seen && Publish(rules, stage.box, source, f, now).Ok?
    ensures var p := Publish(rules, stage.box, source, f, now).value;
      StageOk(rules, box, StageAfter(stage, f, p), source, earlier + [f])
  {
    hide Publish, Inv, Evolves, Same, Signature, RowOk, AllShown, StageQuiet;
    var p := Publish(rules, stage.box, source, f, now).value;
    var id := Id(source, f.key);
    var seen := stage.seen + {f.key};
    PublishKeeps(rules, stage.box, source, f, now);
    assert (earlier + [f])[..|earlier|] == earlier;
    NotTouched(source, f.key, stage.seen);
    forall other: Text | other != id ensures Same(stage.box, p.box, other) {
      PublishOthers(rules, stage.box, source, f, now, other);
    }
    forall other: Text | !Touched(other, source, seen) ensures Same(box, p.box, other) {
      TouchedMore(other, source, stage.seen, f.key);
      SameTrans(box, stage.box, p.box, other);
    }
    forall other: Text | other in box.items && other in p.box.items ensures Evolves(box, p.box, other) {
      if other == id {
        SameChains(box, stage.box, p.box, id);
      } else {
        EvolvesSame(box, stage.box, p.box, other);
      }
    }
    StageShows(rules, stage, source, earlier, f, now);
    StageStaysQuiet(rules, box, source, earlier, stage, f, now);
  }

  function StageAfter(stage: Stage, f: Finding, p: Published): Stage {
    Stage(p.box, stage.seen + {f.key}, if p.notify then stage.notify + [p.row] else stage.notify,
          stage.dirty || p.changed)
  }

  lemma StageShows(rules: Rules, stage: Stage, source: Text, earlier: seq<Finding>, f: Finding, now: real)
    requires rules.Valid() && Inv(rules, stage.box) && AllShown(rules, stage.box, source, earlier)
    requires stage.seen == Keys(earlier) && f.key !in stage.seen && Publish(rules, stage.box, source, f, now).Ok?
    ensures AllShown(rules, Publish(rules, stage.box, source, f, now).value.box, source, earlier + [f])
  {
    hide Publish, Inv, Same, Signature, RowOk, Known;
    var b := Publish(rules, stage.box, source, f, now).value.box;
    PublishContent(rules, stage.box, source, f, now);
    forall g: Finding | g in earlier + [f] ensures Shows(rules, b, source, g) && KnownAt(b, source, g) {
      if g in earlier {
        assert Shows(rules, stage.box, source, g) && KnownAt(stage.box, source, g);
        InKeys(earlier, g);
        OtherKey(source, g.key, f.key);
        PublishOthers(rules, stage.box, source, f, now, Id(source, g.key));
        ShowsSame(rules, stage.box, b, source, g);
      }
    }
  }

  lemma OtherKey(source: Text, k: Text, l: Text)
    ensures k != l ==> Id(source, k) != Id(source, l)
  {
    assert k == Id(source, k)[|source| + 1..] && l == Id(source, l)[|source| + 1..];
  }

  lemma StageStaysQuiet(rules: Rules, box: Box, source: Text, earlier: seq<Finding>, stage: Stage, f: Finding,
        now: real)
    requires rules.Valid() && Inv(rules, stage.box) && StageQuiet(rules, box, stage, source, earlier)
    requires Same(box, stage.box, Id(source, f.key)) && Publish(rules, stage.box, source, f, now).Ok?
    ensures var p := Publish(rules, stage.box, source, f, now).value;
      StageQuiet(rules, box, StageAfter(stage, f, p), source, earlier + [f])
  {
    hide Publish, Inv, Signature, RowOk;
    var p := Publish(rules, stage.box, source, f, now).value;
    PublishOne(rules, stage.box, source, f, now);
    if !p.changed { PublishUnchanged(rules, stage.box, source, f, now); }
    assert Matches(rules, stage.box, source, f) <==> Matches(rules, box, source, f);
    assert KnownAt(stage.box, source, f) <==> KnownAt(box, source, f);
    assert AllMatch(rules, box, source, earlier + [f]) <==>
      AllMatch(rules, box, source, earlier) && Matches(rules, box, source, f) by {
      forall g: Finding ensures g in earlier + [f] <==> g in earlier || g == f { }
    }
    assert AllKnown(box, source, earlier + [f]) <==> AllKnown(box, source, earlier) && KnownAt(box, source, f) by {
      forall g: Finding ensures g in earlier + [f] <==> g in earlier || g == f { }
    }
  }

  lemma NotTouched(source: Text, key: Text, seen: set<Text>)
    requires key !in seen
    ensures !Touched(Id(source, key), source, seen)
  {
    forall k: Text | k in seen ensures Id(source, k) != Id(source, key) {
      assert k == Id(source, k)[|source| + 1..] && key == Id(source, key)[|source| + 1..];
    }
  }

  lemma TouchedMore(id: Text, source: Text, seen: set<Text>, key: Text)
    requires !Touched(id, source, seen + {key})
    ensures !Touched(id, source, seen) && id != Id(source, key)
  { }

  lemma SameTrans(a: Box, b: Box, c: Box, id: Text)
    requires Same(a, b, id) && Same(b, c, id)
    ensures Same(a, c, id)
  { }

  lemma EvolvesSame(a: Box, b: Box, c: Box, id: Text)
    requires id in a.items && id in b.items && Evolves(a, b, id) && Same(b, c, id)
    ensures id in c.items && Evolves(a, c, id)
  { }

  lemma ShowsSame(rules: Rules, a: Box, b: Box, source: Text, f: Finding)
    requires Same(a, b, Id(source, f.key))
    ensures Shows(rules, a, source, f) <==> Shows(rules, b, source, f)
    ensures KnownAt(a, source, f) <==> KnownAt(b, source, f)
  { }

  lemma {:induction false} StagedIsOk(rules: Rules, box: Box, source: Text, reports: seq<Finding>, now: real)
    requires rules.Valid() && Inv(rules, box) && Staged(rules, box, source, reports, now).Ok?
    ensures StageOk(rules, box, Staged(rules, box, source, reports, now).value, source, reports)
  {
    hide Publish, StageOk, Inv, Signature, Rules.Valid;
    if reports == [] {
      StageStarts(rules, box, source);
    } else {
      var earlier, f := reports[..|reports| - 1], reports[|reports| - 1];
      StagedIsOk(rules, box, source, earlier, now);
      assert earlier + [f] == reports;
      var stage := Staged(rules, box, source, earlier, now).value;
      StageOne(rules, box, source, earlier, stage, f, now);
    }
  }

  lemma StageStarts(rules: Rules, box: Box, source: Text)
    requires Inv(rules, box)
    ensures StageOk(rules, box, Stage(box, {}, [], false), source, [])
  { }

  // ---------- the rows that were not reported, and the commit ----------

  lemma AbsentSettles(box: Box, source: Text, seen: set<Text>, now: real)
    ensures Settled(box, ResolveAbsent(box, source, seen, now), Gone(box, source, seen), now)
  { }

  lemma NothingGone(box: Box, source: Text, seen: set<Text>, now: real)
    requires Gone(box, source, seen) == {}
    ensures ResolveAbsent(box, source, seen, now) == box
  { }

  lemma ReportedStay(rules: Rules, box: Box, source: Text, reports: seq<Finding>, now: real, f: Finding)
    requires Shows(rules, box, source, f) && RowOk(rules, box, Id(source, f.key)) && f.key in Keys(reports)
    ensures Shows(rules, ResolveAbsent(box, source, Keys(reports), now), source, f)
    ensures Same(box, ResolveAbsent(box, source, Keys(reports), now), Id(source, f.key))
  { }

  // The same row, but for outcomes older than a week; only a row resolved for
  // longer may be gone.
  ghost predicate Expired(rules: Rules, a: Box, b: Box, id: Text, now: real)
    requires id in a.items
  {
    if Kept(rules, a.items[id], now) then
      && id in b.items && b.items[id] == a.items[id].(outcomes := Recent(a.items[id].outcomes, now))
      && Lookup(b.diagnostics, id) == Lookup(a.diagnostics, id) && Lookup(b.analysis, id) == Lookup(a.analysis, id)
    else
      && id !in b.items && id !in b.diagnostics && id !in b.analysis
      && !a.items[id].Open() && a.items[id].resolved < now - WEEK
  }

  // After a commit a row of another source is as it was, or has expired history.
  ghost predicate Spared(rules: Rules, a: Box, b: Box, id: Text, now: real)
    requires id in a.items
  {
    Same(a, b, id) || Expired(rules, a, b, id, now)
  }

  lemma PruneExpires(rules: Rules, a: Box, b: Box, id: Text, now: real)
    requires id in a.items && Same(a, b, id) && RowOk(rules, a, id)
    ensures Expired(rules, a, Prune(rules, b, now), id, now)
  { }

  // The keys of the open rows are those of the reports.
  lemma OpenAreReported(rules: Rules, box: Box, stage: Stage, source: Text, reports: seq<Finding>, now: real)
    requires StageOk(rules, box, stage, source, reports)
    requires now != UNRESOLVED
    ensures var b := ResolveAbsent(stage.box, source, stage.seen, now);
      && OpenKeys(b, source) == Keys(reports)
      && AllShown(rules, b, source, reports)
  {
    hide Inv, Content, Signature, RowOk, Shows, Keys, Cleaned, AllEvolve, Known, KnownAt, Same, StageQuiet;
    var b := ResolveAbsent(stage.box, source, stage.seen, now);
    forall f: Finding | f in reports ensures Shows(rules, b, source, f) && KnownAt(b, source, f) {
      InKeys(reports, f);
      assert Shows(rules, stage.box, source, f) && KnownAt(stage.box, source, f);
      ShowsRow(rules, stage.box, source, f);
      ReportedStay(rules, stage.box, source, reports, now, f);
      ShowsSame(rules, stage.box, b, source, f);
    }
    forall k: Text | k in Keys(reports) ensures k in OpenKeys(b, source) {
      var f := OfKey(reports, k);
      assert Shows(rules, b, source, f);
      ShowsOpen(rules, b, source, f);
    }
    forall id: Text | id in b.items && b.items[id].source == source && b.items[id].Open()
      ensures b.items[id].key in Keys(reports)
    {
      assert id !in Gone(stage.box, source, stage.seen);
    }
  }

  lemma ShowsRow(rules: Rules, box: Box, source: Text, f: Finding)
    requires Inv(rules, box) && Shows(rules, box, source, f)
    ensures Id(source, f.key) in box.items && RowOk(rules, box, Id(source, f.key))
  { }

  lemma ShowsOpen(rules: Rules, box: Box, source: Text, f: Finding)
    requires Shows(rules, box, source, f)
    ensures f.key in OpenKeys(box, source)
  { }

  lemma OfKey(reports: seq<Finding>, k: Text) returns (f: Finding)
    requires k in Keys(reports)
    ensures f in reports && f.key == k
  {
    var n := |reports| - 1;
    if reports[n].key == k {
      f := reports[n];
    } else {
      f := OfKey(reports[..n], k);
    }
  }

  lemma CheckedIsOk(rules: Rules, box: Box, source: Text, reports: seq<Finding>, now: Time)
    requires rules.Valid() && Inv(rules, box) && Checked(rules, box, source, reports, now).Ok?
    ensures var s := Checked(rules, box, source, reports, now).value;
      && Inv(rules, s.box) && AllEvolve(box, s.box)
      && OpenKeys(s.box, source) == Keys(reports)
      && AllShown(rules, s.box, source, reports)
      && (forall id: Text {:trigger Same(box, s.box, id)} :: id in box.items && box.items[id].source != source ==>
        Same(box, s.box, id))
      && (!s.dirty ==> s.notify == [] && (s.box == box <==> AllKnown(box, source, reports)))
  {
    hide Inv, Staged, StageOk, AllEvolve, Same, RowOk, Keys, OpenKeys, Shows, KnownAt, AllMatch;
    var stage := Staged(rules, box, source, reports, now).value;
    var b := ResolveAbsent(stage.box, source, stage.seen, now);
    StagedIsOk(rules, box, source, reports, now);
    OpenAreReported(rules, box, stage, source, reports, now);
    StageFacts(rules, box, stage, source, reports);
    AbsentSettles(stage.box, source, stage.seen, now);
    SettledKeeps(rules, stage.box, b, Gone(stage.box, source, stage.seen), now);
    CheckEvolves(rules, box, stage, source, reports, now);
    CheckSpares(rules, box, stage, source, reports, now);
    if Gone(stage.box, source, stage.seen) == {} { NothingGone(stage.box, source, stage.seen, now); }
  }

  lemma StageFacts(rules: Rules, box: Box, stage: Stage, source: Text, reports: seq<Finding>)
    requires StageOk(rules, box, stage, source, reports)
    ensures Inv(rules, stage.box) && stage.seen == Keys(reports) && AllEvolve(box, stage.box)
    ensures StageQuiet(rules, box, stage, source, reports)
  { }

  // A row is published or resolved in a check, never both.
  lemma CheckEvolves(rules: Rules, box: Box, stage: Stage, source: Text, reports: seq<Finding>, now: Time)
    requires Inv(rules, box) && StageOk(rules, box, stage, source, reports)
    ensures AllEvolve(box, ResolveAbsent(stage.box, source, stage.seen, now))
  {
    hide Inv, Evolves, Same, RowOk, Keys, Shows, Signature, ResolveAbsent, Settled, Gone, AllShown, StageQuiet;
    var b := ResolveAbsent(stage.box, source, stage.seen, now);
    var gone := Gone(stage.box, source, stage.seen);
    AbsentSettles(stage.box, source, stage.seen, now);
    SettledKeeps(rules, stage.box, b, gone, now);
    forall id: Text | id in box.items && id in b.items ensures Evolves(box, b, id) {
      SettledAt(stage.box, b, gone, now, id);
      if id in gone {
        GoneUntouched(rules, box, stage, source, reports, id);
        SameChains(box, stage.box, b, id);
      } else {
        EvolvesSame(box, stage.box, b, id);
      }
    }
  }

  lemma SettledAt(a: Box, b: Box, gone: set<Text>, now: real, id: Text)
    requires Settled(a, b, gone, now)
    ensures id in a.items <==> id in b.items
    ensures id !in gone ==> Same(a, b, id)
  { }

  lemma GoneUntouched(rules: Rules, box: Box, stage: Stage, source: Text, reports: seq<Finding>, id: Text)
    requires StageOk(rules, box, stage, source, reports) && id in Gone(stage.box, source, stage.seen)
    ensures Same(box, stage.box, id)
  {
    hide Same, Evolves, Signature;
    assert RowOk(rules, stage.box, id);
    NotTouched(source, stage.box.items[id].key, stage.seen);
  }

  lemma CheckSpares(rules: Rules, box: Box, stage: Stage, source: Text, reports: seq<Finding>, now: Time)
    requires rules.Valid() && Inv(rules, box) && StageOk(rules, box, stage, source, reports)
    requires source in rules.registrations
    ensures var b := ResolveAbsent(stage.box, source, stage.seen, now);
      forall id: Text {:trigger Same(box, b, id)} :: id in box.items && box.items[id].source != source ==>
        Same(box, b, id)
  {
    hide Signature, Evolves, Shows, Same;
    var b := ResolveAbsent(stage.box, source, stage.seen, now);
    forall id: Text | id in box.items && box.items[id].source != source ensures Same(box, b, id) {
      OtherUntouched(rules, box, id, source, stage.seen);
      AbsentSettles(stage.box, source, stage.seen, now);
      SettledAt(stage.box, b, Gone(stage.box, source, stage.seen), now, id);
      SameSource(box, stage.box, id);
      SameTrans(box, stage.box, b, id);
    }
  }

  lemma SameSource(a: Box, b: Box, id: Text)
    requires Same(a, b, id) && id in a.items
    ensures id in b.items && b.items[id] == a.items[id]
  { }

  lemma OtherUntouched(rules: Rules, box: Box, id: Text, source: Text, seen: set<Text>)
    requires rules.Valid() && Inv(rules, box) && id in box.items && box.items[id].source != source
    requires source in rules.registrations
    ensures !Touched(id, source, seen)
  {
    hide Signature;
    assert RowOk(rules, box, id);
    forall k: Text | k in seen ensures id != Id(source, k) {
      if id == Id(source, k) { IdsDiffer(source, k, box.items[id].source, box.items[id].key); }
    }
  }

  /**
   A committed check: the open rows of the source are exactly the reported keys
   and say what was reported, the rows of other sources are as they were apart
   from expired history, and no other source gains a row. A check with nothing to
   write notifies nobody, and leaves the inbox as it was exactly when the reported
   rows were known; a loaded row gets its diagnostic back.
   */
  lemma CheckTransaction(rules: Rules, box: Box, source: Text, reports: seq<Finding>, now: Time)
    requires rules.Valid() && Inv(rules, box) && Checked(rules, box, source, reports, now).Ok?
    ensures var s := Checked(rules, box, source, reports, now).value; var b := Commit(rules, s.box, now, s.dirty);
      && Inv(rules, b) && AllEvolve(box, b)
      && OpenKeys(b, source) == Keys(reports)
      && AllShown(rules, b, source, reports)
      && (forall id: Text {:trigger Spared(rules, box, b, id, now)} ::
            id in box.items && box.items[id].source != source ==> Spared(rules, box, b, id, now))
      && (forall id: Text :: id in b.items && b.items[id].source != source ==> id in box.items)
      && (!s.dirty ==> s.notify == [] && (b == box <==> AllKnown(box, source, reports)))
  {
    hide Checked, Inv, AllEvolve, Same, RowOk, Keys, OpenKeys, Shows, KnownAt, Expired, Prune, AllKnown;
    var s := Checked(rules, box, source, reports, now).value;
    var b := Commit(rules, s.box, now, s.dirty);
    CheckedIsOk(rules, box, source, reports, now);
    CheckedAddsOwn(rules, box, source, reports, now);
    if s.dirty {
      PruneKeeps(rules, s.box, now);
      PruneKeepsOpen(rules, s.box, source, now);
      EvolveThenPrune(rules, box, s.box, now);
      forall f: Finding | f in reports ensures Shows(rules, b, source, f) && KnownAt(b, source, f) {
        assert Shows(rules, s.box, source, f) && KnownAt(s.box, source, f);
        ShowsRow(rules, s.box, source, f);
        PruneShows(rules, s.box, source, f, now);
      }
      forall id: Text | id in box.items && box.items[id].source != source ensures Spared(rules, box, b, id, now) {
        assert Same(box, s.box, id);
        RowOf(rules, box, id);
        PruneExpires(rules, box, s.box, id, now);
      }
      PruneKeys(rules, s.box, now);
    } else {
      forall id: Text | id in box.items && box.items[id].source != source ensures Spared(rules, box, b, id, now) {
        assert Same(box, s.box, id);
      }
    }
  }

  lemma PruneKeys(rules: Rules, box: Box, now: real)
    ensures forall id: Text :: id in Prune(rules, box, now).items ==>
              id in box.items && Prune(rules, box, now).items[id].source == box.items[id].source
  { }

  lemma PruneShows(rules: Rules, box: Box, source: Text, f: Finding, now: real)
    requires Shows(rules, box, source, f) && KnownAt(box, source, f) && RowOk(rules, box, Id(source, f.key))
    ensures Shows(rules, Prune(rules, box, now), source, f) && KnownAt(Prune(rules, box, now), source, f)
  {
    hide Signature, Recent;
    var id := Id(source, f.key);
    var b := Prune(rules, box, now);
    assert b.items[id] == box.items[id].(outcomes := Recent(box.items[id].outcomes, now));
    assert Content(b, id) == Content(box, id);
  }

  lemma PruneKeepsOpen(rules: Rules, box: Box, source: Text, now: real)
    requires Inv(rules, box)
    ensures OpenKeys(Prune(rules, box, now), source) == OpenKeys(box, source)
  {
    hide Signature;
    var b := Prune(rules, box, now);
    forall id: Text | id in box.items && box.items[id].Open()
      ensures id in b.items && b.items[id].Open() && b.items[id].key == box.items[id].key
    {
      assert RowOk(rules, box, id);
    }
  }

  lemma EvolveThenPrune(rules: Rules, a: Box, b: Box, now: Time)
    requires Inv(rules, b) && AllEvolve(a, b)
    ensures AllEvolve(a, Prune(rules, b, now))
  {
    hide Signature, Inv, Prune, RowOk;
    var c := Prune(rules, b, now);
    PruneAlike(rules, b, now);
    forall id: Text | id in a.items && id in c.items ensures Evolves(a, c, id) {
      assert Evolves(a, b, id) && Alike(b.items[id], c.items[id]);
      assert Lookup(b.diagnostics, id) == Lookup(c.diagnostics, id);
    }
  }

  lemma CheckedAddsOwn(rules: Rules, box: Box, source: Text, reports: seq<Finding>, now: Time)
    requires rules.Valid() && Inv(rules, box) && Checked(rules, box, source, reports, now).Ok?
    ensures var b := Checked(rules, box, source, reports, now).value.box;
      forall id: Text :: id in b.items && b.items[id].source != source ==> id in box.items
  {
    hide Inv, Staged, StageOk, AllEvolve, Same, RowOk, Keys, Shows;
    StagedAddsOwn(rules, box, source, reports, now);
  }

  lemma {:induction false} StagedAddsOwn(rules: Rules, box: Box, source: Text, reports: seq<Finding>, now: Time)
    requires rules.Valid() && Inv(rules, box) && Staged(rules, box, source, reports, now).Ok?
    ensures var b := Staged(rules, box, source, reports, now).value.box;
      Inv(rules, b) && forall id: Text :: id in b.items && b.items[id].source != source ==> id in box.items
  {
    hide Inv, Publish, AllEvolve, RowOk;
    if reports != [] {
      var earlier, f := reports[..|reports| - 1], reports[|reports| - 1];
      StagedAddsOwn(rules, box, source, earlier, now);
      var b := Staged(rules, box, source, earlier, now).value.box;
      PublishKeeps(rules, b, source, f, now);
      PublishContent(rules, b, source, f, now);
      var c := Publish(rules, b, source, f, now).value.box;
      forall id: Text | id in c.items && c.items[id].source != source ensures id in box.items {
        PublishOthers(rules, b, source, f, now, id);
      }
    }
  }

  // ---------- nothing new ----------

  lemma GoneIsUnreported(rules: Rules, box: Box, stage: Stage, source: Text, reports: seq<Finding>)
    requires Inv(rules, box) && StageOk(rules, box, stage, source, reports)
    ensures Gone(stage.box, source, stage.seen) == {} <==> OpenKeys(box, source) <= Keys(reports)
  {
    hide Keys, Signature, Evolves, AllShown, StageQuiet;
    forall id: Text | id in Gone(stage.box, source, stage.seen)
      ensures stage.box.items[id].key in OpenKeys(box, source)
    {
      GoneUntouched(rules, box, stage, source, reports, id);
    }
    forall id: Text | id in box.items && box.items[id].source == source && box.items[id].Open()
      ensures box.items[id].key in stage.seen || id in Gone(stage.box, source, stage.seen)
    {
      RowOf(rules, box, id);
      if box.items[id].key !in stage.seen {
        NotTouched(source, box.items[id].key, stage.seen);
        assert Same(box, stage.box, id);
      }
    }
  }

  ghost predicate RevisionsKept(a: Box, b: Box) {
    forall id: Text {:trigger b.items[id]} :: id in a.items ==>
      id in b.items && b.items[id].revision == a.items[id].revision
  }

  lemma MatchedKeepRevisions(rules: Rules, box: Box, stage: Stage, source: Text, reports: seq<Finding>)
    requires Inv(rules, box) && StageOk(rules, box, stage, source, reports) && AllMatch(rules, box, source, reports)
    ensures RevisionsKept(box, stage.box)
  {
    hide Keys, Signature, Inv, RowOk, StageQuiet;
    forall id: Text | id in box.items
      ensures id in stage.box.items && stage.box.items[id].revision == box.items[id].revision
    {
      if Touched(id, source, stage.seen) {
        var k: Text :| k in stage.seen && id == Id(source, k);
        var f := OfKey(reports, k);
        assert Shows(rules, stage.box, source, f) && KnownAt(stage.box, source, f) && Matches(rules, box, source, f);
        assert Evolves(box, stage.box, id);
      } else {
        assert Same(box, stage.box, id);
      }
    }
  }

  // There is nothing to write exactly when every finding has the fingerprint of its
  // open row and no open row is missing. Then no revision rises and nobody is told,
  // after a restart as well.
  lemma UnchangedReportIsSilent(rules: Rules, box: Box, source: Text, reports: seq<Finding>, now: Time)
    requires rules.Valid() && Inv(rules, box) && Checked(rules, box, source, reports, now).Ok?
    ensures var s := Checked(rules, box, source, reports, now).value;
      && (!s.dirty <==> AllMatch(rules, box, source, reports) && OpenKeys(box, source) <= Keys(reports))
      && (!s.dirty ==> s.notify == [] && RevisionsKept(box, s.box))
  {
    hide Inv, Staged, StageOk, AllMatch, Keys, OpenKeys, RevisionsKept, ResolveAbsent, AllEvolve, Gone;
    var stage := Staged(rules, box, source, reports, now).value;
    StagedIsOk(rules, box, source, reports, now);
    StageFacts(rules, box, stage, source, reports);
    GoneIsUnreported(rules, box, stage, source, reports);
    if Gone(stage.box, source, stage.seen) == {} { NothingGone(stage.box, source, stage.seen, now); }
    if AllMatch(rules, box, source, reports) { MatchedKeepRevisions(rules, box, stage, source, reports); }
  }
}
