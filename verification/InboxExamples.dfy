/** Runs in which a revision is worth less than one might think. */
module InboxExamples {
  import opened Prelude
  import opened Unicode
  import opened Encoding
  import opened Findings
  import opened InboxTable
  import opened InboxInvariants
  import opened InboxLoading
  import opened InboxRuns

  const SOURCE: Text := [0x73]
  const KEY: Text := [0x6B]
  const PLAIN: Rules := Rules(map[SOURCE := map[]], (text: Text, limit: nat) => text)
  const EMPTY: Box := Box(map[], map[], map[])
  const ID: Text := Id(SOURCE, KEY)

  function Titled(title: Text, diagnostic: Option<Text>): Finding {
    Finding(KEY, title, [], [], Now, Notice, [], diagnostic)
  }

  lemma Begin(rules: Rules)
    ensures IsRun(rules, Run([EMPTY], [[]], []))
  {
    var now: Time := 1.0;
    assert Load(rules, [], now).items == map[];
    assert EMPTY == Load(rules, [], now);
    assert Started(rules, EMPTY, []);
  }

  lemma Extend(rules: Rules, run: Run, step: Step, next: File) returns (longer: Run)
    requires IsRun(rules, run) && |run.states| == |run.files| == |run.steps| + 1
    requires var n := |run.steps|; Filed(rules, run.states[n], run.files[n], step, next)
    ensures longer.states == run.states + [After(rules, run.states[|run.steps|], step)]
    ensures longer.files == run.files + [next] && longer.steps == run.steps + [step]
    ensures IsRun(rules, longer)
  {
    hide After, Filed, Load;
    longer := Run(run.states + [After(rules, run.states[|run.steps|], step)], run.files + [next], run.steps + [step]);
    assert Before(longer) == run;
  }

  // The file of an inbox with this one row.
  function FileOf(box: Box): File
    requires ID in box.items
  {
    [Some(Written(box.items[ID]))]
  }

  lemma OneSaved(rules: Rules, box: Box)
    requires Inv(rules, box) && box.items.Keys == {ID}
    ensures Saved(box, FileOf(box))
  {
    assert RowOk(rules, box, ID);
    assert |box.items| == |box.items.Keys| == 1;
  }

  lemma StepFiled(rules: Rules, box: Box, file: File, step: Step)
    requires rules.Valid() && Inv(rules, box) && Changes(rules, box, step)
    requires After(rules, box, step).items.Keys == {ID}
    ensures Inv(rules, After(rules, box, step))
    ensures Filed(rules, box, file, step, FileOf(After(rules, box, step)))
  {
    hide After, Inv, Saved, Publish, Resolve, Checked, Operate;
    StepKeeps(rules, box, step);
    OneSaved(rules, After(rules, box, step));
  }

  // ---------- a row that was dropped ----------

  lemma PublishedOnce(title: Text, diagnostic: Option<Text>, now: Time)
    requires title != [] && (diagnostic.Some? ==> diagnostic.value == [])
    ensures var b := After(PLAIN, EMPTY, Publishing(SOURCE, Titled(title, diagnostic), now));
      && b.items.Keys == {ID} && Current(b, ID, 1) && b.items[ID].source == SOURCE
      && Content(b, ID) == Titled(title, diagnostic) && Known(b, ID)
    ensures Changes(PLAIN, EMPTY, Publishing(SOURCE, Titled(title, diagnostic), now))
  {
    hide Signature;
    var f := Titled(title, diagnostic);
    assert ValidKey(KEY) && Cleaned(PLAIN, f) == f;
    assert Refusal(PLAIN, EMPTY, SOURCE, f).None?;
  }

  lemma ResolvedAlone(rules: Rules, box: Box, id: Text)
    requires Inv(rules, box) && box.items.Keys == {id} && box.items[id].Open()
    ensures var b := After(rules, box, Resolving(id, 2.0));
      b.items.Keys == {id} && b.items[id].resolved == 2.0 && b.diagnostics == map[] && b.analysis == map[]
  {
    hide Signature, Content, Known;
    assert RowOk(rules, box, id);
  }

  lemma DroppedAfterAWeek(rules: Rules, box: Box, id: Text)
    requires Inv(rules, box) && box.items.Keys == {id} && box.items[id].Open()
    ensures After(rules, After(rules, box, Resolving(id, 2.0)), Listing(700000.0)) == EMPTY
    ensures Changes(rules, box, Resolving(id, 2.0))
  {
    ResolvedAlone(rules, box, id);
    hide Signature, Recent, Inv, Resolve;
    var b := After(rules, box, Resolving(id, 2.0));
    assert !Kept(rules, b.items[id], 700000.0);
  }

  // Resolved for more than a week, a row is dropped, and revisions begin anew.
  lemma RevisionsRestart() returns (run: Run)
    ensures IsRun(PLAIN, run) && |run.states| == 5 && OneSession(run, 1, 4)
    ensures Current(run.states[1], ID, 1) && Current(run.states[4], ID, 1)
    ensures Content(run.states[1], ID) != Content(run.states[4], ID)
  {
    hide After, Inv, Content, IsRun, Filed, Known, Changes, Saved, FileOf;
    PublishedOnce([0x41], None, 1.0);
    PublishedOnce([0x42], None, 700000.0);
    var first := FirstPublished(PLAIN, Titled([0x41], None));
    var dropped := Dropped(PLAIN, first);
    var again := Publishing(SOURCE, Titled([0x42], None), 700000.0);
    EmptyInv(PLAIN);
    StepFiled(PLAIN, EMPTY, dropped.files[3], again);
    run := Extend(PLAIN, dropped, again, FileOf(After(PLAIN, EMPTY, again)));
    assert run.states[1] == dropped.states[1] == first.states[1];
    assert run.steps[1] == dropped.steps[1] && run.steps[2] == dropped.steps[2];
  }

  lemma Dropped(rules: Rules, run: Run) returns (longer: Run)
    requires rules.Valid() && IsRun(rules, run) && |run.states| == |run.files| == |run.steps| + 1 == 2
    requires Inv(rules, run.states[1]) && run.states[1].items.Keys == {ID} && run.states[1].items[ID].Open()
    ensures IsRun(rules, longer) && |longer.states| == |longer.files| == |longer.steps| + 1 == 4
    ensures longer.states[..2] == run.states && longer.states[3] == EMPTY
    ensures longer.steps[1].Resolving? && longer.steps[2].Listing?
  {
    hide After, Inv, IsRun, Filed, Changes, Saved, FileOf;
    var box := run.states[1];
    DroppedAfterAWeek(rules, box, ID);
    ResolvedAlone(rules, box, ID);
    StepFiled(rules, box, run.files[1], Resolving(ID, 2.0));
    var resolved := Extend(rules, run, Resolving(ID, 2.0), FileOf(After(rules, box, Resolving(ID, 2.0))));
    ListingFiled(rules, resolved.states[2], resolved.files[2], 700000.0);
    longer := Extend(rules, resolved, Listing(700000.0), resolved.files[2]);
  }

  lemma EmptyInv(rules: Rules)
    ensures Inv(rules, EMPTY)
  { }

  lemma ListingFiled(rules: Rules, box: Box, file: File, now: Time)
    ensures Filed(rules, box, file, Listing(now), file)
  { }

  // A run that publishes one finding into an empty inbox and saves it.
  lemma FirstPublished(rules: Rules, f: Finding) returns (run: Run)
    requires rules.Valid() && Changes(rules, EMPTY, Publishing(SOURCE, f, 1.0))
    requires After(rules, EMPTY, Publishing(SOURCE, f, 1.0)).items.Keys == {ID}
    ensures var box := After(rules, EMPTY, Publishing(SOURCE, f, 1.0));
      Inv(rules, box) && run == Run([EMPTY, box], [[], FileOf(box)], [Publishing(SOURCE, f, 1.0)])
    ensures IsRun(rules, run)
  {
    hide After, Inv, IsRun, Filed, Changes;
    Begin(rules);
    EmptyInv(rules);
    StepFiled(rules, EMPTY, [], Publishing(SOURCE, f, 1.0));
    run := Extend(rules, Run([EMPTY], [[]], []), Publishing(SOURCE, f, 1.0),
                  FileOf(After(rules, EMPTY, Publishing(SOURCE, f, 1.0))));
  }

  // ---------- a restart ----------

  lemma ReloadedOnce(rules: Rules, box: Box)
    requires box.items.Keys == {ID} && Current(box, ID, 1) && Inv(rules, box) && box.items[ID].source == SOURCE
    requires box.items[ID].firstSeen >= 0.0 && box.items[ID].updated >= 0.0 && box.items[ID].snoozedUntil >= 0.0
    ensures var b := Load(rules, FileOf(box), 2.0);
      && b.items.Keys == {ID} && Current(b, ID, 1) && b.diagnostics == map[]
      && Reloaded(rules, box.items[ID], b.items[ID])
  {
    hide Recent, Reloaded, LoadRow, LoadRows, Inv;
    var row := OneLoaded(rules, box);
    PrunedReloads(rules, box.items[ID], row, Load(rules, FileOf(box), 2.0).items[ID]);
  }

  lemma OneLoaded(rules: Rules, box: Box) returns (row: Row)
    requires box.items.Keys == {ID} && Current(box, ID, 1) && Inv(rules, box) && box.items[ID].source == SOURCE
    requires box.items[ID].firstSeen >= 0.0 && box.items[ID].updated >= 0.0 && box.items[ID].snoozedUntil >= 0.0
    ensures |FileOf(box)| == 1 && LoadRows(rules, FileOf(box), 2.0) == map[ID := row]
    ensures Reloaded(rules, box.items[ID], row) && row.Open() && row.revision == 1 && row.source == SOURCE
    ensures SOURCE in rules.registrations
  {
    hide Reloaded, LoadRow;
    assert RowOk(rules, box, ID);
    RowReloads(rules, box.items[ID], 2.0);
    RowLoads(rules, box.items[ID], 2.0);
    row := LoadRow(rules, Written(box.items[ID]), 2.0).value;
    assert FileOf(box)[..0] == [] && LoadRows(rules, [], 2.0) == map[];
    ReloadedOpen(rules, box.items[ID], row);
  }

  lemma ReloadedOpen(rules: Rules, was: Row, row: Row)
    requires Reloaded(rules, was, row)
    ensures row.resolved == was.resolved && row.revision == was.revision && row.source == was.source
  { }

  lemma RowLoads(rules: Rules, row: Row, now: real)
    requires row.source in rules.registrations && ValidKey(row.key)
    requires row.revision <= COUNTER_MAX && row.recurrence <= COUNTER_MAX && row.Open()
    requires row.firstSeen >= 0.0 && row.updated >= 0.0 && row.snoozedUntil >= 0.0
    ensures LoadRow(rules, Written(row), now).Some?
  {
    hide Dedup, Retained, Remembered, LastOnes, ValidKey;
  }

  // Then the service is started again.
  lemma Restarted(rules: Rules, run: Run) returns (longer: Run)
    requires IsRun(rules, run) && |run.states| == |run.files| == |run.steps| + 1 == 2
    ensures IsRun(rules, longer)
    ensures longer.states == run.states + [Load(rules, run.files[1], 2.0)]
    ensures longer.files == run.files + [run.files[1]] && longer.steps == run.steps + [Restarting(run.files[1], 2.0)]
  {
    hide Load, Publish, Checked, IsRun;
    longer := Extend(rules, run, Restarting(run.files[1], 2.0), run.files[1]);
  }

  lemma PublishedRow(rules: Rules, f: Finding, now: Time)
    requires SOURCE in rules.registrations && f.key == KEY && f.actions == []
    requires Cleaned(rules, f).title != [] && (f.diagnostic.Some? ==> f.diagnostic.value == [])
    ensures var step := Publishing(SOURCE, f, now); var b := After(rules, EMPTY, step);
      && Changes(rules, EMPTY, step) && b.items.Keys == {ID} && Current(b, ID, 1) && b.items[ID].source == SOURCE
      && b.items[ID].fingerprint == Signature(Cleaned(rules, f)) && Content(b, ID) == Cleaned(rules, f)
      && b.items[ID].firstSeen >= 0.0 && b.items[ID].updated >= 0.0 && b.items[ID].snoozedUntil >= 0.0
  {
    hide Signature;
    assert ValidKey(KEY);
    assert Refusal(rules, EMPTY, SOURCE, f).None?;
  }

  lemma ShownAgain(box: Box, title: Text, now: Time)
    requires Inv(PLAIN, box) && box.items.Keys == {ID} && Current(box, ID, 1) && box.diagnostics == map[] && title != []
    requires box.items[ID].fingerprint == Signature(Titled(title, Some([])))
    ensures var step := Publishing(SOURCE, Titled(title, Some([])), now); var b := After(PLAIN, box, step);
      && !Known(box, ID) && Current(b, ID, 1) && Known(b, ID) && Content(box, ID) != Content(b, ID)
      && !Changes(PLAIN, box, step)
  {
    hide Signature;
    var f := Titled(title, Some([]));
    assert ValidKey(KEY) && Cleaned(PLAIN, f) == f;
    assert Refusal(PLAIN, box, SOURCE, f).None?;
    assert RowOk(PLAIN, box, ID);
    SignatureTellsContent(f, Content(box, ID));
    PublishContent(PLAIN, box, SOURCE, f, now);
  }

  ghost predicate Shown(box: Box, known: bool) { Current(box, ID, 1) && (Known(box, ID) <==> known) }

  // Diagnostics are never written. After a restart the same report brings one back
  // without a new revision: at one revision the row said more, less and more again.
  lemma RestartShowsLess() returns (run: Run)
    ensures IsRun(PLAIN, run) && |run.states| == 4 && run.steps[1].Restarting?
    ensures run.steps[0].Publishing? && run.steps[2].Publishing? && run.steps[0].finding == run.steps[2].finding
    ensures Shown(run.states[1], true) && Shown(run.states[2], false) && Shown(run.states[3], true)
    ensures Content(run.states[1], ID) != Content(run.states[2], ID)
    ensures Content(run.states[2], ID) != Content(run.states[3], ID)
  {
    hide After, Inv, IsRun, Load, Signature, Changes;
    var f := Titled([0x41], Some([]));
    assert Cleaned(PLAIN, f) == f;
    PublishedRow(PLAIN, f, 1.0);
    run := FirstPublished(PLAIN, f);
    ReloadedOnce(PLAIN, run.states[1]);
    run := Restarted(PLAIN, run);
    LoadInv(PLAIN, run.files[1], 2.0);
    ShownAgain(run.states[2], [0x41], 3.0);
    run := Extend(PLAIN, run, Publishing(SOURCE, f, 3.0), run.files[2]);
  }

  // ---------- a title that is cleaned twice ----------

  const INVISIBLE: Scalar := 0x200B
  const FIELD: Text := Ascii("to") + Ascii("ken=x")
  const MASKED: Text := Ascii("token=[REDACTED]")
  const SPLIT: Text := Ascii("to") + [INVISIBLE] + Ascii("ken=x")

  function Visible(t: Text): Text {
    if t == [] then [] else (if t[0] == INVISIBLE then [] else [t[0]]) + Visible(t[1..])
  }

  // A cleaning in two steps: what has the form of a field is masked, and then what
  // cannot be seen is dropped. What is split by it has the form only afterwards.
  const MASKING: Rules := Rules(map[SOURCE := map[]],
                                (text: Text, limit: nat) => Visible(if text == FIELD then MASKED else text))

  lemma {:induction false} VisiblePlain(t: Text)
    requires forall c :: c in t ==> c != INVISIBLE
    ensures Visible(t) == t
  {
    if t != [] {
      assert forall c :: c in t[1..] ==> c in t;
      VisiblePlain(t[1..]);
      assert t[0] in t && t == [t[0]] + t[1..];
    }
  }

  lemma {:induction false} VisibleJoined(s: Text, t: Text)
    ensures Visible(s + t) == Visible(s) + Visible(t)
  {
    if s == [] {
      assert s + t == t;
    } else {
      assert (s + t)[1..] == s[1..] + t;
      VisibleJoined(s[1..], t);
    }
  }

  lemma AsciiVisible(s: string)
    ensures Visible(Ascii(s)) == Ascii(s)
  {
    forall c | c in Ascii(s) ensures c != INVISIBLE { }
    VisiblePlain(Ascii(s));
  }

  lemma SplitVisible(s: string, t: string)
    ensures Visible(Ascii(s) + [INVISIBLE] + Ascii(t)) == Ascii(s) + Ascii(t)
  {
    AsciiVisible(s);
    AsciiVisible(t);
    VisibleJoined(Ascii(s) + [INVISIBLE], Ascii(t));
    VisibleJoined(Ascii(s), [INVISIBLE]);
    assert [INVISIBLE][1..] == [];
  }

  lemma SplitCleaned()
    ensures MASKING.clean(SPLIT, 160) == FIELD && MASKING.clean(FIELD, 160) == MASKED && FIELD != MASKED
    ensures |FIELD| == 7
  {
    hide Visible;
    SplitVisible("to", "ken=x");
    AsciiVisible("token=[REDACTED]");
    assert |SPLIT| == 8 && |FIELD| == 7 && |MASKED| == 16;
  }

  // Published, the title is cleaned once; loaded, it is cleaned again. The row says
  // something else at the same revision, and was genuine but not fixed.
  lemma RestartCleansAgain() returns (run: Run)
    ensures MASKING.Valid() && IsRun(MASKING, run) && |run.states| == 3
    ensures run.steps[0].Publishing? && run.steps[1].Restarting?
    ensures Current(run.states[1], ID, 1) && Current(run.states[2], ID, 1)
    ensures run.states[1].items[ID].title == FIELD && run.states[2].items[ID].title == MASKED
    ensures Genuine(run.states[1].items[ID]) && !Fixed(MASKING, run.states[1].items[ID])
    ensures !Genuine(run.states[2].items[ID])
  {
    hide After, Inv, IsRun, Load, Signature, Changes, Visible;
    var f := Titled(SPLIT, None);
    SplitCleaned();
    PublishedRow(MASKING, f, 1.0);
    run := FirstPublished(MASKING, f);
    var box := run.states[1];
    assert Says(box.items[ID], None) == Cleaned(MASKING, f) == Cleaned(MASKING, f).(diagnostic := None);
    ReloadedOnce(MASKING, box);
    run := Restarted(MASKING, run);
    GenuineFields(box.items[ID], run.states[2].items[ID]);
  }
}
