/** Runs of the inbox: every mix of reports, requests, finished actions and restarts. */
module InboxRuns {
  import opened Prelude
  import opened Encoding
  import opened Findings
  import opened InboxTable
  import opened InboxInvariants
  import opened InboxTransactions
  import opened InboxLoading

  datatype Step =
    | Publishing(source: Text, finding: Finding, now: Time)
    | Resolving(id: Text, now: Time)
    | Checking(source: Text, reports: seq<Finding>, now: Time)
    | Operating(id: Text, revision: nat, op: Operation, now: Time)
    | Finishing(id: Text, outcome: Outcome, now: Time)
    | Marking(id: Text, busy: Text)
    | Analyzing(id: Text, analysis: Analysis, now: Time, fits: bool)
    | Listing(now: Time)
    | Restarting(file: File, now: Time)
    | Refused

  // What a step leaves. A request may be refused and writing the state may fail,
  // which leaves the inbox as it was. Listing is also what a save does to the inbox.
  function After(rules: Rules, box: Box, step: Step): Box {
    match step
    case Publishing(source, finding, now) =>
      (match Publish(rules, box, source, finding, now)
       case Err(_) => box
       case Ok(p) => Commit(rules, p.box, now, p.changed))
    case Resolving(id, now) => Commit(rules, Resolve(box, id, now), now, Resolve(box, id, now) != box)
    case Checking(source, reports, now) =>
      (match Checked(rules, box, source, reports, now)
       case Err(_) => box
       case Ok(s) => Commit(rules, s.box, now, s.dirty))
    case Operating(id, revision, op, now) =>
      (match Operate(box, id, revision, op, now)
       case Err(_) => box
       case Ok(b) => Prune(rules, b, now))
    case Finishing(id, outcome, now) => Prune(rules, Report(box, id, outcome), now)
    case Marking(id, busy) => Mark(box, id, busy)
    case Analyzing(id, analysis, now, fits) => Analyzed(rules, box, id, analysis, now, fits)
    case Listing(now) => Prune(rules, box, now)
    case Restarting(file, now) => Load(rules, file, now)
    case Refused => box
  }

  // An analysis that makes the snapshot too large is taken out again.
  function Analyzed(rules: Rules, box: Box, id: Text, analysis: Analysis, now: real, fits: bool): Box {
    if id !in box.items || !box.items[id].Open() then box
    else
      var b := Prune(rules, Analyze(box, id, analysis), now);
      if fits then b else b.(analysis := b.analysis - {id})
  }

  // The step changes what is to be written, and is refused unless that succeeds.
  predicate Changes(rules: Rules, box: Box, step: Step) {
    match step
    case Publishing(source, finding, now) =>
      var p := Publish(rules, box, source, finding, now);
      p.Ok? && p.value.changed
    case Resolving(id, now) => Resolve(box, id, now) != box
    case Checking(source, reports, now) =>
      var s := Checked(rules, box, source, reports, now);
      s.Ok? && s.value.dirty
    case Operating(id, revision, op, now) => Operate(box, id, revision, op, now).Ok?
    case _ => false
  }

  /**
   The file after a step. A save may fail: an outcome is then in memory alone. What
   is listed or marked is not saved at all, and expired rows are dropped from memory
   first. A save that reports a failure may have replaced the file all the same; then
   the file is one step ahead.
   */
  ghost predicate Filed(rules: Rules, box: Box, file: File, step: Step, next: File) {
    if Changes(rules, box, step) then Saved(After(rules, box, step), next)
    else match step
      case Finishing(_, _, _) => next == file || Saved(After(rules, box, step), next)
      case Listing(_) => next == file || Saved(After(rules, box, step), next)
      case Restarting(found, _) => found == file && next == file
      case Refused => next == file || exists attempt: Step :: Attempted(rules, box, attempt, next)
      case _ => next == file
  }

  ghost predicate Attempted(rules: Rules, box: Box, attempt: Step, next: File) {
    !attempt.Restarting? && Saved(After(rules, box, attempt), next)
  }

  // A run goes through inboxes, and through files that stand beside them.
  datatype Run = Run(states: seq<Box>, files: seq<File>, steps: seq<Step>)

  ghost predicate Started(rules: Rules, box: Box, file: File) { exists now: Time :: box == Load(rules, file, now) }

  // A run begins with a start from any file.
  ghost predicate IsRun(rules: Rules, run: Run)
    decreases |run.steps|
  {
    var n := |run.steps|;
    && |run.states| == |run.files| == n + 1
    && if n == 0 then Started(rules, run.states[0], run.files[0])
       else
         && IsRun(rules, Before(run))
         && run.states[n] == After(rules, run.states[n - 1], run.steps[n - 1])
         && Filed(rules, run.states[n - 1], run.files[n - 1], run.steps[n - 1], run.files[n])
  }

  ghost function Before(run: Run): Run
    requires 0 < |run.steps| && |run.states| == |run.files| == |run.steps| + 1
  {
    var n := |run.steps|;
    Run(run.states[..n], run.files[..n], run.steps[..n - 1])
  }

  lemma CommitKeeps(rules: Rules, a: Box, b: Box, now: Time, dirty: bool)
    requires Inv(rules, b) && AllEvolve(a, b)
    ensures Inv(rules, Commit(rules, b, now, dirty)) && AllEvolve(a, Commit(rules, b, now, dirty))
  {
    hide Inv, AllEvolve, Prune;
    if dirty {
      PruneKeeps(rules, b, now);
      EvolveThenPrune(rules, a, b, now);
    }
  }

  lemma StaysSame(box: Box)
    ensures AllEvolve(box, box)
  { }

  lemma StepKeeps(rules: Rules, box: Box, step: Step)
    requires rules.Valid() && Inv(rules, box) && !step.Restarting?
    ensures Inv(rules, After(rules, box, step)) && AllEvolve(box, After(rules, box, step))
  {
    hide Inv, AllEvolve, Prune, Commit, Publish, Checked, Operate, Resolve, Report, Mark, Analyzed;
    StaysSame(box);
    match step
    case Publishing(source, finding, now) =>
      if Publish(rules, box, source, finding, now).Ok? {
        var p := Publish(rules, box, source, finding, now).value;
        PublishKeeps(rules, box, source, finding, now);
        CommitKeeps(rules, box, p.box, now, p.changed);
      }
    case Resolving(id, now) =>
      ResolveKeeps(rules, box, id, now);
      CommitKeeps(rules, box, Resolve(box, id, now), now, Resolve(box, id, now) != box);
    case Checking(source, reports, now) =>
      if Checked(rules, box, source, reports, now).Ok? { CheckTransaction(rules, box, source, reports, now); }
    case Operating(id, revision, op, now) =>
      if Operate(box, id, revision, op, now).Ok? {
        OperateKeeps(rules, box, id, revision, op, now);
        PruneAfter(rules, box, Operate(box, id, revision, op, now).value, now);
      }
    case Finishing(id, outcome, now) =>
      ReportKeeps(rules, box, id, outcome);
      PruneAfter(rules, box, Report(box, id, outcome), now);
    case Marking(id, busy) => MarkKeeps(rules, box, id, busy);
    case Analyzing(id, analysis, now, fits) => AnalyzedKeeps(rules, box, id, analysis, now, fits);
    case Listing(now) => PruneKeeps(rules, box, now);
    case Refused =>
  }

  lemma PruneAfter(rules: Rules, a: Box, b: Box, now: Time)
    requires Inv(rules, b) && AllEvolve(a, b)
    ensures Inv(rules, Prune(rules, b, now)) && AllEvolve(a, Prune(rules, b, now))
  {
    PruneKeeps(rules, b, now);
    EvolveThenPrune(rules, a, b, now);
  }

  lemma AnalyzedKeeps(rules: Rules, box: Box, id: Text, analysis: Analysis, now: Time, fits: bool)
    requires Inv(rules, box)
    ensures Inv(rules, Analyzed(rules, box, id, analysis, now, fits))
    ensures AllEvolve(box, Analyzed(rules, box, id, analysis, now, fits))
  {
    hide RowOk, Evolves, Signature;
    AnalyzeKeeps(rules, box, id, analysis);
    var b := Prune(rules, Analyze(box, id, analysis), now);
    PruneAfter(rules, box, Analyze(box, id, analysis), now);
    WithoutAnalysis(rules, box, b, id);
  }

  lemma WithoutAnalysis(rules: Rules, a: Box, b: Box, id: Text)
    requires Inv(rules, b) && AllEvolve(a, b)
    ensures Inv(rules, b.(analysis := b.analysis - {id})) && AllEvolve(a, b.(analysis := b.analysis - {id}))
  { }

  lemma EvolvedCount(a: Box, b: Box)
    requires AllEvolve(a, b)
    ensures AllCounted(a, b)
  {
    forall id: Text | id in a.items && id in b.items ensures Counted(a, b, id) { assert Evolves(a, b, id); }
  }

  // ---------- steps that change less ----------

  // Neither fields nor fingerprints change.
  ghost predicate FieldsKept(a: Box, b: Box) {
    forall id: Text {:trigger b.items[id]} :: id in b.items ==>
      && id in a.items && Says(b.items[id], None) == Says(a.items[id], None)
      && b.items[id].fingerprint == a.items[id].fingerprint
  }

  ghost predicate Quiet(a: Box, b: Box) { FieldsKept(a, b) && Uncounted(a, b) }

  lemma PruneQuiet(rules: Rules, box: Box, now: real)
    ensures Quiet(box, Prune(rules, box, now))
  { }

  lemma QuietThenPrune(rules: Rules, a: Box, b: Box, now: real)
    requires Quiet(a, b)
    ensures Quiet(a, Prune(rules, b, now))
  {
    hide Prune;
    PruneQuiet(rules, b, now);
    forall id: Text | id in Prune(rules, b, now).items ensures id in a.items { assert id in b.items; }
  }

  lemma ReportQuiet(box: Box, id: Text, outcome: Outcome)
    ensures Quiet(box, Report(box, id, outcome))
  { }

  lemma MarkQuiet(box: Box, id: Text, busy: Text)
    ensures Quiet(box, Mark(box, id, busy))
  { }

  lemma AnalyzeQuiet(rules: Rules, box: Box, id: Text, analysis: Analysis, now: real, fits: bool)
    ensures Quiet(box, Analyzed(rules, box, id, analysis, now, fits))
  {
    hide Prune;
    PruneQuiet(rules, Analyze(box, id, analysis), now);
  }

  lemma NothingQuiet(box: Box)
    ensures Quiet(box, box)
  { }

  lemma StepQuiet(rules: Rules, box: Box, step: Step)
    requires step.Finishing? || step.Marking? || step.Analyzing? || step.Listing? || step.Refused?
    ensures Quiet(box, After(rules, box, step))
  {
    hide Quiet, Prune, Report, Mark, Analyzed;
    NothingQuiet(box);
    match step
    case Finishing(id, outcome, now) =>
      ReportQuiet(box, id, outcome);
      QuietThenPrune(rules, box, Report(box, id, outcome), now);
    case Marking(id, busy) => MarkQuiet(box, id, busy);
    case Analyzing(id, analysis, now, fits) => AnalyzeQuiet(rules, box, id, analysis, now, fits);
    case Listing(now) => PruneQuiet(rules, box, now);
    case Refused =>
  }

  lemma PublishUncounted(rules: Rules, box: Box, source: Text, finding: Finding, now: real)
    requires rules.Valid() && Inv(rules, box) && Publish(rules, box, source, finding, now).Ok?
    requires !Publish(rules, box, source, finding, now).value.changed
    ensures Uncounted(box, Publish(rules, box, source, finding, now).value.box)
  {
    hide Publish, Inv, RowOk, Content, Signature;
    var p := Publish(rules, box, source, finding, now).value;
    var own := Id(source, finding.key);
    PublishOne(rules, box, source, finding, now);
    PublishContent(rules, box, source, finding, now);
    forall id: Text | id in p.box.items
      ensures id in box.items && p.box.items[id].fingerprint == box.items[id].fingerprint
      ensures p.box.items[id].revision == box.items[id].revision
      ensures p.box.items[id].recurrence == box.items[id].recurrence
      ensures p.box.items[id].resolved == box.items[id].resolved
    {
      if id != own { PublishOthers(rules, box, source, finding, now, id); }
    }
  }

  lemma UncountedTwice(a: Box, b: Box, c: Box)
    requires Uncounted(a, b) && Uncounted(b, c)
    ensures Uncounted(a, c)
  {
    forall id: Text | id in c.items ensures id in a.items { assert id in b.items; }
  }

  lemma {:induction false} StagedUncounted(rules: Rules, box: Box, source: Text, reports: seq<Finding>, now: real)
    requires rules.Valid() && Inv(rules, box) && Staged(rules, box, source, reports, now).Ok?
    requires !Staged(rules, box, source, reports, now).value.dirty
    ensures var b := Staged(rules, box, source, reports, now).value.box; Inv(rules, b) && Uncounted(box, b)
  {
    hide Publish, Inv, Uncounted, AllEvolve;
    if reports == [] {
      NothingQuiet(box);
    } else {
      var earlier, last := reports[..|reports| - 1], reports[|reports| - 1];
      StagedUncounted(rules, box, source, earlier, now);
      var b := Staged(rules, box, source, earlier, now).value.box;
      PublishUncounted(rules, b, source, last, now);
      PublishKeeps(rules, b, source, last, now);
      UncountedTwice(box, b, Publish(rules, b, source, last, now).value.box);
    }
  }

  // A step that is not saved counts for nothing.
  lemma StepUncounted(rules: Rules, box: Box, step: Step)
    requires rules.Valid() && Inv(rules, box) && !Changes(rules, box, step) && !step.Restarting?
    ensures Uncounted(box, After(rules, box, step))
  {
    hide Inv, Uncounted, FieldsKept, Publish, Staged, Prune, Operate, Resolve, Report, Mark, Analyzed;
    hide ResolveAbsent, Gone;
    NothingQuiet(box);
    match step
    case Publishing(source, finding, now) =>
      if Publish(rules, box, source, finding, now).Ok? { PublishUncounted(rules, box, source, finding, now); }
    case Checking(source, reports, now) =>
      if Checked(rules, box, source, reports, now).Ok? {
        var stage := Staged(rules, box, source, reports, now).value;
        StagedUncounted(rules, box, source, reports, now);
        NothingGone(stage.box, source, stage.seen, now);
      }
    case Resolving(_, _) =>
    case Operating(_, _, _, _) =>
    case _ => StepQuiet(rules, box, step);
  }

  // ---------- every step ----------

  lemma AnyStepKeeps(rules: Rules, box: Box, file: File, step: Step, next: File)
    requires rules.Valid() && Inv(rules, box) && Keeps(rules, box, file) && Filed(rules, box, file, step, next)
    ensures var b := After(rules, box, step); Inv(rules, b) && AllCounted(box, b) && Keeps(rules, b, next)
  {
    hide Inv, Counted, AllCounted, AllEvolve, Load, Publish, Checked, Operate, Resolve, Keeps, Saved;
    var b := After(rules, box, step);
    match step
    case Restarting(_, now) =>
      LoadInv(rules, file, now);
      StartKeeps(rules, file, now);
      assert AllCounted(box, Load(rules, file, now)) by { KeepsAt(rules, box, file, now); }
    case Refused =>
      StaysSame(box);
      EvolvedCount(box, box);
      if next != file {
        var attempt: Step :| Attempted(rules, box, attempt, next);
        StepKeeps(rules, box, attempt);
        EvolvedCount(box, After(rules, box, attempt));
        SavedKeeps(rules, box, After(rules, box, attempt), next);
      }
    case _ =>
      StepKeeps(rules, box, step);
      EvolvedCount(box, b);
      if Saved(b, next) {
        StaysSame(b);
        EvolvedCount(b, b);
        SavedKeeps(rules, b, b, next);
      } else {
        StepUncounted(rules, box, step);
        UncountedKeeps(rules, box, b, file);
      }
  }

  lemma KeepsAt(rules: Rules, box: Box, file: File, now: Time)
    requires Keeps(rules, box, file)
    ensures AllCounted(box, Load(rules, file, now))
  { }

  // Diagnostics and analyses belong to open rows, in every state of every run, and
  // a restart would count as one step at most.
  lemma {:induction false} RunKeeps(rules: Rules, run: Run, i: nat)
    requires rules.Valid() && IsRun(rules, run) && i < |run.states|
    ensures |run.files| == |run.states| && Inv(rules, run.states[i]) && Keeps(rules, run.states[i], run.files[i])
    ensures OnlyOpen(run.states[i], run.states[i].diagnostics) && OnlyOpen(run.states[i], run.states[i].analysis)
    decreases |run.steps|
  {
    hide RowOk, After, Filed, Keeps, Load;
    var n := |run.steps|;
    if n == 0 {
      var now: Time :| run.states[0] == Load(rules, run.files[0], now);
      LoadInv(rules, run.files[0], now);
      StartKeeps(rules, run.files[0], now);
    } else if i < n {
      RunKeeps(rules, Before(run), i);
    } else {
      RunKeeps(rules, Before(run), n - 1);
      AnyStepKeeps(rules, run.states[n - 1], run.files[n - 1], run.steps[n - 1], run.files[n]);
    }
  }

  lemma {:induction false} RunStep(rules: Rules, run: Run, j: nat)
    requires IsRun(rules, run) && j < |run.steps|
    ensures |run.states| == |run.files| == |run.steps| + 1
    ensures run.states[j + 1] == After(rules, run.states[j], run.steps[j])
    ensures Filed(rules, run.states[j], run.files[j], run.steps[j], run.files[j + 1])
    decreases |run.steps|
  {
    hide After, Filed;
    var n := |run.steps|;
    if j < n - 1 { RunStep(rules, Before(run), j); }
  }

  // A row grows older whenever its fingerprint changes, it is resolved or comes back.
  function Age(row: Row): nat { 2 * row.revision + if row.Open() then 0 else 1 }

  ghost predicate Stays(run: Run, i: nat, j: nat, id: Text) {
    i <= j < |run.states| && forall k: nat {:trigger run.states[k]} :: i <= k <= j ==> id in run.states[k].items
  }

  // No younger, and if no older then with the same fingerprint.
  ghost predicate Older(a: Box, b: Box, id: Text)
    requires id in a.items && id in b.items
  {
    var was, row := a.items[id], b.items[id];
    Age(was) <= Age(row) && (Age(was) == Age(row) && was.Open() ==> row.Open() && row.fingerprint == was.fingerprint)
  }

  lemma OlderNext(rules: Rules, run: Run, j: nat, id: Text)
    requires rules.Valid() && IsRun(rules, run) && j < |run.steps| && |run.states| == |run.steps| + 1
    requires id in run.states[j].items && id in run.states[j + 1].items
    ensures Older(run.states[j], run.states[j + 1], id)
  {
    hide Inv, After, IsRun;
    RunKeeps(rules, run, j);
    RunStep(rules, run, j);
    AnyStepKeeps(rules, run.states[j], run.files[j], run.steps[j], run.files[j + 1]);
    assert Counted(run.states[j], run.states[j + 1], id);
  }

  lemma {:induction false} AgesGrow(rules: Rules, run: Run, i: nat, j: nat, id: Text)
    requires rules.Valid() && IsRun(rules, run) && Stays(run, i, j, id)
    ensures id in run.states[i].items && id in run.states[j].items && Older(run.states[i], run.states[j], id)
    decreases j - i
  {
    hide IsRun;
    assert id in run.states[i].items && id in run.states[j].items;
    if i < j {
      assert id in run.states[j - 1].items;
      AgesGrow(rules, run, i, j - 1, id);
      RunLength(rules, run);
      OlderNext(rules, run, j - 1, id);
    }
  }

  lemma RunLength(rules: Rules, run: Run)
    requires IsRun(rules, run)
    ensures |run.states| == |run.steps| + 1
  { }

  ghost predicate OneSession(run: Run, i: nat, j: nat) {
    forall k: nat {:trigger run.steps[k]} :: i <= k < j && k < |run.steps| ==> !run.steps[k].Restarting?
  }

  // While a row stays open at one revision, what it says changes at most once, from
  // unknown to known.
  lemma {:induction false} SaysMore(rules: Rules, run: Run, i: nat, j: nat, id: Text)
    requires rules.Valid() && IsRun(rules, run) && Stays(run, i, j, id) && OneSession(run, i, j)
    requires id in run.states[i].items && id in run.states[j].items && run.states[i].items[id].Open()
    requires Age(run.states[i].items[id]) == Age(run.states[j].items[id])
    ensures Content(run.states[i], id) == Content(run.states[j], id) || Known(run.states[j], id)
    decreases j - i
  {
    hide IsRun, Age, Content, Inv, After, Signature;
    if i < j {
      assert id in run.states[j - 1].items;
      RunLength(rules, run);
      AgesGrow(rules, run, i, j - 1, id);
      OlderNext(rules, run, j - 1, id);
      SaysMore(rules, run, i, j - 1, id);
      RunKeeps(rules, run, j - 1);
      RunStep(rules, run, j - 1);
      assert !run.steps[j - 1].Restarting?;
      StepKeeps(rules, run.states[j - 1], run.steps[j - 1]);
      assert Evolves(run.states[j - 1], run.states[j], id);
    }
  }

  lemma KnownContents(rules: Rules, a: Box, b: Box, id: Text)
    requires rules.Valid() && Inv(rules, a) && Inv(rules, b) && id in a.items && id in b.items
    requires a.items[id].fingerprint == b.items[id].fingerprint && Known(a, id) && Known(b, id)
    ensures Content(a, id) == Content(b, id)
  {
    hide Signature, Inv;
    RowOf(rules, a, id);
    RowOf(rules, b, id);
    IdsDiffer(a.items[id].source, a.items[id].key, b.items[id].source, b.items[id].key);
    SignatureTellsContent(Content(a, id), Content(b, id));
  }

  /**
   What a revision is worth. While the row stays and the service runs, a revision
   that is current at two moments was current in between, with one fingerprint. The
   content is the same exactly when the row was known at both moments or at
   neither; so it is if it was known at the first.
   */
  lemma CurrentMeansUnchanged(rules: Rules, run: Run, i: nat, k: nat, j: nat, id: Text, revision: nat)
    requires rules.Valid() && IsRun(rules, run) && Stays(run, i, j, id) && i <= k <= j && OneSession(run, i, j)
    requires Current(run.states[i], id, revision) && Current(run.states[j], id, revision)
    ensures Current(run.states[k], id, revision)
    ensures run.states[i].items[id].fingerprint == run.states[k].items[id].fingerprint ==
              run.states[j].items[id].fingerprint
    ensures Content(run.states[i], id) == Content(run.states[j], id) <==>
              (Known(run.states[i], id) <==> Known(run.states[j], id))
    ensures Known(run.states[i], id) ==>
              Content(run.states[i], id) == Content(run.states[k], id) == Content(run.states[j], id)
  {
    hide Inv, IsRun, Signature, Content, After;
    assert id in run.states[k].items;
    AgesGrow(rules, run, i, k, id);
    AgesGrow(rules, run, k, j, id);
    SameRevision(rules, run, i, j, id);
    SameRevision(rules, run, i, k, id);
  }

  lemma SameRevision(rules: Rules, run: Run, i: nat, j: nat, id: Text)
    requires rules.Valid() && IsRun(rules, run) && Stays(run, i, j, id) && OneSession(run, i, j)
    requires id in run.states[i].items && id in run.states[j].items && run.states[i].items[id].Open()
    requires Age(run.states[i].items[id]) == Age(run.states[j].items[id])
    ensures Content(run.states[i], id) == Content(run.states[j], id) <==>
              (Known(run.states[i], id) <==> Known(run.states[j], id))
    ensures Known(run.states[i], id) ==> Content(run.states[i], id) == Content(run.states[j], id)
  {
    hide Inv, IsRun, Signature, Content, After, Age;
    AgesGrow(rules, run, i, j, id);
    SaysMore(rules, run, i, j, id);
    RunKeeps(rules, run, i);
    RunKeeps(rules, run, j);
    if Known(run.states[i], id) && Known(run.states[j], id) { KnownContents(rules, run.states[i], run.states[j], id); }
  }

  // ---------- over restarts ----------

  // The fields of a row of this source, and a fingerprint.
  datatype Pin = Pin(source: Text, fields: Finding, code: Code)
  {
    function RowId(): Text { Id(source, fields.key) }
  }

  // The row has these fields whenever it has this fingerprint.
  ghost predicate Holds(box: Box, pin: Pin) {
    var id := pin.RowId();
    id in box.items && box.items[id].fingerprint == pin.code ==> Says(box.items[id], None) == pin.fields
  }

  // So it does after every start from this file.
  ghost predicate HoldsIn(rules: Rules, file: File, pin: Pin) {
    forall now: Time {:trigger Load(rules, file, now)} :: Holds(Load(rules, file, now), pin)
  }

  ghost predicate Signed(rules: Rules, pin: Pin) {
    pin.source in rules.registrations && pin.fields.diagnostic == None && SignedBy(pin.code, pin.fields)
  }

  lemma FieldsHold(a: Box, b: Box, pin: Pin)
    requires Holds(a, pin) && FieldsKept(a, b)
    ensures Holds(b, pin)
  { }

  lemma KnownHolds(rules: Rules, box: Box, pin: Pin)
    requires rules.Valid() && Inv(rules, box) && Signed(rules, pin)
    requires pin.RowId() in box.items && Known(box, pin.RowId())
    ensures Holds(box, pin)
  {
    hide Signature, Inv;
    var row := box.items[pin.RowId()];
    RowOf(rules, box, pin.RowId());
    IdsDiffer(pin.source, pin.fields.key, row.source, row.key);
    var d: Option<Text> :| pin.code == Signature(pin.fields.(diagnostic := d));
    SignatureTellsContent(pin.fields.(diagnostic := d), Content(box, pin.RowId()));
  }

  lemma PublishedHolds(rules: Rules, box: Box, source: Text, finding: Finding, now: real, pin: Pin)
    requires rules.Valid() && Inv(rules, box) && Signed(rules, pin) && Holds(box, pin)
    requires Publish(rules, box, source, finding, now).Ok?
    ensures var b := Publish(rules, box, source, finding, now).value.box; Inv(rules, b) && Holds(b, pin)
  {
    hide Publish, Inv, AllEvolve, Signed, Known, Says;
    var b := Publish(rules, box, source, finding, now).value.box;
    PublishKeeps(rules, box, source, finding, now);
    PublishContent(rules, box, source, finding, now);
    if pin.RowId() == Id(source, finding.key) {
      KnownHolds(rules, b, pin);
    } else {
      PublishOthers(rules, box, source, finding, now, pin.RowId());
    }
  }

  lemma {:induction false} StagedHolds(rules: Rules, box: Box, source: Text, reports: seq<Finding>, now: real, pin: Pin)
    requires rules.Valid() && Inv(rules, box) && Signed(rules, pin) && Holds(box, pin)
    requires Staged(rules, box, source, reports, now).Ok?
    ensures var b := Staged(rules, box, source, reports, now).value.box; Inv(rules, b) && Holds(b, pin)
  {
    hide Publish, Inv, Signed, Holds;
    if reports != [] {
      StagedHolds(rules, box, source, reports[..|reports| - 1], now, pin);
      var b := Staged(rules, box, source, reports[..|reports| - 1], now).value.box;
      PublishedHolds(rules, b, source, reports[|reports| - 1], now, pin);
    }
  }

  lemma PruneHolds(rules: Rules, box: Box, now: real, pin: Pin)
    requires Holds(box, pin)
    ensures Holds(Prune(rules, box, now), pin)
  {
    hide Prune;
    PruneQuiet(rules, box, now);
    FieldsHold(box, Prune(rules, box, now), pin);
  }

  lemma ResolveFields(box: Box, id: Text, now: real)
    ensures FieldsKept(box, Resolve(box, id, now))
  { }

  lemma AbsentFields(box: Box, source: Text, seen: set<Text>, now: real)
    ensures FieldsKept(box, ResolveAbsent(box, source, seen, now))
  { }

  lemma OperateFields(box: Box, id: Text, op: Operation, revision: nat, now: real)
    requires Operate(box, id, revision, op, now).Ok?
    ensures FieldsKept(box, Operate(box, id, revision, op, now).value)
  {
    hide Resolve;
    ResolveFields(box, id, now);
  }

  lemma StepHolds(rules: Rules, box: Box, step: Step, pin: Pin)
    requires rules.Valid() && Inv(rules, box) && !step.Restarting? && Signed(rules, pin) && Holds(box, pin)
    ensures Holds(After(rules, box, step), pin)
  {
    hide Inv, Signed, Holds, FieldsKept, Publish, Staged, Prune, Operate, Resolve, Report, Mark, Analyzed;
    hide ResolveAbsent;
    match step
    case Publishing(source, finding, now) =>
      if Publish(rules, box, source, finding, now).Ok? {
        PublishedHolds(rules, box, source, finding, now, pin);
        PruneHolds(rules, Publish(rules, box, source, finding, now).value.box, now, pin);
      }
    case Checking(source, reports, now) =>
      if Checked(rules, box, source, reports, now).Ok? {
        var stage := Staged(rules, box, source, reports, now).value;
        var b := ResolveAbsent(stage.box, source, stage.seen, now);
        StagedHolds(rules, box, source, reports, now, pin);
        AbsentFields(stage.box, source, stage.seen, now);
        FieldsHold(stage.box, b, pin);
        PruneHolds(rules, b, now, pin);
      }
    case Resolving(id, now) =>
      ResolveFields(box, id, now);
      FieldsHold(box, Resolve(box, id, now), pin);
      PruneHolds(rules, Resolve(box, id, now), now, pin);
    case Operating(id, revision, op, now) =>
      if Operate(box, id, revision, op, now).Ok? {
        var b := Operate(box, id, revision, op, now).value;
        OperateFields(box, id, op, revision, now);
        FieldsHold(box, b, pin);
        PruneHolds(rules, b, now, pin);
      }
    case _ =>
      StepQuiet(rules, box, step);
      FieldsHold(box, After(rules, box, step), pin);
  }

  // What is fixed comes back from a file that was written.
  lemma SavedHolds(rules: Rules, box: Box, file: File, pin: Pin)
    requires rules.Valid() && Inv(rules, box) && Saved(box, file) && Holds(box, pin)
    requires pin.source in rules.registrations && FixedFields(rules, pin.source, pin.fields)
    ensures HoldsIn(rules, file, pin)
  {
    hide Load, Saved, Inv, FixedFields, Says;
    var id := pin.RowId();
    forall now: Time ensures Holds(Load(rules, file, now), pin) {
      if id in Load(rules, file, now).items {
        RestartKeeps(rules, box, file, now, id);
        RestartFields(rules, box, file, now, id);
        RowOf(rules, box, id);
        IdsDiffer(pin.source, pin.fields.key, box.items[id].source, box.items[id].key);
      }
    }
  }

  lemma AnyStepHolds(rules: Rules, box: Box, file: File, step: Step, next: File, pin: Pin)
    requires rules.Valid() && Inv(rules, box) && Filed(rules, box, file, step, next)
    requires Signed(rules, pin) && FixedFields(rules, pin.source, pin.fields)
    requires Holds(box, pin) && HoldsIn(rules, file, pin)
    ensures Holds(After(rules, box, step), pin) && HoldsIn(rules, next, pin)
  {
    hide Inv, Load, Publish, Checked, Operate, Resolve, Saved, Holds, FixedFields;
    var b := After(rules, box, step);
    if step.Restarting? {
      HoldsAt(rules, file, pin, step.now);
    } else {
      StepKeeps(rules, box, step);
      StepHolds(rules, box, step, pin);
      if Saved(b, next) {
        SavedHolds(rules, b, next, pin);
      } else if next != file {
        var attempt: Step :| Attempted(rules, box, attempt, next);
        StepKeeps(rules, box, attempt);
        StepHolds(rules, box, attempt, pin);
        SavedHolds(rules, After(rules, box, attempt), next, pin);
      }
    }
  }

  lemma HoldsAt(rules: Rules, file: File, pin: Pin, now: Time)
    requires HoldsIn(rules, file, pin)
    ensures Holds(Load(rules, file, now), pin)
  { }

  lemma {:induction false} RunHolds(rules: Rules, run: Run, i: nat, j: nat, pin: Pin)
    requires rules.Valid() && IsRun(rules, run) && i <= j < |run.states| && |run.files| == |run.states|
    requires Signed(rules, pin) && FixedFields(rules, pin.source, pin.fields)
    requires Holds(run.states[i], pin) && HoldsIn(rules, run.files[i], pin)
    ensures Holds(run.states[j], pin) && HoldsIn(rules, run.files[j], pin)
    decreases j - i
  {
    hide IsRun, Inv, After, Filed, Holds, HoldsIn, Signed, FixedFields;
    if i < j {
      RunLength(rules, run);
      RunHolds(rules, run, i, j - 1, pin);
      RunKeeps(rules, run, j - 1);
      RunStep(rules, run, j - 1);
      AnyStepHolds(rules, run.states[j - 1], run.files[j - 1], run.steps[j - 1], run.files[j], pin);
    }
  }

  // The fields of a row, as the service and its file have them.
  function PinOf(row: Row): Pin { Pin(row.source, Says(row, None), row.fingerprint) }

  // A start from the file, or from one that is written now, would show these fields.
  ghost predicate Lasting(rules: Rules, box: Box, file: File, id: Text)
    requires id in box.items
  {
    Genuine(box.items[id]) && Fixed(rules, box.items[id]) && HoldsIn(rules, file, PinOf(box.items[id]))
  }

  // When the inbox has just been saved, that is a matter of the row alone.
  lemma SavedLasts(rules: Rules, box: Box, file: File, id: Text)
    requires rules.Valid() && Inv(rules, box) && Saved(box, file) && id in box.items
    ensures Lasting(rules, box, file, id) <==> Genuine(box.items[id]) && Fixed(rules, box.items[id])
  {
    hide Inv, Saved, Load, HoldsIn, FixedFields, Genuine;
    RowOf(rules, box, id);
    if Fixed(rules, box.items[id]) { SavedHolds(rules, box, file, PinOf(box.items[id])); }
  }

  lemma Lasts(rules: Rules, run: Run, i: nat, j: nat, id: Text)
    requires rules.Valid() && IsRun(rules, run) && i <= j < |run.states| && |run.files| == |run.states|
    requires id in run.states[i].items && id in run.states[j].items && Lasting(rules, run.states[i], run.files[i], id)
    requires run.states[i].items[id].fingerprint == run.states[j].items[id].fingerprint
    ensures Says(run.states[i].items[id], None) == Says(run.states[j].items[id], None)
  {
    hide IsRun, Inv, HoldsIn, Signature, FixedFields;
    RunKeeps(rules, run, i);
    RowOf(rules, run.states[i], id);
    RunHolds(rules, run, i, j, PinOf(run.states[i].items[id]));
  }

  /**
   A life of the service with restarts in it. While a row stays, a revision that is
   current at two moments was current in between, and a diagnostic shown at both is
   the same. If the row was genuine, as every published row is, then its fields are
   the same at both exactly when it still is; so they are, and were in between, if at
   the first moment its fields were fixed by another cleaning and no start from the
   file would have shown others.
   */
  lemma CurrentAcrossRestarts(rules: Rules, run: Run, i: nat, k: nat, j: nat, id: Text, revision: nat)
    requires rules.Valid() && IsRun(rules, run) && Stays(run, i, j, id) && i <= k <= j
    requires Current(run.states[i], id, revision) && Current(run.states[j], id, revision)
    ensures |run.files| == |run.states| && Current(run.states[k], id, revision)
    ensures id in run.states[i].diagnostics && id in run.states[j].diagnostics ==>
              run.states[i].diagnostics[id] == run.states[j].diagnostics[id]
    ensures var was, row := run.states[i].items[id], run.states[j].items[id];
            Genuine(was) ==> (Says(was, None) == Says(row, None) <==> Genuine(row))
    ensures Lasting(rules, run.states[i], run.files[i], id) ==>
              Says(run.states[i].items[id], None) == Says(run.states[k].items[id], None)
              == Says(run.states[j].items[id], None)
  {
    hide IsRun, Inv, Signature, Genuine, Lasting, Says;
    assert id in run.states[k].items;
    AgesGrow(rules, run, i, k, id);
    AgesGrow(rules, run, k, j, id);
    RunKeeps(rules, run, i);
    RunKeeps(rules, run, j);
    SameFingerprint(rules, run.states[i], run.states[j], id);
    if Lasting(rules, run.states[i], run.files[i], id) {
      Lasts(rules, run, i, k, id);
      Lasts(rules, run, i, j, id);
    }
  }

  lemma SameFingerprint(rules: Rules, a: Box, b: Box, id: Text)
    requires rules.Valid() && Inv(rules, a) && Inv(rules, b) && id in a.items && id in b.items
    requires a.items[id].fingerprint == b.items[id].fingerprint
    ensures Genuine(a.items[id]) ==> (Says(a.items[id], None) == Says(b.items[id], None) <==> Genuine(b.items[id]))
    ensures id in a.diagnostics && id in b.diagnostics ==> a.diagnostics[id] == b.diagnostics[id]
  {
    hide Signature, Inv, Genuine, Says;
    RowOf(rules, a, id);
    RowOf(rules, b, id);
    IdsDiffer(a.items[id].source, a.items[id].key, b.items[id].source, b.items[id].key);
    if Genuine(a.items[id]) { GenuineFields(a.items[id], b.items[id]); }
    if id in a.diagnostics && id in b.diagnostics { KnownDiagnostics(rules, a, b, id); }
  }

  lemma KnownDiagnostics(rules: Rules, a: Box, b: Box, id: Text)
    requires rules.Valid() && Inv(rules, a) && Inv(rules, b) && id in a.items && id in b.items
    requires a.items[id].fingerprint == b.items[id].fingerprint && id in a.diagnostics && id in b.diagnostics
    ensures a.diagnostics[id] == b.diagnostics[id]
  {
    hide Signature, Inv;
    RowOf(rules, a, id);
    RowOf(rules, b, id);
    KnownContents(rules, a, b, id);
  }
}
