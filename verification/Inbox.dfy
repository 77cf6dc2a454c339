/** The inbox and its service, whose methods change it in place. */
module Inbox {
  import opened Prelude
  import opened Encoding
  import opened Findings
  import T = InboxTable
  import opened InboxTable
  import opened InboxInvariants
  import opened InboxTransactions
  import opened InboxLoading

  class Inbox {
    const rules: Rules
    var items: map<Text, Row>
    var diagnostics: map<Text, Text>
    var analysis: map<Text, Analysis>

    function View(): Box
      reads this
    {
      Box(items, diagnostics, analysis)
    }

    // A start: the rows on disk, one by one, whatever they are.
    constructor (rules: Rules, rows: File, now: Time)
      ensures this.rules == rules && View() == T.Load(rules, rows, now) && Inv(rules, View())
    {
      this.rules := rules;
      items, diagnostics, analysis := map[], map[], map[];
      new;
      hide LoadRow, Inv;
      if |rows| <= CAPACITY {
        var i := 0;
        while i < |rows|
          invariant i <= |rows| && this.rules == rules && items == LoadRows(rules, rows[..i], now)
          invariant diagnostics == map[] && analysis == map[]
        {
          assert rows[..i + 1][..i] == rows[..i];
          var loaded := if rows[i].Some? then LoadRow(rules, rows[i].value, now) else None;
          if loaded.Some? { items := items[loaded.value.id := loaded.value]; }
          i := i + 1;
        }
        assert rows[..|rows|] == rows;
      }
      Prune(now);
      LoadInv(rules, rows, now);
    }

    constructor Clone(other: Inbox)
      ensures rules == other.rules && View() == other.View()
    {
      rules := other.rules;
      items, diagnostics, analysis := other.items, other.diagnostics, other.analysis;
    }

    method Publish(source: Text, finding: Finding, now: real) returns (r: Result<(Row, bool, bool), Error>)
      requires Inv(rules, View())
      modifies this
      ensures match T.Publish(rules, old(View()), source, finding, now)
              case Err(e) => r == Err(e) && View() == old(View())
              case Ok(p) => r == Ok((p.row, p.notify, p.changed)) && View() == p.box
    {
      hide Renewed, News, Fresh, Signature, ValidKey, Registered, Unique, ByteLength, Id;
      if source !in rules.registrations { return Err(UnregisteredSource); }
      var registry := rules.registrations[source];
      if !ValidKey(finding.key) || !Registered(registry, finding.actions) { return Err(InvalidFinding); }
      if !Unique(finding.actions) { return Err(InvalidFinding); }
      if finding.diagnostic.Some? && ByteLength(finding.diagnostic.value) > DIAGNOSTIC_BYTES {
        return Err(DiagnosticTooLarge);
      }
      var f := Cleaned(rules, finding);
      if f.title == [] { return Err(InvalidFinding); }
      var id := Id(source, f.key);
      if id !in items && |items| >= CAPACITY { return Err(CapacityReached); }
      if id in items { RowOf(rules, View(), id); }
      var renewed := Renew(Lookup(items, id), source, f, now);
      if renewed.Err? { return Err(renewed.error); }
      var (row, changed) := renewed.value;
      var notify := changed && Rank(row.urgency) <= Rank(Soon) && row.snoozedUntil <= now;
      match f.diagnostic {
        case Some(d) => diagnostics := diagnostics[id := d];
        case None => diagnostics := diagnostics - {id};
      }
      items := items[id := row];
      r := Ok((row, notify, changed));
    }

    // The row a finding becomes, and whether it is news.
    static method Renew(previous: Option<Row>, source: Text, f: Finding, now: real)
      returns (r: Result<(Row, bool), Error>)
      requires previous.Some? ==> previous.value.revision <= COUNTER_MAX && previous.value.recurrence <= COUNTER_MAX
      ensures var row := Renewed(previous, source, f, now);
        r == if row.recurrence > COUNTER_MAX || row.revision > COUNTER_MAX then Err(RevisionLimit)
             else Ok((row, News(previous, Signature(f))))
    {
      hide Signature, Id;
      var signature := Signature(f);
      var changed := previous.None? || previous.value.fingerprint != signature || !previous.value.Open();
      var row := if previous.Some? then previous.value else Fresh(source, f, now);
      if !row.Open() {
        if row.recurrence >= COUNTER_MAX { return Err(RevisionLimit); }
        row := row.(recurrence := row.recurrence + 1);
      }
      if Rank(f.urgency) < Rank(row.urgency) { row := row.(snoozedUntil := 0.0); }
      row := row.(title := f.title, explanation := f.explanation, details := f.details);
      row := row.(urgency := f.urgency, lifecycle := f.lifecycle, actions := f.actions);
      row := row.(fingerprint := signature, resolved := UNRESOLVED);
      if changed {
        if row.revision >= COUNTER_MAX { return Err(RevisionLimit); }
        row := row.(updated := now, revision := row.revision + 1);
      }
      r := Ok((row, changed));
    }

    method Resolve(source: Text, key: Text, now: real) returns (r: Result<bool, Error>)
      modifies this
      ensures source !in rules.registrations ==> r == Err(UnregisteredSource)
      ensures source in rules.registrations && !ValidKey(key) ==> r == Err(InvalidFinding)
      ensures source in rules.registrations && ValidKey(key) ==>
                r == Ok(Id(source, key) in old(items) && old(items)[Id(source, key)].Open())
      ensures View() == if r.Ok? then T.Resolve(old(View()), Id(source, key), now) else old(View())
    {
      if source !in rules.registrations { return Err(UnregisteredSource); }
      if !ValidKey(key) { return Err(InvalidFinding); }
      var id := Id(source, key);
      if id in items && items[id].Open() {
        items := items[id := items[id].(resolved := now, busy := [])];
        diagnostics := diagnostics - {id};
        analysis := analysis - {id};
        return Ok(true);
      }
      r := Ok(false);
    }

    method Prune(now: real)
      modifies this
      ensures View() == T.Prune(rules, old(View()), now)
    {
      items := map id | id in items && Kept(rules, items[id], now) :: items[id];
      items := map id | id in items :: items[id].(outcomes := Recent(items[id].outcomes, now));
      diagnostics := map id | id in diagnostics && id in items :: diagnostics[id];
      analysis := map id | id in analysis && id in items :: analysis[id];
      assert View() == T.Prune(rules, old(View()), now);
    }

    method Operate(id: Text, revision: nat, op: Operation, now: real) returns (r: Result<(), Error>)
      requires Inv(rules, View())
      modifies this
      ensures match T.Operate(old(View()), id, revision, op, now)
              case Err(e) => r == Err(e) && View() == old(View())
              case Ok(b) => r == Ok(()) && View() == b
    {
      hide Signature, Content, Known, ValidKey, Inv;
      if !Current(View(), id, revision) { return Err(StaleFinding); }
      RowOf(rules, View(), id);
      var row := items[id];
      match op {
        case Done =>
          if !row.lifecycle.Notice? { return Err(PublisherOwned); }
          var _ := Resolve(row.source, row.key, now);
        case Snooze(seconds) =>
          if seconds.None? || seconds.value < 60 || seconds.value > 30 * 86400 { return Err(InvalidDuration); }
          items := items[id := row.(snoozedUntil := now + seconds.value as real)];
        case Unsnooze => items := items[id := row.(snoozedUntil := 0.0)];
        case Other => return Err(InvalidOperation);
      }
      r := Ok(());
    }

    method Finish(id: Text, revision: nat, action: Text, result: Text, now: real)
      modifies this
      ensures View() == T.Report(old(View()), id, Outcome(action, revision, now, result))
    {
      if id !in items { return; }
      var outcomes := items[id].outcomes + [Outcome(action, revision, now, result)];
      if |outcomes| > OUTCOMES { outcomes := outcomes[1..]; }
      items := items[id := items[id].(busy := [], outcomes := outcomes)];
    }
  }

  datatype Note = CheckUnavailable | NotSaved

  class Service {
    var inbox: Inbox
    var errors: map<Text, Note>
    var tasks: set<Text>

    ghost predicate Valid()
      reads this, inbox
    {
      inbox.rules.Valid() && Inv(inbox.rules, inbox.View()) && |tasks| <= TASKS
    }

    constructor (inbox: Inbox)
      requires inbox.rules.Valid() && Inv(inbox.rules, inbox.View())
      ensures Valid() && this.inbox == inbox && errors == map[] && tasks == {}
    {
      this.inbox := inbox;
      errors, tasks := map[], {};
    }

    // Only a staged inbox that can be listed and written becomes the live one.
    method Commit(staged: Inbox, now: real, dirty: bool, fits: bool, failure: Option<Error>)
      returns (r: Result<(), Error>)
      requires staged != inbox
      modifies this`inbox, staged
      ensures r == if dirty && !fits then Err(StateCapacity)
                   else if dirty && failure.Some? then Err(failure.value)
                   else Ok(())
      ensures inbox == if r.Ok? then staged else old(inbox)
      ensures r.Ok? ==> staged.View() == InboxTransactions.Commit(staged.rules, old(staged.View()), now, dirty)
    {
      if dirty {
        staged.Prune(now);
        if !fits { return Err(StateCapacity); }
        PruneTwice(staged.rules, old(staged.View()), now);
        staged.Prune(now);
        if failure.Some? { return Err(failure.value); }
      }
      inbox := staged;
      r := Ok(());
    }

    /**
     The locked part of a check: the whole report is staged on a copy, and the
     live inbox is replaced only when every finding is taken and written.
     */
    method Check(source: Text, reports: Result<seq<Finding>, Error>, now: Time, fits: bool, failure: Option<Error>)
        returns (r: Result<seq<Row>, Error>)
      requires Valid()
      modifies this
      ensures Valid()
      ensures match Verdict(old(inbox.rules), old(inbox.View()), source, reports, now, fits, failure)
              case Err(e) => r == Err(e) && inbox == old(inbox) && inbox.View() == old(inbox.View())
              case Ok(s) => r == Ok(s.notify) && inbox.rules == old(inbox.rules)
                            && inbox.View() == InboxTransactions.Commit(inbox.rules, s.box, now, s.dirty)
      ensures tasks == old(tasks)
      ensures errors == if source !in old(inbox.rules).registrations then old(errors)
                        else if r.Err? then old(errors)[source := CheckUnavailable] else old(errors) - {source}
    {
      hide Inv, Staged, Keys;
      if source !in inbox.rules.registrations { return Err(UnregisteredSource); }
      if reports.Err? || |reports.value| > REPORTS {
        errors := errors[source := CheckUnavailable];
        return if reports.Err? then Err(reports.error) else Err(InvalidResult);
      }
      var staged := new Inbox.Clone(inbox);
      var result := StageReport(staged, source, reports.value, now);
      if result.Err? {
        errors := errors[source := CheckUnavailable];
        return Err(result.error);
      }
      var (notifications, dirty) := result.value;
      CheckTransaction(inbox.rules, inbox.View(), source, reports.value, now);
      var committed := Commit(staged, now, dirty, fits, failure);
      if committed.Err? {
        errors := errors[source := CheckUnavailable];
        return Err(committed.error);
      }
      errors := errors - {source};
      r := Ok(notifications);
    }

    // One finding from outside, as a transaction of its own.
    method Publish(source: Text, finding: Finding, now: Time, fits: bool, failure: Option<Error>)
      returns (r: Result<Option<Row>, Error>)
      requires Valid()
      modifies this`inbox
      ensures Valid()
      ensures r.Err? ==> inbox == old(inbox) && inbox.View() == old(inbox.View())
      ensures match T.Publish(old(inbox.rules), old(inbox.View()), source, finding, now)
              case Err(e) => r == Err(e)
              case Ok(p) =>
                && r == (if p.changed && !fits then Err(StateCapacity)
                         else if p.changed && failure.Some? then Err(failure.value)
                         else Ok(if p.notify then Some(p.row) else None))
                && (r.Ok? ==>
                      && inbox.rules == old(inbox.rules)
                      && inbox.View() == InboxTransactions.Commit(inbox.rules, p.box, now, p.changed))
    {
      hide Inv, T.Publish;
      var staged := new Inbox.Clone(inbox);
      var published := staged.Publish(source, finding, now);
      if published.Err? { return Err(published.error); }
      var (row, notify, changed) := published.value;
      PublishKeeps(inbox.rules, inbox.View(), source, finding, now);
      ghost var box := staged.View();
      var committed := Commit(staged, now, changed, fits, failure);
      if committed.Err? { return Err(committed.error); }
      if changed { PruneKeeps(inbox.rules, box, now); }
      r := Ok(if notify then Some(row) else None);
    }

    // Done, snooze and unsnooze, for the revision the client has seen.
    method Operate(id: Text, revision: nat, op: Operation, now: Time, fits: bool, failure: Option<Error>)
      returns (r: Result<(), Error>)
      requires Valid()
      modifies this`inbox
      ensures Valid()
      ensures r.Err? ==> inbox == old(inbox) && inbox.View() == old(inbox.View())
      ensures match T.Operate(old(inbox.View()), id, revision, op, now)
              case Err(e) => r == Err(e)
              case Ok(b) =>
                && r == (if !fits then Err(StateCapacity) else if failure.Some? then Err(failure.value) else Ok(()))
                && (r.Ok? ==> inbox.rules == old(inbox.rules) && inbox.View() == T.Prune(inbox.rules, b, now))
    {
      hide Inv, T.Operate;
      var staged := new Inbox.Clone(inbox);
      var operated := staged.Operate(id, revision, op, now);
      if operated.Err? { return Err(operated.error); }
      OperateKeeps(inbox.rules, inbox.View(), id, revision, op, now);
      PruneKeeps(inbox.rules, staged.View(), now);
      r := Commit(staged, now, true, fits, failure);
    }

    // Begin an action, or an analysis when none is named, on a row that is current.
    method Start(id: Text, revision: nat, action: Option<Text>, confirmed: bool) returns (r: Result<(), Error>)
      requires Valid()
      modifies this`tasks, inbox`items
      ensures Valid()
      ensures r.Err? ==> tasks == old(tasks) && inbox.View() == old(inbox.View())
      ensures r.Ok? ==>
                && tasks == old(tasks) + {id}
                && inbox.View() == Mark(old(inbox.View()), id, if action.Some? then action.value else Ascii("analyze"))
      ensures r == if id !in old(inbox.items) || old(inbox.items)[id].resolved != 0.0
                      || old(inbox.items)[id].revision != revision then Err(StaleFinding)
                   else
                     var row := old(inbox.items)[id];
                     if |old(tasks)| >= 8 || id in old(tasks) || row.busy != [] then Err(Busy)
                     else match action
                     case Some(a) =>
                       var offered := inbox.rules.registrations[row.source];
                       if a !in offered || a !in row.actions then Err(UnregisteredAction)
                       else if offered[a] && !confirmed then Err(ConfirmationRequired)
                       else Ok(())
                     case None => if id in old(inbox.diagnostics) then Ok(()) else Err(NoDiagnostic)
    {
      if !Current(inbox.View(), id, revision) { return Err(StaleFinding); }
      RowOf(inbox.rules, inbox.View(), id);
      var row := inbox.items[id];
      if |tasks| >= TASKS || id in tasks || row.busy != [] { return Err(Busy); }
      if action.Some? {
        var registry := inbox.rules.registrations[row.source];
        if action.value !in registry || action.value !in row.actions { return Err(UnregisteredAction); }
        if registry[action.value] && !confirmed { return Err(ConfirmationRequired); }
      } else if id !in inbox.diagnostics {
        return Err(NoDiagnostic);
      }
      var busy := if action.Some? then action.value else Ascii("analyze");
      MarkKeeps(inbox.rules, inbox.View(), id, busy);
      tasks := tasks + {id};
      inbox.items := inbox.items[id := row.(busy := busy)];
      r := Ok(());
    }

    // The action has ended; its row may be gone by now.
    method End(id: Text)
      requires Valid()
      modifies this`tasks, inbox`items
      ensures Valid() && tasks == old(tasks) - {id} && inbox.View() == Mark(old(inbox.View()), id, [])
    {
      MarkKeeps(inbox.rules, inbox.View(), id, []);
      SubsetSize(tasks - {id}, tasks);
      tasks := tasks - {id};
      if id in inbox.items { inbox.items := inbox.items[id := inbox.items[id].(busy := [])]; }
    }
  }

  // Publish every finding, then resolve what was not reported.
  method StageReport(staged: Inbox, source: Text, reports: seq<Finding>, now: Time)
    returns (r: Result<(seq<Row>, bool), Error>)
    requires staged.rules.Valid() && Inv(staged.rules, staged.View()) && source in staged.rules.registrations
    modifies staged
    ensures match Checked(staged.rules, old(staged.View()), source, reports, now)
            case Err(e) => r == Err(e)
            case Ok(s) => r == Ok((s.notify, s.dirty)) && staged.View() == s.box
  {
    hide Inv, Keys, T.Publish, Staged;
    ghost var rules, before := staged.rules, staged.View();
    var seen, notifications, dirty := {}, [], false;
    var i := 0;
    StagedStarts(rules, before, source, now);
    while i < |reports|
      invariant i <= |reports| && staged.rules == rules
      invariant Staged(rules, before, source, reports[..i], now) ==
                  Ok(T.Stage(staged.View(), seen, notifications, dirty))
      invariant Inv(rules, staged.View())
    {
      var finding := reports[i];
      StagedStep(rules, before, source, reports, i, now);
      if finding.key in seen { return Err(DuplicateKey); }
      seen := seen + {finding.key};
      ghost var at := staged.View();
      var published := staged.Publish(source, finding, now);
      if published.Err? { return Err(published.error); }
      PublishKeeps(rules, at, source, finding, now);
      var (row, notify, changed) := published.value;
      dirty := dirty || changed;
      if notify { notifications := notifications + [row]; }
      i := i + 1;
    }
    assert reports[..i] == reports;
    var resolved := ResolveUnseen(staged, source, seen, now);
    r := Ok((notifications, dirty || resolved));
  }

  method ResolveUnseen(staged: Inbox, source: Text, seen: set<Text>, now: Time) returns (dirty: bool)
    requires staged.rules.Valid() && Inv(staged.rules, staged.View()) && source in staged.rules.registrations
    modifies staged
    ensures staged.View() == ResolveAbsent(old(staged.View()), source, seen, now)
    ensures dirty == (Gone(old(staged.View()), source, seen) != {})
  {
    hide Inv, RowOk, ValidKey, Gone, ResolveAll;
    ghost var rules, before := staged.rules, staged.View();
    ghost var gone := Gone(before, source, seen);
    AbsentKeys(rules, before, source, seen);
    var absent := set id | id in staged.items && Absent(staged.items[id], source, seen) :: staged.items[id].key;
    ghost var done: set<Text> := {};
    dirty := false;
    NoneSettled(before, now);
    while absent != {}
      invariant staged.rules == rules && done <= gone && dirty == (done != {})
      invariant staged.View() == ResolveAll(before, done, now)
      invariant forall k: Text :: k in absent ==> AbsentKey(before, source, seen, k)
      invariant forall id: Text :: id in gone - done ==> before.items[id].key in absent
    {
      var key: Text :| key in absent;
      AbsentFacts(before, source, seen, key);
      ghost var id := Id(source, key);
      ResolveStep(before, done, id, now);
      var outcome := staged.Resolve(source, key, now);
      dirty := dirty || outcome == Ok(true);
      absent := absent - {key};
      if id in gone { done := done + {id}; }
    }
    assert done == gone;
  }

  lemma StagedStarts(rules: Rules, box: Box, source: Text, now: real)
    ensures Staged(rules, box, source, [], now) == Ok(T.Stage(box, {}, [], false))
  { }

  // The first refusal is the outcome of the whole.
  lemma {:induction false} StagedRefused(rules: Rules, box: Box, source: Text, reports: seq<Finding>, n: nat, now: real)
    requires n <= |reports| && Staged(rules, box, source, reports[..n], now).Err?
    ensures Staged(rules, box, source, reports, now) == Staged(rules, box, source, reports[..n], now)
    decreases |reports| - n
  {
    hide T.Publish;
    if n < |reports| {
      assert reports[..n + 1][..n] == reports[..n];
      StagedRefused(rules, box, source, reports, n + 1, now);
    } else {
      assert reports[..n] == reports;
    }
  }

  lemma StagedStep(rules: Rules, box: Box, source: Text, reports: seq<Finding>, i: nat, now: real)
    requires i < |reports| && Staged(rules, box, source, reports[..i], now).Ok?
    ensures var stage := Staged(rules, box, source, reports[..i], now).value; var f := reports[i];
      var p := T.Publish(rules, stage.box, source, f, now);
      && (f.key in stage.seen ==> Staged(rules, box, source, reports, now) == Err(DuplicateKey))
      && (f.key !in stage.seen && p.Err? ==> Staged(rules, box, source, reports, now) == Err(p.error))
      && (f.key !in stage.seen && p.Ok? ==>
            Staged(rules, box, source, reports[..i + 1], now) == Ok(T.Stage(p.value.box, stage.seen + {f.key},
              if p.value.notify then stage.notify + [p.value.row] else stage.notify, stage.dirty || p.value.changed)))
  {
    hide T.Publish;
    assert reports[..i + 1][..i] == reports[..i];
    if Staged(rules, box, source, reports[..i + 1], now).Err? {
      StagedRefused(rules, box, source, reports, i + 1, now);
    }
  }

  ghost predicate AbsentKey(box: Box, source: Text, seen: set<Text>, key: Text) {
    var id := Id(source, key);
    ValidKey(key) && id in box.items && Absent(box.items[id], source, seen) && box.items[id].key == key
  }

  lemma AbsentKeys(rules: Rules, box: Box, source: Text, seen: set<Text>)
    requires Inv(rules, box)
    ensures forall id: Text :: id in box.items && Absent(box.items[id], source, seen) ==>
              AbsentKey(box, source, seen, box.items[id].key)
    ensures forall id: Text :: id in Gone(box, source, seen) ==>
      id in box.items && id == Id(source, box.items[id].key) && Absent(box.items[id], source, seen)
  { }

  lemma AbsentFacts(box: Box, source: Text, seen: set<Text>, key: Text)
    requires AbsentKey(box, source, seen, key)
    ensures var id := Id(source, key);
              ValidKey(key) && id in box.items && (id in Gone(box, source, seen) <==> box.items[id].Open())
  { }

  lemma NoneSettled(box: Box, now: real)
    ensures ResolveAll(box, {}, now) == box
  { }

  lemma ResolveStep(box: Box, done: set<Text>, id: Text, now: Time)
    requires id in box.items
    ensures var b := ResolveAll(box, done, now);
      && id in b.items && (b.items[id].Open() <==> id !in done && box.items[id].Open())
      && T.Resolve(b, id, now) == ResolveAll(box, if box.items[id].Open() then done + {id} else done, now)
  { }

  lemma {:induction false} RecentTwice(outcomes: seq<Outcome>, now: real)
    ensures Recent(Recent(outcomes, now), now) == Recent(outcomes, now)
  {
    if outcomes != [] {
      var n := |outcomes| - 1;
      RecentTwice(outcomes[..n], now);
      if outcomes[n].at >= now - WEEK {
        var kept := Recent(outcomes[..n], now);
        assert (kept + [outcomes[n]])[..|kept|] == kept;
      } else {
        assert Recent(outcomes[..n], now) + [] == Recent(outcomes[..n], now);
      }
    }
  }

  lemma PruneTwice(rules: Rules, box: Box, now: real)
    ensures T.Prune(rules, T.Prune(rules, box, now), now) == T.Prune(rules, box, now)
  {
    hide Recent;
    var b := T.Prune(rules, box, now);
    var c := T.Prune(rules, b, now);
    forall id: Text | id in b.items ensures id in c.items && c.items[id] == b.items[id] {
      RecentTwice(box.items[id].outcomes, now);
      assert b.items[id] == box.items[id].(outcomes := Recent(box.items[id].outcomes, now));
      assert Kept(rules, b.items[id], now);
    }
    assert c.items == b.items;
    assert c.diagnostics == b.diagnostics && c.analysis == b.analysis;
  }
}
