/** What every lock-held block keeps true of the job table. */
module BrokerInvariants {
  import opened BrokerTable

  function Key(r: Request): (string, string)
    requires r.item.Some?
  {
    (r.consumer, r.item.value.name)
  }

  ghost predicate SharesItem(a: Job, b: Job) {
    a.request.item.Some? && b.request.item.Some? && Key(a.request) == Key(b.request)
  }

  // A job that is not finished still has an attempt left in both budgets.
  ghost predicate BudgetLeft(cfg: Config, j: Job) {
    && j.transient <= 2
    && (j.invalidOutputs == 0 || j.invalidOutputs < cfg.schemaAttempts)
    && (cfg.schemaAttempts == 0 ==> j.transient == 0)
  }

  // The recorded revision of a job's item bounds the job's own, and equals it
  // unless the job is superseded.
  ghost predicate RevisionOk(t: Table, j: Job) {
    j.request.item.Some? ==>
      && Key(j.request) in t.revisions
      && j.request.item.value.revision <= t.revisions[Key(j.request)]
      && (j.state != Superseded ==> j.request.item.value.revision == t.revisions[Key(j.request)])
  }

  ghost predicate JobOk(t: Table, cfg: Config, id: Id)
    requires id in t.jobs
  {
    var j := t.jobs[id];
    && j.sequence <= t.sequence
    && (j.cancel in t.raised <==> j.Terminal())
    && (j.result.Some? <==> j.state == Succeeded)
    && (t.closed ==> j.Terminal())
    && (!j.Terminal() ==> BudgetLeft(cfg, j))
    && RevisionOk(t, j)
  }

  // Two jobs never share a sequence number or a cancellation flag, are not both
  // promoted, and are not both current for one (consumer, item).
  ghost predicate PairOk(t: Table, a: Id, b: Id)
    requires a in t.jobs && b in t.jobs
  {
    var x, y := t.jobs[a], t.jobs[b];
    a != b ==>
      && x.sequence != y.sequence
      && x.cancel != y.cancel
      && !(x.promoted && y.promoted)
      && (SharesItem(x, y) ==> x.state == Superseded || y.state == Superseded)
  }

  ghost predicate Inv(t: Table, cfg: Config) {
    && (forall id {:trigger JobOk(t, cfg, id)} :: id in t.jobs ==> JobOk(t, cfg, id))
    && (forall a, b {:trigger PairOk(t, a, b)} :: a in t.jobs && b in t.jobs ==> PairOk(t, a, b))
  }

  // A UUID and a cancellation flag nobody has seen.
  ghost predicate FreshFlag(t: Table, flag: Flag) {
    flag !in t.raised && forall other :: other in t.jobs ==> t.jobs[other].cancel != flag
  }

  ghost predicate Fresh(t: Table, id: Id, flag: Flag) {
    id !in t.jobs && FreshFlag(t, flag)
  }

  // ---------- blocks that write one job ----------

  // How the blocks that write a single job may change it.
  ghost predicate OneJobStep(t: Table, u: Table, id: Id)
    requires id in t.jobs
  {
    && u.jobs.Keys == t.jobs.Keys
    && u.sequence == t.sequence && u.revisions == t.revisions && u.closed == t.closed
    && var x, y := t.jobs[id], u.jobs[id];
    && u.jobs == t.jobs[id := y]
    && y.request == x.request && y.sequence == x.sequence
    && (y.promoted ==> x.promoted)
    && (x.state == Superseded <==> y.state == Superseded)
    && (y.cancel == x.cancel || FreshFlag(t, y.cancel))
    && (u.raised == t.raised || u.raised == t.raised + {y.cancel})
  }

  lemma StepKeeps(t: Table, u: Table, cfg: Config, id: Id)
    requires Inv(t, cfg) && id in t.jobs && OneJobStep(t, u, id) && JobOk(u, cfg, id)
    ensures Inv(u, cfg)
  {
    forall other | other in u.jobs ensures JobOk(u, cfg, other) {
      assert JobOk(t, cfg, other) && PairOk(t, id, other);
    }
    forall a, b | a in u.jobs && b in u.jobs ensures PairOk(u, a, b) {
      assert PairOk(t, a, b);
    }
  }

  lemma TakeKeeps(t: Table, cfg: Config, id: Id, now: Time)
    requires Inv(t, cfg) && Front(t, id)
    ensures Inv(Take(t, id, now), cfg)
  {
    assert JobOk(t, cfg, id);
    StepKeeps(t, Take(t, id, now), cfg, id);
  }

  lemma SelectKeeps(t: Table, cfg: Config, id: Id, flag: Flag, s: Selection, now: Time)
    requires Inv(t, cfg)
    ensures Inv(Select(t, id, flag, s, now).0, cfg)
  {
    var (u, ok) := Select(t, id, flag, s, now);
    if ok {
      assert JobOk(t, cfg, id);
      StepKeeps(t, u, cfg, id);
    }
  }

  lemma TouchKeeps(t: Table, cfg: Config, now: Time, retired: seq<Retired>)
    requires Inv(t, cfg)
    ensures Inv(t.(activity := now), cfg) && Inv(t.(activity := now, retired := retired), cfg)
  {
    var u := t.(activity := now, retired := retired);
    var v := t.(activity := now);
    forall id | id in t.jobs ensures JobOk(u, cfg, id) && JobOk(v, cfg, id) { assert JobOk(t, cfg, id); }
    forall a, b | a in t.jobs && b in t.jobs ensures PairOk(u, a, b) && PairOk(v, a, b) { assert PairOk(t, a, b); }
  }

  lemma CompleteKeeps(t: Table, cfg: Config, id: Id, outcome: Outcome, now: Time)
    requires Inv(t, cfg)
    ensures Inv(Complete(t, cfg, id, outcome, now).0, cfg)
  {
    var (u, changed) := Complete(t, cfg, id, outcome, now);
    TouchKeeps(t, cfg, now, t.retired);
    if changed {
      var a := t.(activity := now);
      assert JobOk(a, cfg, id);
      StepKeeps(a, u, cfg, id);
    }
  }

  // ---------- IPC blocks ----------

  lemma DemotedKeeps(t: Table, cfg: Config)
    requires Inv(t, cfg)
    ensures Inv(Demoted(t), cfg)
  {
    var u := Demoted(t);
    forall id | id in u.jobs ensures JobOk(u, cfg, id) { assert JobOk(t, cfg, id); }
    forall a, b | a in u.jobs && b in u.jobs ensures PairOk(u, a, b) { assert PairOk(t, a, b); }
  }

  lemma PromoteKeeps(t: Table, cfg: Config, id: Id, flag: Flag, now: Time)
    requires Inv(t, cfg) && id in t.jobs
    ensures Inv(Apply(t, Next, id, flag, now), cfg)
  {
    var d := Demoted(t);
    var u := Apply(t, Next, id, flag, now);
    DemotedKeeps(t, cfg);
    forall other | other in u.jobs ensures JobOk(u, cfg, other) { assert JobOk(d, cfg, other); }
    forall a, b | a in u.jobs && b in u.jobs ensures PairOk(u, a, b) { assert PairOk(d, a, b); }
  }

  lemma RetireKeeps(t: Table, cfg: Config, id: Id)
    requires Inv(t, cfg) && id in t.jobs
    ensures Inv(Retire(t, id), cfg)
  {
    var u := Retire(t, id);
    forall other | other in u.jobs ensures JobOk(u, cfg, other) { assert JobOk(t, cfg, other); }
    forall a, b | a in u.jobs && b in u.jobs ensures PairOk(u, a, b) { assert PairOk(t, a, b); }
  }

  lemma ApplyKeeps(t: Table, cfg: Config, op: Operation, id: Id, flag: Flag, now: Time)
    requires Inv(t, cfg) && id in t.jobs && Allowed(op, t.jobs[id]) && FreshFlag(t, flag) && !t.closed
    ensures Inv(Apply(t, op, id, flag, now), cfg)
  {
    assert JobOk(t, cfg, id);
    match op
    case Cancel => StepKeeps(t, Apply(t, op, id, flag, now), cfg, id);
    case Retry => StepKeeps(t, Apply(t, op, id, flag, now), cfg, id);
    case Next => PromoteKeeps(t, cfg, id, flag, now);
    case Release => RetireKeeps(t, cfg, id);
    case _ =>
  }

  lemma ManageKeeps(t: Table, cfg: Config, op: Operation, id: Id, epochMatches: bool, flag: Flag, now: Time)
    requires Inv(t, cfg) && FreshFlag(t, flag)
    ensures Inv(Manage(t, op, id, epochMatches, flag, now).0, cfg)
  {
    TouchKeeps(t, cfg, now, t.retired);
    var a := t.(activity := now);
    if !t.closed && id in t.jobs && Allowed(op, a.jobs[id]) {
      ApplyKeeps(a, cfg, op, id, flag, now);
    }
  }

  lemma FinishAllKeeps(t: Table, cfg: Config, doomed: set<Id>, final: State, now: Time)
    requires Inv(t, cfg) && doomed <= t.jobs.Keys && final in {Cancelled, Superseded}
    requires final == Cancelled ==> forall id :: id in doomed ==> !t.jobs[id].Terminal()
    ensures Inv(FinishAll(t, doomed, final, now), cfg)
  {
    var u := FinishAll(t, doomed, final, now);
    forall id | id in u.jobs ensures JobOk(u, cfg, id) {
      assert JobOk(t, cfg, id);
      if id !in doomed {
        forall x | x in doomed ensures t.jobs[x].cancel != t.jobs[id].cancel { assert PairOk(t, x, id); }
      }
    }
    forall a, b | a in u.jobs && b in u.jobs ensures PairOk(u, a, b) { assert PairOk(t, a, b); }
  }

  lemma CloseKeeps(t: Table, cfg: Config, now: Time)
    requires Inv(t, cfg)
    ensures Inv(Close(t, now), cfg)
  {
    var u := FinishAll(t, Unfinished(t), Cancelled, now);
    FinishAllKeeps(t, cfg, Unfinished(t), Cancelled, now);
    var v := Close(t, now);
    forall id | id in v.jobs ensures JobOk(v, cfg, id) { assert JobOk(u, cfg, id); }
    forall a, b | a in v.jobs && b in v.jobs ensures PairOk(v, a, b) { assert PairOk(u, a, b); }
  }

  lemma InsertKeeps(t: Table, cfg: Config, r: Request, id: Id, flag: Flag, now: Time)
    requires Inv(t, cfg) && Fresh(t, id, flag) && !t.closed
    requires r.item.Some? ==>
               && Key(r) in t.revisions && t.revisions[Key(r)] == r.item.value.revision
               && forall x :: x in SameItems(t, r.consumer, r.item.value.name) ==> t.jobs[x].state == Superseded
    ensures Inv(Insert(t, r, id, flag, now), cfg)
  {
    var u := Insert(t, r, id, flag, now);
    forall x | x in u.jobs ensures JobOk(u, cfg, x) {
      if x != id { assert JobOk(t, cfg, x); }
    }
    forall a, b | a in u.jobs && b in u.jobs ensures PairOk(u, a, b) {
      if a != id && b != id {
        assert PairOk(t, a, b);
      } else if a != b {
        var x := if a == id then b else a;
        assert JobOk(t, cfg, x);
        if SharesItem(t.jobs[x], u.jobs[id]) { assert x in SameItems(t, r.consumer, r.item.value.name); }
      }
    }
  }

  // Recording a higher revision, and superseding every job that carried an older one.
  lemma SupersedeKeeps(t: Table, cfg: Config, r: Request, now: Time)
    requires Inv(t, cfg) && r.item.Some?
    requires Key(r) in t.revisions ==> t.revisions[Key(r)] < r.item.value.revision
    ensures var b := t.(revisions := t.revisions[Key(r) := r.item.value.revision]);
            Inv(FinishAll(b, SameItems(b, r.consumer, r.item.value.name), Superseded, now), cfg)
  {
    var doomed := SameItems(t, r.consumer, r.item.value.name);
    var b := t.(revisions := t.revisions[Key(r) := r.item.value.revision]);
    assert doomed == SameItems(b, r.consumer, r.item.value.name);
    var c := FinishAll(t, doomed, Superseded, now);
    var u := FinishAll(b, doomed, Superseded, now);
    FinishAllKeeps(t, cfg, doomed, Superseded, now);
    forall id | id in u.jobs ensures JobOk(u, cfg, id) {
      assert JobOk(c, cfg, id);
      assert JobOk(t, cfg, id);
    }
    forall x, y | x in u.jobs && y in u.jobs ensures PairOk(u, x, y) { assert PairOk(c, x, y); }
  }

  lemma SubmitKeeps(t: Table, cfg: Config, r: Request, id: Id, flag: Flag, now: Time)
    requires Inv(t, cfg) && Fresh(t, id, flag)
    ensures Inv(Submit(t, cfg, r, id, flag, now).0, cfg)
  {
    TouchKeeps(t, cfg, now, t.retired);
    var a := t.(activity := now);
    if Submit(t, cfg, r, id, flag, now).1.Accepted? {
      if r.item.Some? {
        SupersedeKeeps(a, cfg, r, now);
        var b := a.(revisions := a.revisions[Key(r) := r.item.value.revision]);
        var c := FinishAll(b, SameItems(b, r.consumer, r.item.value.name), Superseded, now);
        forall x | x in SameItems(c, r.consumer, r.item.value.name) ensures c.jobs[x].state == Superseded {
          assert x in SameItems(b, r.consumer, r.item.value.name);
        }
        InsertKeeps(c, cfg, r, id, flag, now);
      } else {
        InsertKeeps(a, cfg, r, id, flag, now);
      }
    }
  }

  // ---------- the worker's requeue ----------

  lemma RequeueAt(t: Table, order: seq<Id>, id: Id)
    requires forall x :: x in order ==> x in t.jobs
    requires id in t.jobs
    ensures Requeue(t, order) == t.(sequence := t.sequence + |order|, jobs := Requeue(t, order).jobs)
    ensures id !in order ==> Requeue(t, order).jobs[id] == t.jobs[id]
    ensures id in order ==>
              && Requeue(t, order).jobs[id] ==
                 t.jobs[id].(state := Queued, sequence := Requeue(t, order).jobs[id].sequence)
              && t.sequence < Requeue(t, order).jobs[id].sequence <= t.sequence + |order|
  { }

  lemma RequeueOneKeeps(t: Table, cfg: Config, id: Id)
    requires Inv(t, cfg) && id in t.jobs && t.jobs[id].state == Retrying
    ensures Inv(RequeueOne(t, id), cfg)
  {
    var u := RequeueOne(t, id);
    forall x | x in u.jobs ensures JobOk(u, cfg, x) { assert JobOk(t, cfg, x); }
    forall a, b | a in u.jobs && b in u.jobs ensures PairOk(u, a, b) {
      assert PairOk(t, a, b) && JobOk(t, cfg, a) && JobOk(t, cfg, b);
    }
  }

  lemma RequeueKeeps(t: Table, cfg: Config, order: seq<Id>)
    requires Inv(t, cfg)
    requires forall x :: x in order ==> x in t.jobs && t.jobs[x].state == Retrying
    requires forall i, j :: 0 <= i < j < |order| ==> order[i] != order[j]
    ensures Inv(Requeue(t, order), cfg)
  {
    if order != [] {
      var init, last := order[..|order| - 1], order[|order| - 1];
      assert order == init + [last];
      RequeueKeeps(t, cfg, init);
      RequeueAt(t, init, last);
      assert last !in init;
      RequeueOneKeeps(Requeue(t, init), cfg, last);
    }
  }

  // ---------- the HashMap's iteration order does not matter ----------

  // There is one next job.
  lemma FrontUnique(t: Table, cfg: Config, a: Id, b: Id)
    requires Inv(t, cfg) && Front(t, a) && Front(t, b)
    ensures a == b
  { }

  lemma DueOrderUnique(t: Table, cfg: Config, now: Time, o: seq<Id>, p: seq<Id>)
    requires Inv(t, cfg) && DueOrder(t, now, o) && DueOrder(t, now, p)
    ensures o == p
  {
    SortedUnique((a, b) => a in t.jobs && b in t.jobs && DueBefore(t, a, b), o, p);
  }

  // There is one listing.
  lemma ListingUnique(t: Table, cfg: Config, o: seq<Id>, p: seq<Id>)
    requires Inv(t, cfg) && Listing(t, o) && Listing(t, p)
    ensures o == p
  {
    SortedUnique((a, b) => a in t.jobs && b in t.jobs && ListedBefore(t.jobs[a], t.jobs[b]), o, p);
  }

  lemma {:induction false} SortedUnique(before: (Id, Id) -> bool, o: seq<Id>, p: seq<Id>)
    requires forall a, b :: before(a, b) ==> !before(b, a)
    requires forall id :: id in o <==> id in p
    requires forall i, j :: 0 <= i < j < |o| ==> before(o[i], o[j])
    requires forall i, j :: 0 <= i < j < |p| ==> before(p[i], p[j])
    ensures o == p
  {
    assert |p| == 0 || p[0] in p;
    if o != [] {
      assert o[0] in o;
      var k :| 0 <= k < |p| && p[k] == o[0];
      assert p[0] in o;
      var l :| 0 <= l < |o| && o[l] == p[0];
      assert k == 0;
      var o', p' := o[1..], p[1..];
      forall id ensures id in o' <==> id in p' {
        if id in o' {
          var i :| 0 < i < |o| && o[i] == id;
          assert before(o[0], id) && id in p;
        }
        if id in p' {
          var i :| 0 < i < |p| && p[i] == id;
          assert before(p[0], id) && id in o;
        }
      }
      SortedUnique(before, o', p');
    }
  }

  // The three sections, one behind the other.
  lemma Joined(t: Table, running: seq<Id>, queue: seq<Id>, terminal: seq<Id>)
    requires forall id :: id in running <==> id in t.jobs && Section(t.jobs[id]) == 0
    requires forall id :: id in queue <==> id in t.jobs && Section(t.jobs[id]) == 1
    requires forall id :: id in terminal <==> id in t.jobs && Section(t.jobs[id]) == 2
    requires forall i, j :: 0 <= i < j < |running| ==> ListedBefore(t.jobs[running[i]], t.jobs[running[j]])
    requires forall i, j :: 0 <= i < j < |queue| ==> ListedBefore(t.jobs[queue[i]], t.jobs[queue[j]])
    requires forall i, j :: 0 <= i < j < |terminal| ==> ListedBefore(t.jobs[terminal[i]], t.jobs[terminal[j]])
    ensures Listing(t, running + queue + terminal)
  {
    var order := running + queue + terminal;
    forall i, j | 0 <= i < j < |order| ensures ListedBefore(t.jobs[order[i]], t.jobs[order[j]]) {
      assert order[i] in (if i < |running| then running else if i < |running| + |queue| then queue else terminal);
      assert order[j] in (if j < |running| then running else if j < |running| + |queue| then queue else terminal);
    }
  }
}
