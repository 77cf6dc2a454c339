/**
 Facts about stretches of a run: how one job moves from step to step, the
 measure that makes retries end, the revision watermarks, and what a client's
 clean-up calls leave behind.
 */
module BrokerHistory {
  import opened Prelude
  import opened BrokerTable
  import opened BrokerInvariants
  import opened BrokerSystem
  import opened BrokerSafety

  // Step is the manual retry of job `id`.
  ghost predicate Retries(s: System, step: Step, id: Id) {
    && step.Converse? && step.move.Serve? && step.c in s.callers && s.callers[step.c].Listening?
    && s.callers[step.c].action.ManageJob?
    && s.callers[step.c].action.op == Retry && s.callers[step.c].action.id == id
  }

  // A worker picked the job; it may have been a due retry until then.
  predicate Taken(x: Job, y: Job) {
    && x.state in {Queued, Retrying} && y.state == Running
    && y.transient == x.transient && y.invalidOutputs == x.invalidOutputs && y.cancel == x.cancel
  }

  // A worker brought the runner's outcome.
  predicate Settled(x: Job, y: Job) {
    && x.state == Running && y.state in {Succeeded, Failed, Retrying} && y.cancel == x.cancel
    && (y.state == Retrying ==> OneMoreFailure(x, y))
  }

  // Every way a step can move a job that it leaves in the table.
  ghost predicate JobMove(s: System, step: Step, s': System, id: Id)
    requires id in s.table.jobs && id in s'.table.jobs
  {
    var x, y := s.table.jobs[id], s'.table.jobs[id];
    || (Quiet(x, y) && PicksKept(s, s', id))
    || (Taken(x, y) && id in s.picks && id in s'.picks && s'.picks[id] == s.picks[id] + 1)
    || (Settled(x, y) && PicksKept(s, s', id))
    || (x.state == Failed && y.state == Queued && Retries(s, step, id))
  }

  ghost predicate PicksKept(s: System, s': System, id: Id) {
    id in s.picks ==> id in s'.picks && s'.picks[id] == s.picks[id]
  }

  ghost predicate WatermarksKept(t: Table, u: Table) {
    forall key :: key in t.revisions ==> key in u.revisions && t.revisions[key] <= u.revisions[key]
  }

  ghost predicate Evolves(s: System, step: Step, s': System) {
    && (forall id :: id in s.table.jobs && id in s'.table.jobs ==> JobMove(s, step, s', id))
    && (forall id :: id in s'.table.jobs && id !in s.table.jobs ==> id !in s.issued)
    && s.issued <= s'.issued
    && (s.table.closed ==> s'.table.closed)
    && (!step.ClearBroker? ==> WatermarksKept(s.table, s'.table))
  }

  lemma ServedEvolves(cfg: Config, s: System, c: CallerId, id: Id, flag: Flag, s': System)
    requires Safe(cfg, s) && c in s.callers && CallerNext(cfg, s, c, Serve(id, flag), s')
    ensures Evolves(s, Converse(c, Serve(id, flag)), s')
  {
    match s.callers[c].action
    case SubmitJob(r) => SubmitEvolves(cfg, s, c, r, id, flag, s');
    case ListJobs =>
    case ManageJob(op, target, epochMatches) => ManageEvolves(cfg, s, c, op, target, epochMatches, id, flag, s');
  }

  lemma SubmitEvolves(cfg: Config, s: System, c: CallerId, r: Request, id: Id, flag: Flag, s': System)
    requires Safe(cfg, s) && c in s.callers && s.callers[c].Listening? && s.callers[c].action == SubmitJob(r)
    requires CallerNext(cfg, s, c, Serve(id, flag), s')
    ensures Evolves(s, Converse(c, Serve(id, flag)), s')
  {
    assert id in s.table.jobs ==> JobKnown(cfg, s, id);
    SubmitQuiet(s.table, cfg, r, id, flag, s.now);
    forall x | x in s.table.jobs && x in s'.table.jobs ensures JobMove(s, Converse(c, Serve(id, flag)), s', x) {
      assert Quiet(s.table.jobs[x], s'.table.jobs[x]);
    }
  }

  lemma ManageEvolves(cfg: Config, s: System, c: CallerId, op: Operation, target: Id, epochMatches: bool, id: Id,
        flag: Flag, s': System)
    requires Safe(cfg, s) && c in s.callers && s.callers[c].Listening?
    requires s.callers[c].action == ManageJob(op, target, epochMatches)
    requires CallerNext(cfg, s, c, Serve(id, flag), s')
    ensures Evolves(s, Converse(c, Serve(id, flag)), s')
  {
    ManageQuiet(s.table, op, target, epochMatches, flag, s.now);
    forall x | x in s.table.jobs && x in s'.table.jobs ensures JobMove(s, Converse(c, Serve(id, flag)), s', x) {
      if !(op == Retry && x == target) { assert Quiet(s.table.jobs[x], s'.table.jobs[x]); }
    }
  }

  lemma VisitEvolves(cfg: Config, s: System, w: WorkerId, act: WorkerAct, s': System)
    requires Safe(cfg, s) && w in s.workers && act.Visit? && WorkerNext(cfg, s, w, act, s')
    ensures Evolves(s, Work(w, act), s')
  {
    hide Inv, Delay, Requeue;
    if !s.table.closed {
      var ready := Requeue(s.table, act.order);
      RequeueQuiet(s.table, s.now, act.order);
      forall x | x in s.table.jobs && x in s'.table.jobs ensures JobMove(s, Work(w, act), s', x) {
        assert Quiet(s.table.jobs[x], ready.jobs[x]);
        if act.choice != Some(x) { assert s'.table.jobs[x] == ready.jobs[x]; }
      }
    }
  }

  lemma CompletedEvolves(cfg: Config, s: System, w: WorkerId, u: Table, changed: bool, s': System)
    requires Safe(cfg, s) && w in s.workers && s.workers[w].Returned?
    requires Completed(s.table, u, s.workers[w].id, changed)
    requires s' == SetWorker(s.(table := u), w, if changed then Reporting else Starting)
    ensures Evolves(s, Work(w, Settle), s')
  {
    var id := s.workers[w].id;
    assert WorkerOk(s, w);
    forall x | x in s.table.jobs ensures x in s'.table.jobs && JobMove(s, Work(w, Settle), s', x) {
      if x != id || !changed {
        assert s'.table.jobs[x] == s.table.jobs[x];
      } else {
        assert Settled(s.table.jobs[x], u.jobs[x]);
      }
    }
  }

  lemma SettleEvolves(cfg: Config, s: System, w: WorkerId, s': System)
    requires Safe(cfg, s) && w in s.workers && WorkerNext(cfg, s, w, Settle, s')
    ensures Evolves(s, Work(w, Settle), s')
  {
    var me := s.workers[w];
    var (u, changed) := Complete(s.table, cfg, me.id, me.outcome, s.now);
    CompleteCompletes(s.table, cfg, me.id, me.outcome, s.now);
    CompletedEvolves(cfg, s, w, u, changed, s');
  }

  lemma StepEvolves(cfg: Config, s: System, step: Step, s': System)
    requires Safe(cfg, s) && Transition(cfg, s, step, s')
    ensures Evolves(s, step, s')
  {
    match step
    case Work(w, Visit(_, _, _)) => VisitEvolves(cfg, s, w, step.act, s');
    case Work(w, Settle) => SettleEvolves(cfg, s, w, s');
    case Converse(c, Serve(id, flag)) => ServedEvolves(cfg, s, c, id, flag, s');
    case _ =>
  }

  // ---------- retries end ----------

  function Larger(a: nat, b: nat): nat { if a < b then b else a }

  // What is left of both budgets, and where in the cycle queued, running,
  // retrying the job stands.
  function Measure(cfg: Config, j: Job): int {
    if j.Terminal() then 0
    else 3 * (2 - j.transient + Larger(cfg.schemaAttempts, 1) - 1 - j.invalidOutputs)
         + match j.state case Running => 1 case Queued => 2 case _ => 3
  }

  // Short of a manual retry, no step raises a job's measure, and each pick and
  // each completion that changes the job lowers it.
  lemma RetriesEnd(cfg: Config, run: Run, i: nat, id: Id)
    requires IsRun(cfg, run) && i < |run.steps|
    requires id in run.states[i].table.jobs && id in run.states[i + 1].table.jobs
    requires !Retries(run.states[i], run.steps[i], id)
    ensures var s, s' := run.states[i], run.states[i + 1];
            var x, y := s.table.jobs[id], s'.table.jobs[id];
            && id in s.picks && id in s'.picks
            && 0 <= Measure(cfg, y) <= Measure(cfg, x)
            && (s'.picks[id] != s.picks[id] || (x.state == Running && y.state != Running) ==>
              Measure(cfg, y) < Measure(cfg, x))
  {
    RunSafe(cfg, run, i);
    RunSafe(cfg, run, i + 1);
    var s, s' := run.states[i], run.states[i + 1];
    RunEvolves(cfg, run, i);
    assert JobMove(s, run.steps[i], s', id);
    assert JobKnown(cfg, s, id) && JobKnown(cfg, s', id);
    assert JobOk(s.table, cfg, id) && JobOk(s'.table, cfg, id);
  }

  // ---------- stretches of a run ----------

  lemma RunEvolves(cfg: Config, run: Run, k: nat)
    requires IsRun(cfg, run) && k < |run.steps|
    ensures Safe(cfg, run.states[k]) && Evolves(run.states[k], run.steps[k], run.states[k + 1])
  {
    RunSafe(cfg, run, k);
    assert StepAt(cfg, run, k);
    StepEvolves(cfg, run.states[k], run.steps[k], run.states[k + 1]);
  }

  // The parts of Evolves that the inductions below need.
  lemma IdsStep(cfg: Config, run: Run, k: nat)
    requires IsRun(cfg, run) && k < |run.steps|
    ensures run.states[k].issued <= run.states[k + 1].issued
    ensures forall id :: id in run.states[k + 1].table.jobs && id in run.states[k].issued ==>
              id in run.states[k].table.jobs
    ensures run.states[k].table.closed ==> run.states[k + 1].table.closed
  {
    RunEvolves(cfg, run, k);
  }

  lemma SupersededStep(cfg: Config, run: Run, k: nat, id: Id)
    requires IsRun(cfg, run) && k < |run.steps|
    requires id in run.states[k].table.jobs && id in run.states[k + 1].table.jobs
    requires run.states[k].table.jobs[id].state == Superseded
    ensures run.states[k + 1].table.jobs[id].state == Superseded
  {
    RunEvolves(cfg, run, k);
    assert JobMove(run.states[k], run.steps[k], run.states[k + 1], id);
  }

  lemma WatermarksStep(cfg: Config, run: Run, k: nat)
    requires IsRun(cfg, run) && k < |run.steps| && !run.steps[k].ClearBroker?
    ensures WatermarksKept(run.states[k].table, run.states[k + 1].table)
  {
    RunEvolves(cfg, run, k);
  }

  lemma {:induction false} IssuedGrows(cfg: Config, run: Run, i: nat, j: nat)
    requires IsRun(cfg, run) && i <= j < |run.states|
    ensures run.states[i].issued <= run.states[j].issued
  {
    if i < j {
      IssuedGrows(cfg, run, i, j - 1);
      IdsStep(cfg, run, j - 1);
    }
  }

  // A job that was in the table, and still is, was there all along: ids do not
  // come back.
  lemma {:induction false} NoReturn(cfg: Config, run: Run, i: nat, j: nat, id: Id)
    requires IsRun(cfg, run) && i <= j < |run.states|
    requires id in run.states[i].table.jobs && id in run.states[j].table.jobs
    ensures forall k :: i <= k <= j ==> id in run.states[k].table.jobs
  {
    if i < j {
      assert id in run.states[i].issued by {
        RunSafe(cfg, run, i);
        assert JobKnown(cfg, run.states[i], id);
      }
      IssuedGrows(cfg, run, i, j - 1);
      IdsStep(cfg, run, j - 1);
      NoReturn(cfg, run, i, j - 1, id);
    }
  }

  // Recorded revisions never decrease until clear().
  lemma {:induction false} RevisionsNeverDecrease(cfg: Config, run: Run, i: nat, j: nat)
    requires IsRun(cfg, run) && i <= j < |run.states|
    requires forall k :: i <= k < j ==> !run.steps[k].ClearBroker?
    ensures WatermarksKept(run.states[i].table, run.states[j].table)
  {
    if i < j {
      RevisionsNeverDecrease(cfg, run, i, j - 1);
      WatermarksStep(cfg, run, j - 1);
    }
  }

  // A superseded job never becomes anything else, not even by a retry.
  lemma {:induction false} SupersededForGood(cfg: Config, run: Run, i: nat, j: nat, id: Id)
    requires IsRun(cfg, run) && i <= j < |run.states|
    requires id in run.states[i].table.jobs && id in run.states[j].table.jobs
    requires run.states[i].table.jobs[id].state == Superseded
    ensures run.states[j].table.jobs[id].state == Superseded
  {
    if i < j {
      NoReturn(cfg, run, i, j, id);
      SupersededForGood(cfg, run, i, j - 1, id);
      SupersededStep(cfg, run, j - 1, id);
    }
  }

  // A refused submit leaves jobs, flags and revisions untouched, and says why.
  lemma RefusedSubmitIsSilent(t: Table, cfg: Config, r: Request, id: Id, flag: Flag, now: Time)
    ensures var (u, reply) := Submit(t, cfg, r, id, flag, now);
            && (reply.Refused? ==> u == t.(activity := now))
            && (reply.Refused? <==>
                  || t.closed
                  || |t.jobs| >= cfg.capacity
                  || (r.item.Some? && Key(r) in t.revisions && r.item.value.revision <= t.revisions[Key(r)])
                  || (r.item.Some? && Key(r) !in t.revisions && |t.revisions| >= MAX_PAIRS))
  { }

  // An accepted submit makes its job the current one of its item, supersedes
  // every other, and touches no job of another item.
  lemma AcceptedSubmitSupersedes(t: Table, cfg: Config, r: Request, id: Id, flag: Flag, now: Time, other: Id)
    requires id !in t.jobs && other in t.jobs
    requires Submit(t, cfg, r, id, flag, now).1.Accepted?
    ensures var u := Submit(t, cfg, r, id, flag, now).0;
            && u.jobs.Keys == t.jobs.Keys + {id} && u.jobs[id].state == Queued && u.jobs[id].request == r
            && (r.item.Some? ==> Key(r) in u.revisions && u.revisions[Key(r)] == r.item.value.revision)
            && if SharesItem(t.jobs[other], u.jobs[id])
               then u.jobs[other].state == Superseded && u.jobs[other].result.None? && u.jobs[other].cancel in u.raised
               else u.jobs[other] == t.jobs[other]
  { }

  // ---------- a client's clean-up ----------

  // Step i of the run is the block that answers `op` for job `id`.
  ghost predicate Answers(run: Run, i: nat, op: Operation, id: Id)
    requires |run.states| == |run.steps| + 1 && i < |run.steps|
  {
    var s, step := run.states[i], run.steps[i];
    && step.Converse? && step.move.Serve? && step.c in s.callers
    && s.callers[step.c].Listening? && s.callers[step.c].action == ManageJob(op, id, true)
  }

  ghost predicate Over(s: System, id: Id) {
    id in s.table.jobs ==> s.table.jobs[id].Terminal()
  }

  lemma OverStep(cfg: Config, s: System, step: Step, s': System, id: Id)
    requires Safe(cfg, s) && Transition(cfg, s, step, s')
    requires Over(s, id) && id in s.issued && !Retries(s, step, id)
    ensures Over(s', id) && id in s'.issued && (id in s'.table.jobs ==> id in s.table.jobs)
  {
    hide Transition, Safe;
    StepEvolves(cfg, s, step, s');
    assert id in s.table.jobs && id in s'.table.jobs ==> JobMove(s, step, s', id);
  }

  // Once over, a job stays over (or goes) as long as nobody retries it.
  lemma {:induction false} OverStaysOver(cfg: Config, run: Run, i: nat, j: nat, id: Id)
    requires IsRun(cfg, run) && i <= j < |run.states|
    requires forall k :: i <= k < j ==> !Retries(run.states[k], run.steps[k], id)
    requires id in run.states[i].issued && Over(run.states[i], id)
    ensures Over(run.states[j], id) && id in run.states[j].issued
  {
    if i < j {
      OverStaysOver(cfg, run, i, j - 1, id);
      RunSafe(cfg, run, j - 1);
      assert StepAt(cfg, run, j - 1);
      OverStep(cfg, run.states[j - 1], run.steps[j - 1], run.states[j], id);
    }
  }

  lemma {:induction false} ClosedForGood(cfg: Config, run: Run, i: nat, j: nat)
    requires IsRun(cfg, run) && i <= j < |run.states|
    requires run.states[i].table.closed
    ensures run.states[j].table.closed
  {
    if i < j {
      ClosedForGood(cfg, run, i, j - 1);
      IdsStep(cfg, run, j - 1);
    }
  }

  // How the analysis worker of the maintenance service leaves a job: it asks for
  // the status (step a); unless the reply names an end state it cancels (step
  // b); unless the reply said failed it releases (step c).
  ghost predicate CleansUp(run: Run, a: nat, b: nat, c: nat, id: Id)
    requires |run.states| == |run.steps| + 1 && a <= b <= c < |run.steps|
  {
    && Answers(run, a, Status, id)
    && StatusSays(run.states[a].table, id) != Some(Failed)
    && (StatusSays(run.states[a].table, id) !in {Some(Succeeded), Some(Cancelled), Some(Superseded)} ==>
          a < b < c && Answers(run, b, Cancel, id))
    && Answers(run, c, Release, id)
  }

  // The state that a status reply names; an error names none.
  ghost function StatusSays(t: Table, id: Id): Option<State> {
    match Manage(t, Status, id, true, 0, 0).1
    case Some(Shown(state, _)) => Some(state)
    case _ => None
  }

  // In every interleaving with workers and other clients, if nobody retries the
  // job, then after these calls it is gone, exactly unless the broker was
  // closed first; a status reply of failed never gets to the release.
  lemma CleanUpLeavesNothing(cfg: Config, run: Run, a: nat, b: nat, c: nat, id: Id)
    requires IsRun(cfg, run) && a <= b <= c < |run.steps| && CleansUp(run, a, b, c, id)
    requires id in run.states[a].issued
    requires forall k :: a <= k < c ==> !Retries(run.states[k], run.steps[k], id)
    ensures id in run.states[c + 1].table.jobs <==> id in run.states[c].table.jobs && run.states[c].table.closed
  {
    assert StepAt(cfg, run, c);
    if !run.states[c].table.closed {
      if run.states[a].table.closed { ClosedForGood(cfg, run, a, c); }
      if id in run.states[a].table.jobs && !run.states[a].table.jobs[id].Terminal() {
        if run.states[b].table.closed { ClosedForGood(cfg, run, b, c); }
        IssuedGrows(cfg, run, a, b + 1);
        assert StepAt(cfg, run, b);
        OverStaysOver(cfg, run, b + 1, c, id);
      } else {
        OverStaysOver(cfg, run, a, c, id);
      }
    }
  }
}
