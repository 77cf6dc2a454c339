/**
 Who runs what, over every interleaving: a job is running exactly when one
 worker has it in flight, stale completions change nothing, and the retry
 budgets account for every pick.
 */
module BrokerSafety {
  import opened Prelude
  import opened BrokerTable
  import opened BrokerInvariants
  import opened BrokerSystem

  ghost predicate Carries(s: System, w: WorkerId, id: Id) {
    w in s.workers && s.workers[w].InFlight() && s.workers[w].id == id
  }

  // What is in flight is running under the worker's own flag, or was stopped.
  ghost predicate WorkerOk(s: System, w: WorkerId)
    requires w in s.workers
  {
    var me := s.workers[w];
    me.InFlight() ==>
      && me.id in s.issued
      && (me.id in s.table.jobs ==>
            var j := s.table.jobs[me.id];
            j.state in {Running, Cancelled, Superseded} && (j.state == Running ==> j.cancel == me.flag))
  }

  ghost predicate WorkersApart(s: System, v: WorkerId, w: WorkerId) {
    forall id: Id :: Carries(s, v, id) && Carries(s, w, id) ==> v == w
  }

  function PickBound(cfg: Config): nat {
    if cfg.schemaAttempts == 0 then 1 else cfg.schemaAttempts + 2
  }

  ghost predicate JobKnown(cfg: Config, s: System, id: Id)
    requires id in s.table.jobs
  {
    var j := s.table.jobs[id];
    && id in s.issued && j.cancel in s.flags && id in s.picks
    && s.picks[id] <= PickBound(cfg)
    && (!j.Terminal() ==>
          s.picks[id] == j.transient + j.invalidOutputs + if j.state == Running then 1 else 0)
    && (j.state == Running ==> exists w :: Carries(s, w, id))
  }

  ghost predicate Safe(cfg: Config, s: System) {
    && Inv(s.table, cfg) && s.table.raised <= s.flags
    && (forall w {:trigger WorkerOk(s, w)} :: w in s.workers ==> WorkerOk(s, w))
    && (forall v: WorkerId, w: WorkerId {:trigger WorkersApart(s, v, w)} :: WorkersApart(s, v, w))
    && (forall id {:trigger JobKnown(cfg, s, id)} :: id in s.table.jobs ==> JobKnown(cfg, s, id))
  }

  // How a job may change in a block that is not about it.
  predicate Quiet(x: Job, y: Job) {
    || (&& y.transient == x.transient && y.invalidOutputs == x.invalidOutputs && y.cancel == x.cancel
        && y.result == x.result
        && (y.state == x.state || (x.state == Retrying && y.state == Queued)))
    || (!x.Terminal() && y.state == Cancelled && y.cancel == x.cancel)
    || (y.state == Superseded && y.cancel == x.cancel)
  }

  ghost predicate QuietBut(t: Table, u: Table, special: set<Id>) {
    forall id {:trigger u.jobs[id]} :: id in u.jobs && id !in special ==> id in t.jobs && Quiet(t.jobs[id], u.jobs[id])
  }

  // ---------- each block, seen from the other jobs ----------

  lemma SubmitQuiet(t: Table, cfg: Config, r: Request, id: Id, flag: Flag, now: Time)
    requires id !in t.jobs
    ensures var (u, reply) := Submit(t, cfg, r, id, flag, now);
            && QuietBut(t, u, if reply.Refused? then {} else {id})
            && (reply.Refused? ==> u.jobs == t.jobs && u.revisions == t.revisions && u.raised == t.raised)
            && (reply.Accepted? ==>
              reply.id == id && id in u.jobs && u.jobs[id] == NewJob(r, t.sequence + 1, flag, now))
            && (forall f :: f in u.raised ==> f in t.raised || exists x :: x in t.jobs && t.jobs[x].cancel == f)
            && u.closed == t.closed
  { }

  lemma ManageQuiet(t: Table, op: Operation, id: Id, epochMatches: bool, flag: Flag, now: Time)
    ensures var (u, reply) := Manage(t, op, id, epochMatches, flag, now);
            var retried := op == Retry && reply.Some? && !reply.value.Refused?;
            && QuietBut(t, u, if retried then {id} else {})
            && (retried ==> id in t.jobs && t.jobs[id].state == Failed && u.jobs[id] == Requeued(t.jobs[id], flag, now))
            && (reply.None? || reply.value.Refused? ==>
              u.jobs == t.jobs && u.revisions == t.revisions && u.raised == t.raised)
            && (forall f :: f in u.raised ==> f in t.raised || exists x :: x in t.jobs && t.jobs[x].cancel == f)
            && u.closed == t.closed
  { }

  lemma CloseQuiet(t: Table, now: Time)
    ensures QuietBut(t, Close(t, now), {})
    ensures forall f :: f in Close(t, now).raised ==> f in t.raised || exists x :: x in t.jobs && t.jobs[x].cancel == f
  { }

  lemma RequeueQuiet(t: Table, now: Time, order: seq<Id>)
    requires DueOrder(t, now, order)
    ensures Requeue(t, order).jobs.Keys == t.jobs.Keys && QuietBut(t, Requeue(t, order), {})
    ensures Requeue(t, order).raised == t.raised && Requeue(t, order).revisions == t.revisions
    ensures Requeue(t, order).closed == t.closed
    ensures order == [] ==> Requeue(t, order) == t
    ensures forall id :: id in t.jobs ==>
              (id in order <==> t.jobs[id].state == Retrying && Requeue(t, order).jobs[id].state == Queued)
  {
    assert forall id :: id in order ==> id in t.jobs;
    forall id | id in t.jobs
      ensures Quiet(t.jobs[id], Requeue(t, order).jobs[id])
      ensures id in order <==> t.jobs[id].state == Retrying && Requeue(t, order).jobs[id].state == Queued
      ensures Requeue(t, order).raised == t.raised && Requeue(t, order).revisions == t.revisions
      ensures Requeue(t, order).closed == t.closed
    {
      RequeueAt(t, order, id);
    }
    if order != [] { assert order[0] in order; }
  }

  // ---------- one step keeps the system safe ----------

  // Worker w has the same job in flight before and after, unless it is `special`.
  ghost predicate FlightKept(s: System, s': System, w: WorkerId, special: Option<Id>)
    requires w in s.workers && w in s'.workers
  {
    var me, you := s.workers[w], s'.workers[w];
    && (me.InFlight() && special != Some(me.id) ==> you.InFlight() && you.id == me.id)
    && (you.InFlight() && special != Some(you.id) ==> me.InFlight() && you.id == me.id && you.flag == me.flag)
    && (you.InFlight() && special == Some(you.id) ==> WorkerOk(s', w))
  }

  // Everything but the job `special` (if any) and the worker that carries it is
  // as before; `special` and its carrier are put right by the caller.
  lemma Carry(cfg: Config, s: System, s': System, special: Option<Id>)
    requires Safe(cfg, s) && Inv(s'.table, cfg)
    requires s.issued <= s'.issued && s.flags <= s'.flags && s'.table.raised <= s'.flags
    requires QuietBut(s.table, s'.table, if special.Some? then {special.value} else {})
    requires forall id :: id in s.picks && special != Some(id) ==> id in s'.picks && s'.picks[id] == s.picks[id]
    requires s'.workers.Keys == s.workers.Keys
    requires forall w {:trigger FlightKept(s, s', w, special)} :: w in s.workers ==> FlightKept(s, s', w, special)
    requires special.Some? ==>
               forall v: WorkerId, w: WorkerId :: Carries(s', v, special.value) && Carries(s', w, special.value) ==>
                 v == w
    requires special.Some? && special.value in s'.table.jobs ==> JobKnown(cfg, s', special.value)
    ensures Safe(cfg, s')
  {
    forall w | w in s'.workers ensures WorkerOk(s', w) {
      assert WorkerOk(s, w) && FlightKept(s, s', w, special);
    }
    forall v: WorkerId, w: WorkerId ensures WorkersApart(s', v, w) {
      forall id: Id | Carries(s', v, id) && Carries(s', w, id) ensures v == w {
        if special != Some(id) {
          assert FlightKept(s, s', v, special) && FlightKept(s, s', w, special);
          assert WorkersApart(s, v, w) && Carries(s, v, id) && Carries(s, w, id);
        }
      }
    }
    forall id | id in s'.table.jobs ensures JobKnown(cfg, s', id) {
      if special != Some(id) {
        assert JobKnown(cfg, s, id);
        if s'.table.jobs[id].state == Running {
          var w :| Carries(s, w, id);
          assert FlightKept(s, s', w, special);
          assert Carries(s', w, id);
        }
      }
    }
  }

  lemma SafeInitially(cfg: Config, s: System)
    requires Init(cfg, s)
    ensures Safe(cfg, s)
  { }

  lemma FlagsKnown(cfg: Config, s: System, u: Table, flags: set<Flag>)
    requires Safe(cfg, s) && s.flags <= flags
    requires forall f :: f in u.raised ==>
               f in s.table.raised || exists x :: x in s.table.jobs && s.table.jobs[x].cancel == f
    ensures u.raised <= flags
  {
    forall f | f in u.raised ensures f in flags {
      if f !in s.table.raised {
        var x :| x in s.table.jobs && s.table.jobs[x].cancel == f;
        assert JobKnown(cfg, s, x);
      }
    }
  }

  lemma FreshFlagKnown(cfg: Config, s: System, flag: Flag)
    requires Safe(cfg, s) && flag !in s.flags
    ensures FreshFlag(s.table, flag)
  {
    forall x | x in s.table.jobs ensures s.table.jobs[x].cancel != flag { assert JobKnown(cfg, s, x); }
  }

  // No worker carries a job that is neither running nor stopped, or not issued yet.
  lemma NotCarried(cfg: Config, s: System, id: Id)
    requires Safe(cfg, s)
    requires id !in s.issued || (id in s.table.jobs && s.table.jobs[id].state !in {Running, Cancelled, Superseded})
    ensures forall w: WorkerId :: !Carries(s, w, id)
  {
    forall w: WorkerId ensures !Carries(s, w, id) {
      if w in s.workers { assert WorkerOk(s, w); }
    }
  }

  lemma SubmitSafe(cfg: Config, s: System, c: CallerId, r: Request, woken: bool, id: Id, flag: Flag, s': System)
    requires Safe(cfg, s) && Served(cfg, s, c, SubmitJob(r), woken, id, flag, s')
    ensures Safe(cfg, s')
  {
    var (u, reply) := Submit(s.table, cfg, r, id, flag, s.now);
    assert id in s.table.jobs ==> JobKnown(cfg, s, id);
    SubmitQuiet(s.table, cfg, r, id, flag, s.now);
    FreshFlagKnown(cfg, s, flag);
    SubmitKeeps(s.table, cfg, r, id, flag, s.now);
    FlagsKnown(cfg, s, u, s'.flags);
    NotCarried(cfg, s, id);
    forall w: WorkerId ensures !Carries(s', w, id) && !Carries(s, w, id) { assert !Carries(s, w, id); }
    if reply.Accepted? {
      assert JobKnown(cfg, s', id);
      forall w | w in s.workers ensures FlightKept(s, s', w, Some(id)) { assert !Carries(s, w, id); }
      Carry(cfg, s, s', Some(id));
    } else {
      Carry(cfg, s, s', None);
    }
  }

  lemma ManageSafe(cfg: Config, s: System, c: CallerId, op: Operation, target: Id, epochMatches: bool, woken: bool,
        id: Id, flag: Flag, s': System)
    requires Safe(cfg, s) && Served(cfg, s, c, ManageJob(op, target, epochMatches), woken, id, flag, s')
    ensures Safe(cfg, s')
  {
    var (u, reply) := Manage(s.table, op, target, epochMatches, flag, s.now);
    FreshFlagKnown(cfg, s, flag);
    ManageKeeps(s.table, cfg, op, target, epochMatches, flag, s.now);
    ManageQuiet(s.table, op, target, epochMatches, flag, s.now);
    FlagsKnown(cfg, s, u, s'.flags);
    if op == Retry && reply.Some? && !reply.value.Refused? {
      assert JobKnown(cfg, s, target);
      NotCarried(cfg, s, target);
      forall w: WorkerId ensures !Carries(s', w, target) && !Carries(s, w, target) { assert !Carries(s, w, target); }
      assert JobKnown(cfg, s', target);
      forall w | w in s.workers ensures FlightKept(s, s', w, Some(target)) { assert !Carries(s, w, target); }
      Carry(cfg, s, s', Some(target));
    } else {
      Carry(cfg, s, s', None);
    }
  }

  lemma CallerSafe(cfg: Config, s: System, c: CallerId, move: CallerAct, s': System)
    requires Safe(cfg, s) && c in s.callers && CallerNext(cfg, s, c, move, s')
    ensures Safe(cfg, s')
  {
    match move
    case Serve(id, flag) =>
      var me := s.callers[c];
      match me.action {
        case SubmitJob(r) => SubmitSafe(cfg, s, c, r, me.woken, id, flag, s');
        case ListJobs =>
          TouchKeeps(s.table, cfg, s.now, List(s.table, s.now).0.retired);
          Carry(cfg, s, s', None);
        case ManageJob(op, target, epochMatches) =>
          ManageSafe(cfg, s, c, op, target, epochMatches, me.woken, id, flag, s');
      }
    case _ => Carry(cfg, s, s', None);
  }

  lemma TakenSafe(cfg: Config, s: System, w: WorkerId, ready: Table, id: Id, s': System)
    requires Safe(cfg, s) && w in s.workers && !s.workers[w].InFlight()
    requires ready.jobs.Keys == s.table.jobs.Keys && QuietBut(s.table, ready, {}) && ready.raised == s.table.raised
    requires id in ready.jobs && ready.jobs[id].state == Queued && id in s.picks
    requires s' == SetWorker(s.(table := Take(ready, id, s.now), picks := s.picks[id := s.picks[id] + 1]), w,
                             Announcing(id, s.table.jobs[id].cancel))
    requires Inv(ready, cfg) && Inv(s'.table, cfg)
    ensures Safe(cfg, s')
  {
    assert JobKnown(cfg, s, id) && JobOk(ready, cfg, id) && Quiet(s.table.jobs[id], ready.jobs[id]);
    NotCarried(cfg, s, id);
    forall v | v in s.workers ensures FlightKept(s, s', v, Some(id)) { assert !Carries(s, v, id); }
    forall v: WorkerId | Carries(s', v, id) ensures v == w { assert !Carries(s, v, id); }
    assert Carries(s', w, id);
    assert JobKnown(cfg, s', id);
    Carry(cfg, s, s', Some(id));
  }

  lemma VisitSafe(cfg: Config, s: System, w: WorkerId, woken: bool, order: seq<Id>, choice: Option<Id>, delay: Time,
        s': System)
    requires Safe(cfg, s) && w in s.workers && s.workers[w] == Watching(woken)
    requires Visited(s, w, woken, order, choice, delay, s')
    ensures Safe(cfg, s')
  {
    hide Inv, Picked, Delay, Requeue;
    if s.table.closed {
      RestSafe(cfg, s, w, s.table, Stopped, s');
    } else {
      RequeueSafe(cfg, s.table, s.now, order);
      RequeueQuiet(s.table, s.now, order);
      var ready := Requeue(s.table, order);
      if choice.Some? {
        PickedFront(ready, choice);
        TakeKeeps(ready, cfg, choice.value, s.now);
        TakenSafe(cfg, s, w, ready, choice.value, s');
      } else {
        RestSafe(cfg, s, w, ready, Asleep(woken, s.now + delay), s');
      }
    }
  }

  lemma PickedFront(t: Table, choice: Option<Id>)
    requires Picked(t, choice) && choice.Some?
    ensures Front(t, choice.value)
  { }

  // A worker with nothing in flight stops or goes to sleep.
  lemma RestSafe(cfg: Config, s: System, w: WorkerId, u: Table, to: Worker, s': System)
    requires Safe(cfg, s) && w in s.workers && !s.workers[w].InFlight() && !to.InFlight()
    requires Inv(u, cfg) && QuietBut(s.table, u, {}) && u.raised == s.table.raised
    requires s' == SetWorker(s.(table := u), w, to)
    ensures Safe(cfg, s')
  {
    hide Inv;
    Carry(cfg, s, s', None);
  }

  lemma RequeueSafe(cfg: Config, t: Table, now: Time, order: seq<Id>)
    requires Inv(t, cfg) && DueOrder(t, now, order)
    ensures Inv(Requeue(t, order), cfg)
  {
    forall i, j | 0 <= i < j < |order| ensures order[i] != order[j] {
      assert order[i] in order && order[j] in order && DueBefore(t, order[i], order[j]);
    }
    RequeueKeeps(t, cfg, order);
  }

  predicate OneMoreFailure(x: Job, y: Job) {
    || (y.transient == x.transient + 1 && y.invalidOutputs == x.invalidOutputs)
    || (y.transient == x.transient && y.invalidOutputs == x.invalidOutputs + 1)
  }

  // What a completion does to its own job: nothing, or an end, or one more
  // failure and a retry.
  ghost predicate Completed(t: Table, u: Table, id: Id, changed: bool) {
    && u.closed == t.closed && u.revisions == t.revisions
    && (!changed ==> u.jobs == t.jobs && u.raised == t.raised && (id in t.jobs ==> t.jobs[id].Terminal()))
    && (changed ==>
          && id in t.jobs && !t.jobs[id].Terminal()
          && u.jobs.Keys == t.jobs.Keys && u.jobs == t.jobs[id := u.jobs[id]]
          && u.jobs[id].cancel == t.jobs[id].cancel
          && (u.raised == t.raised || u.raised == t.raised + {t.jobs[id].cancel})
          && u.jobs[id].state in {Succeeded, Failed, Retrying}
          && (u.jobs[id].state == Retrying ==> OneMoreFailure(t.jobs[id], u.jobs[id])))
  }

  lemma CompleteCompletes(t: Table, cfg: Config, id: Id, outcome: Outcome, now: Time)
    ensures var (u, changed) := Complete(t, cfg, id, outcome, now); Completed(t, u, id, changed)
  { }

  lemma CompletedSafe(cfg: Config, s: System, w: WorkerId, u: Table, changed: bool, s': System)
    requires Safe(cfg, s) && w in s.workers && s.workers[w].Returned?
    requires Completed(s.table, u, s.workers[w].id, changed) && Inv(u, cfg)
    requires s' == SetWorker(s.(table := u), w, if changed then Reporting else Starting)
    ensures Safe(cfg, s')
  {
    var id := s.workers[w].id;
    assert WorkerOk(s, w) && Carries(s, w, id);
    forall v: WorkerId ensures !Carries(s', v, id) { assert WorkersApart(s, v, w); }
    if id in u.jobs {
      assert JobKnown(cfg, s, id) && JobOk(s.table, cfg, id) && JobOk(u, cfg, id);
      assert JobKnown(cfg, s', id);
    }
    forall v | v in s.workers ensures FlightKept(s, s', v, Some(id)) { assert !Carries(s', v, id); }
    Carry(cfg, s, s', Some(id));
  }

  lemma SettleSafe(cfg: Config, s: System, w: WorkerId, s': System)
    requires Safe(cfg, s) && w in s.workers && WorkerNext(cfg, s, w, Settle, s')
    ensures Safe(cfg, s')
  {
    var me := s.workers[w];
    CompleteKeeps(s.table, cfg, me.id, me.outcome, s.now);
    CompleteCompletes(s.table, cfg, me.id, me.outcome, s.now);
    var (u, changed) := Complete(s.table, cfg, me.id, me.outcome, s.now);
    CompletedSafe(cfg, s, w, u, changed, s');
  }

  lemma WorkerSafe(cfg: Config, s: System, w: WorkerId, act: WorkerAct, s': System)
    requires Safe(cfg, s) && w in s.workers && WorkerNext(cfg, s, w, act, s')
    ensures Safe(cfg, s')
  {
    var me := s.workers[w];
    match act
    case Visit(order, choice, delay) => VisitSafe(cfg, s, w, me.woken, order, choice, delay, s');
    case Choose(selection) =>
      SelectKeeps(s.table, cfg, me.id, me.flag, selection, s.now);
      Carry(cfg, s, s', None);
    case Settle => SettleSafe(cfg, s, w, s');
    case _ => Carry(cfg, s, s', None);
  }

  lemma StepSafe(cfg: Config, s: System, step: Step, s': System)
    requires Safe(cfg, s) && Transition(cfg, s, step, s')
    ensures Safe(cfg, s')
  {
    match step
    case Work(w, act) => WorkerSafe(cfg, s, w, act, s');
    case Converse(c, move) => CallerSafe(cfg, s, c, move, s');
    case CloseBroker =>
      CloseKeeps(s.table, cfg, s.now);
      CloseQuiet(s.table, s.now);
      FlagsKnown(cfg, s, Close(s.table, s.now), s.flags);
      Carry(cfg, s, s', None);
    case _ => Carry(cfg, s, s', None);
  }

  lemma {:induction false} RunSafe(cfg: Config, run: Run, i: nat)
    requires IsRun(cfg, run) && i < |run.states|
    ensures Safe(cfg, run.states[i])
  {
    if i == 0 { SafeInitially(cfg, run.states[0]); }
    else {
      RunSafe(cfg, run, i - 1);
      assert StepAt(cfg, run, i - 1);
      StepSafe(cfg, run.states[i - 1], run.steps[i - 1], run.states[i]);
    }
  }

  // ---------- what a reachable system looks like ----------

  // A job is running exactly when a worker has it in flight and nobody has
  // stopped it. No two workers ever hold one job, not even a stopped one, and
  // whatever else is in flight is absent, cancelled or superseded.
  lemma OneWorkerPerRunningJob(cfg: Config, run: Run, i: nat, id: Id)
    requires IsRun(cfg, run) && i < |run.states|
    ensures var s := run.states[i];
            && (forall v: WorkerId, w: WorkerId :: Carries(s, v, id) && Carries(s, w, id) ==> v == w)
            && (id in s.table.jobs ==>
                  var state := s.table.jobs[id].state;
                  && (state == Running <==>
                    (exists w: WorkerId :: Carries(s, w, id)) && state !in {Cancelled, Superseded})
                  && ((exists w: WorkerId :: Carries(s, w, id)) ==> state in {Running, Cancelled, Superseded}))
  {
    RunSafe(cfg, run, i);
    var s := run.states[i];
    forall v: WorkerId, w: WorkerId | Carries(s, v, id) && Carries(s, w, id) ensures v == w {
      assert WorkersApart(s, v, w);
    }
    if id in s.table.jobs {
      assert JobKnown(cfg, s, id);
      forall w: WorkerId | Carries(s, w, id) ensures s.table.jobs[id].state in {Running, Cancelled, Superseded} {
        assert WorkerOk(s, w);
      }
    }
  }

  // A completion for a job that is no longer running (it was cancelled,
  // superseded, released or cleared) leaves every job, flag, revision and
  // retired entry alone, and the selection it may still try to store does too.
  lemma StaleCompletionIsSilent(cfg: Config, run: Run, i: nat, w: WorkerId, act: WorkerAct, s': System)
    requires IsRun(cfg, run) && i < |run.states|
    requires w in run.states[i].workers && WorkerNext(cfg, run.states[i], w, act, s')
    requires act.Choose? || act.Settle?
    requires var t, id := run.states[i].table, run.states[i].workers[w].id;
             id !in t.jobs || t.jobs[id].state != Running
    ensures s'.table == run.states[i].table.(activity := s'.table.activity)
    ensures !s'.workers[w].Owes()
  {
    RunSafe(cfg, run, i);
    assert WorkerOk(run.states[i], w);
  }

  // A running job's completion, on the other hand, always takes effect.
  lemma RunningCompletionCounts(cfg: Config, run: Run, i: nat, w: WorkerId, s': System)
    requires IsRun(cfg, run) && i < |run.states|
    requires w in run.states[i].workers && WorkerNext(cfg, run.states[i], w, Settle, s')
    requires var t, id := run.states[i].table, run.states[i].workers[w].id;
             id in t.jobs && t.jobs[id].state == Running
    ensures var id := run.states[i].workers[w].id;
            id in s'.table.jobs && s'.table.jobs[id].state in {Succeeded, Failed, Retrying} &&
              s'.workers[w] == Reporting
  { }

  // Since its submission or last manual retry a job was picked once for every
  // failure it has on record, and once more if it is running now.
  lemma PicksAccountedFor(cfg: Config, run: Run, i: nat, id: Id)
    requires IsRun(cfg, run) && i < |run.states| && id in run.states[i].table.jobs
    ensures var s := run.states[i]; var j := s.table.jobs[id];
            && id in s.picks
            && (!j.Terminal() ==> s.picks[id] == j.transient + j.invalidOutputs + if j.state == Running then 1 else 0)
            && s.picks[id] <= if cfg.schemaAttempts == 0 then 1 else cfg.schemaAttempts + 2
  {
    RunSafe(cfg, run, i);
    assert JobKnown(cfg, run.states[i], id);
  }

  ghost predicate Current(t: Table, id: Id) {
    id in t.jobs && t.jobs[id].state != Superseded
  }

  // The table is in order: results go with success, flags with the end of a
  // job, one job at most is promoted, and one at most is current per item.
  lemma TableInOrder(cfg: Config, run: Run, i: nat)
    requires IsRun(cfg, run) && i < |run.states|
    ensures var t := run.states[i].table;
            && (forall id :: id in t.jobs ==> (t.jobs[id].result.Some? <==> t.jobs[id].state == Succeeded))
            && (forall id :: id in t.jobs ==> (t.jobs[id].cancel in t.raised <==> t.jobs[id].Terminal()))
            && (forall a, b :: a in t.jobs && b in t.jobs && t.jobs[a].promoted && t.jobs[b].promoted ==> a == b)
            && (forall a, b :: Current(t, a) && Current(t, b) && SharesItem(t.jobs[a], t.jobs[b]) ==> a == b)
            && (forall id :: id in t.jobs ==> RevisionOk(t, t.jobs[id]))
  {
    RunSafe(cfg, run, i);
    var t := run.states[i].table;
    forall id | id in t.jobs ensures JobOk(t, cfg, id) { }
    forall a, b | a in t.jobs && b in t.jobs ensures PairOk(t, a, b) { }
  }
}
