/**
 What a worker takes, what comes of it and what a client gets to see, in every
 reachable state and said over the fields of the jobs.
 */
module BrokerEffects {
  import opened Prelude
  import opened BrokerTable
  import opened BrokerInvariants
  import opened BrokerSystem
  import opened BrokerSafety
  import opened BrokerHistory

  // ---------- which job a worker takes ----------

  // A job that a worker may take at this moment: queued, or a retry whose time has come.
  predicate Waiting(j: Job, now: Time) { j.state == Queued || (j.state == Retrying && j.ready <= now) }

  // The configured number of workers, but one at least and eight at most.
  lemma WorkersEffect(cfg: Config, s: System)
    requires Init(cfg, s)
    ensures forall w: WorkerId :: w in s.workers <==> w == 0 || (w < cfg.concurrency && w < 8)
  { }

  // Requeued in the order of `order`, the due retries follow each other.
  lemma {:induction false} RequeuedInOrder(t: Table, order: seq<Id>, i: nat, j: nat)
    requires forall id :: id in order ==> id in t.jobs
    requires forall a, b :: 0 <= a < b < |order| ==> order[a] != order[b]
    requires i < j < |order|
    ensures Requeue(t, order).jobs[order[i]].sequence < Requeue(t, order).jobs[order[j]].sequence
  {
    var n := |order| - 1;
    var init := order[..n];
    assert forall id :: id in init ==> id in order;
    assert order[i] in init && order[n] !in init;
    RequeueAt(t, init, order[i]);
    if j < n { RequeuedInOrder(t, init, i, j); }
  }

  // One due retry before another, by ready time, sequence and id.
  predicate DueFirst(x: Job, a: Id, y: Job, b: Id) {
    if x.ready != y.ready then x.ready < y.ready
    else if x.sequence != y.sequence then x.sequence < y.sequence
    else a < b
  }

  // What puts one waiting job before another.
  predicate GoesFirst(x: Job, a: Id, y: Job, b: Id) {
    && (y.promoted ==> x.promoted)
    && (y.promoted == x.promoted && y.request.interactive ==> x.request.interactive)
    && (y.promoted == x.promoted && y.request.interactive == x.request.interactive && a != b ==>
          && (y.state == Queued ==> x.state == Queued && x.sequence < y.sequence)
          && (x.state == Retrying ==> y.state == Retrying && DueFirst(x, a, y, b)))
  }

  // What a requeue leaves of a job: a due retry is queued behind all that were.
  lemma RequeuedJob(cfg: Config, t: Table, now: Time, order: seq<Id>, id: Id)
    requires Inv(t, cfg) && DueOrder(t, now, order) && id in t.jobs
    ensures (forall x :: x in order ==> x in t.jobs) && id in Requeue(t, order).jobs
    ensures var x, y := t.jobs[id], Requeue(t, order).jobs[id];
            if x.state == Retrying && x.ready <= now
            then y == x.(state := Queued, sequence := y.sequence) && t.sequence < y.sequence
            else y == x && x.sequence <= t.sequence
  {
    assert forall x :: x in order ==> x in t.jobs;
    assert id in order <==> t.jobs[id].state == Retrying && t.jobs[id].ready <= now;
    assert JobOk(t, cfg, id);
    RequeueAt(t, order, id);
  }

  lemma RequeuedBoth(cfg: Config, t: Table, now: Time, order: seq<Id>, a: Id, b: Id)
    requires Inv(t, cfg) && DueOrder(t, now, order) && a in t.jobs && b in t.jobs && a != b
    requires forall id :: id in {a, b} ==> t.jobs[id].state == Retrying && t.jobs[id].ready <= now
    requires DueFirst(t.jobs[a], a, t.jobs[b], b)
    ensures forall x :: x in order ==> x in t.jobs
    ensures a in Requeue(t, order).jobs && b in Requeue(t, order).jobs
    ensures Requeue(t, order).jobs[a].sequence < Requeue(t, order).jobs[b].sequence
  {
    assert forall x :: x in order ==> x in t.jobs;
    var i: nat :| i < |order| && order[i] == a;
    var j: nat :| j < |order| && order[j] == b;
    forall m, n | 0 <= m < n < |order| ensures order[m] != order[n] {
      assert DueBefore(t, order[m], order[n]);
    }
    RequeuedInOrder(t, order, i, j);
    RequeueAt(t, order, a);
  }

  /**
   A visit to an open broker. If nothing waits, the worker sleeps until the first
   retry is due, or for 300 seconds, and the table stays. Otherwise it takes, of all
   the jobs that wait: a promoted one before all others, then an interactive one,
   then one that is queued already in the order in which they were queued, then the
   retries in the order in which they were due.
   */
  lemma VisitTakesNext(cfg: Config, s: System, w: WorkerId, order: seq<Id>, choice: Option<Id>, delay: Time, s': System)
    requires Safe(cfg, s) && !s.table.closed && w in s.workers
    requires WorkerNext(cfg, s, w, Visit(order, choice, delay), s')
    ensures choice.None? <==> forall id :: id in s.table.jobs ==> !Waiting(s.table.jobs[id], s.now)
    ensures choice.Some? ==> choice.value in s.table.jobs && Waiting(s.table.jobs[choice.value], s.now)
    ensures choice.Some? ==> forall id :: id in s.table.jobs && Waiting(s.table.jobs[id], s.now) ==>
              GoesFirst(s.table.jobs[choice.value], choice.value, s.table.jobs[id], id)
  {
    var t := s.table;
    assert forall id :: id in order ==> id in t.jobs;
    forall id | id in t.jobs
      ensures id in Requeue(t, order).jobs
      ensures Requeue(t, order).jobs[id].state == Queued <==> Waiting(t.jobs[id], s.now)
    {
      RequeuedJob(cfg, t, s.now, order, id);
    }
    RequeueAll(t, order);
    if choice.Some? {
      forall id | id in t.jobs && Waiting(t.jobs[id], s.now)
        ensures GoesFirst(t.jobs[choice.value], choice.value, t.jobs[id], id)
      {
        TakenBefore(cfg, t, s.now, order, choice.value, id);
      }
    }
  }

  lemma RequeueAll(t: Table, order: seq<Id>)
    requires forall id :: id in order ==> id in t.jobs
    ensures Requeue(t, order).jobs.Keys == t.jobs.Keys
  { }

  lemma TakenBefore(cfg: Config, t: Table, now: Time, order: seq<Id>, taken: Id, id: Id)
    requires Inv(t, cfg) && DueOrder(t, now, order) && forall x :: x in order ==> x in t.jobs
    requires Front(Requeue(t, order), taken) && id in t.jobs && Waiting(t.jobs[id], now)
    ensures taken in t.jobs
    ensures GoesFirst(t.jobs[taken], taken, t.jobs[id], id)
  {
    hide Inv, DueOrder;
    RequeueAll(t, order);
    RequeuedJob(cfg, t, now, order, taken);
    RequeuedJob(cfg, t, now, order, id);
    var x, y := t.jobs[taken], t.jobs[id];
    if x.state == Retrying && y.state == Retrying && id != taken && !DueFirst(x, taken, y, id) {
      RequeuedBoth(cfg, t, now, order, id, taken);
    }
  }

  // What the visit makes of the jobs: the one it takes runs for one time more, due
  // retries are queued behind all others, and nothing else changes.
  lemma VisitMoves(cfg: Config, s: System, w: WorkerId, order: seq<Id>, choice: Option<Id>, delay: Time, s': System,
        id: Id)
    requires Safe(cfg, s) && !s.table.closed && w in s.workers && id in s.table.jobs
    requires WorkerNext(cfg, s, w, Visit(order, choice, delay), s')
    ensures s'.table.jobs.Keys == s.table.jobs.Keys
    ensures var x, y := s.table.jobs[id], s'.table.jobs[id];
      && (choice == Some(id) ==>
            && y == x.(state := Running, selection := None, promoted := false, sequence := y.sequence,
                       started := y.started, updated := s.now, attempts := x.attempts + 1)
            && y.started == (if x.started == 0 then s.now else x.started)
            && s'.workers[w] == Announcing(id, x.cancel))
      && (choice != Some(id) && Waiting(x, s.now) ==> y == x.(state := Queued, sequence := y.sequence))
      && (!Waiting(x, s.now) ==> y == x)
      && (x.state == Queued ==> y.sequence == x.sequence)
      && (x.state == Retrying && x.ready <= s.now ==> s.table.sequence < y.sequence)
  {
    hide Inv, DueOrder;
    assert Inv(s.table, cfg) && DueOrder(s.table, s.now, order);
    RequeuedJob(cfg, s.table, s.now, order, id);
    RequeueAll(s.table, order);
    if choice.Some? { RequeuedJob(cfg, s.table, s.now, order, choice.value); }
  }

  // Nothing waits: the worker sleeps until the next retry is due.
  lemma VisitSleeps(cfg: Config, s: System, w: WorkerId, order: seq<Id>, delay: Time, s': System)
    requires Safe(cfg, s) && !s.table.closed && w in s.workers
    requires WorkerNext(cfg, s, w, Visit(order, None, delay), s')
    ensures s'.table == s.table && s'.workers[w] == Asleep(s.workers[w].woken, s.now + delay)
    ensures forall id :: id in s.table.jobs && s.table.jobs[id].state == Retrying ==>
              s.now + delay <= s.table.jobs[id].ready
    ensures delay == 300_000
            || exists id ::
                 id in s.table.jobs && s.table.jobs[id].state == Retrying && s.now + delay == s.table.jobs[id].ready
    ensures (forall id :: id in s.table.jobs ==> s.table.jobs[id].state != Retrying) ==> delay == 300_000
  {
    VisitTakesNext(cfg, s, w, order, None, delay, s');
    assert order == [];
    if delay != 300_000 {
      var id :| id in s.table.jobs && s.table.jobs[id].state == Retrying && delay == Until(s.table.jobs[id], s.now);
      assert !Waiting(s.table.jobs[id], s.now);
    }
  }

  // ---------- what comes of an outcome ----------

  function Least(a: nat, b: nat): nat { if a <= b then a else b }

  // Doubled for every transient failure, half a minute at most.
  function Pause(cfg: Config, transient: nat): Time {
    Least(30_000, cfg.backoff * (if transient == 0 then 1 else if transient == 1 then 2 else 4))
  }

  predicate AddedUp(x: nat, y: nat, more: Option<nat>) {
    if more.Some? then y == Least(x + more.value, 0xFFFF_FFFF_FFFF_FFFF) else y == x
  }

  // Usage is added up to the largest 64-bit number, and may name another model.
  predicate Charged(x: Job, y: Job, usage: Usage) {
    && AddedUp(x.tokens.0, y.tokens.0, usage.input) && AddedUp(x.tokens.1, y.tokens.1, usage.output)
    && y.selection == match x.selection
                      case None => None
                      case Some(s) => Some(if usage.model.Some? then s.(model := usage.model.value) else s)
  }

  /**
   A worker hands in the outcome of a running job. A result is kept as it is. A
   failure counts against its budget; it is final when the runner has no isolation or
   no credentials, at the third transient failure, or when the schema attempts are
   used up. Otherwise the job is tried again after the backoff, doubled for every
   transient failure so far, half a minute at most.
   */
  lemma OutcomeCounts(cfg: Config, s: System, w: WorkerId, s': System)
    requires Safe(cfg, s) && w in s.workers && WorkerNext(cfg, s, w, Settle, s')
    requires var id := s.workers[w].id; id in s.table.jobs && s.table.jobs[id].state == Running
    ensures var me := s.workers[w];
      && s'.table.jobs.Keys == s.table.jobs.Keys && s'.workers[w] == Reporting
      && (forall id :: id in s.table.jobs && id != me.id ==> s'.table.jobs[id] == s.table.jobs[id])
      && OutcomeOf(cfg, s.table.jobs[me.id], me.outcome, s.now, s'.table.jobs[me.id])
      && (s'.table.jobs[me.id].state in {Succeeded, Failed} <==> me.flag in s'.table.raised)
  {
    hide Inv, OutcomeOf, Complete;
    var me := s.workers[w];
    assert WorkerOk(s, w);
    RunningJob(cfg, s.table, me.id);
    match me.outcome
    case Done(value, usage) => DoneCounts(s.table, cfg, me.id, value, usage, s.now);
    case Invalid(usage) => InvalidCounts(s.table, cfg, me.id, usage, s.now);
    case Fault(code) => FaultCounts(s.table, cfg, me.id, code, s.now);
  }

  lemma RunningJob(cfg: Config, t: Table, id: Id)
    requires Inv(t, cfg) && id in t.jobs && t.jobs[id].state == Running
    ensures t.jobs[id].result == None && t.jobs[id].transient <= 2 && t.jobs[id].cancel !in t.raised
  {
    assert JobOk(t, cfg, id);
  }

  lemma DoneCounts(t: Table, cfg: Config, id: Id, value: string, usage: Usage, now: Time)
    requires id in t.jobs && t.jobs[id].state == Running
    ensures Counted(t, cfg, id, Done(value, usage), now)
  { }

  lemma InvalidCounts(t: Table, cfg: Config, id: Id, usage: Usage, now: Time)
    requires id in t.jobs && t.jobs[id].state == Running
    requires t.jobs[id].result == None && t.jobs[id].transient <= 2 && t.jobs[id].cancel !in t.raised
    ensures Counted(t, cfg, id, Invalid(usage), now)
  {
    hide Fail, FailedWith, Charge, Charged;
    var x := t.jobs[id];
    ChargeCharges(x, usage);
    var charged := t.(activity := now, jobs := t.jobs[id := Charge(x, usage)]);
    FailFails(charged, cfg, id, InvalidOutput, now);
    var y := Fail(charged, cfg, id, InvalidOutput, now).jobs[id];
    SameCount(cfg, x, Charge(x, usage), now, y);
    SameCharge(x, Charge(x, usage), y, usage);
  }

  lemma FaultCounts(t: Table, cfg: Config, id: Id, code: Code, now: Time)
    requires id in t.jobs && t.jobs[id].state == Running
    requires t.jobs[id].result == None && t.jobs[id].transient <= 2 && t.jobs[id].cancel !in t.raised
    ensures Counted(t, cfg, id, Fault(code), now)
  {
    hide Fail, FailedWith;
    FailFails(t.(activity := now), cfg, id, code, now);
  }

  // What a failure makes of the table: nothing but its job, and the flag of a job that ends.
  ghost predicate Failing(t: Table, id: Id, now: Time, u: Table)
    requires id in t.jobs
  {
    && u.jobs.Keys == t.jobs.Keys
    && (forall other :: other in t.jobs && other != id ==> u.jobs[other] == t.jobs[other])
    && var x, y := t.jobs[id], u.jobs[id];
    && y == x.(state := y.state, updated := now, transient := y.transient, invalidOutputs := y.invalidOutputs,
               error := y.error, ready := y.ready)
    && y.state in {Failed, Retrying} && (y.state == Failed <==> x.cancel in u.raised)
  }

  lemma FailFails(t: Table, cfg: Config, id: Id, code: Code, now: Time)
    requires id in t.jobs && t.jobs[id].state == Running
    requires t.jobs[id].result == None && t.jobs[id].transient <= 2 && t.jobs[id].cancel !in t.raised
    ensures Failing(t, id, now, Fail(t, cfg, id, code, now))
    ensures FailedWith(cfg, t.jobs[id], code, now, Fail(t, cfg, id, code, now).jobs[id])
  {
    hide Fail;
    if Hopeless(cfg, CountFailure(t.jobs[id], code), code) {
      Ends(t, cfg, id, code, now);
    } else {
      TriesAgain(t, cfg, id, code, now);
    }
  }

  lemma Ends(t: Table, cfg: Config, id: Id, code: Code, now: Time)
    requires id in t.jobs && t.jobs[id].result == None && Hopeless(cfg, CountFailure(t.jobs[id], code), code)
    ensures Fail(t, cfg, id, code, now) ==
            t.(jobs := t.jobs[id := CountFailure(t.jobs[id], code).(state := Failed, error := code, updated := now)],
               raised := t.raised + {t.jobs[id].cancel})
  { }

  lemma TriesAgain(t: Table, cfg: Config, id: Id, code: Code, now: Time)
    requires id in t.jobs && !Hopeless(cfg, CountFailure(t.jobs[id], code), code)
    ensures var j := CountFailure(t.jobs[id], code);
            Fail(t, cfg, id, code, now) ==
            t.(jobs := t.jobs[id := j.(state := Retrying, updated := now,
                                       ready := now + Pause(cfg, j.transient))])
  {
    Backoff(cfg, CountFailure(t.jobs[id], code).transient);
  }

  lemma SameCount(cfg: Config, x: Job, z: Job, now: Time, y: Job)
    requires z == x.(tokens := z.tokens, selection := z.selection) && FailedWith(cfg, z, InvalidOutput, now, y)
    ensures FailedWith(cfg, x, InvalidOutput, now, y)
  { }

  lemma SameCharge(x: Job, z: Job, y: Job, usage: Usage)
    requires Charged(x, z, usage) && y.tokens == z.tokens && y.selection == z.selection
    ensures Charged(x, y, usage)
  { }

  lemma ChargeCharges(j: Job, usage: Usage)
    ensures Charged(j, Charge(j, usage), usage)
    ensures Charge(j, usage) == j.(tokens := Charge(j, usage).tokens, selection := Charge(j, usage).selection)
  { }

  lemma Backoff(cfg: Config, transient: nat)
    requires transient <= 2
    ensures RetryAfter(cfg, transient) == Pause(cfg, transient)
  {
    assert Pow2(1) == 2 && Pow2(2) == 4;
  }

  ghost predicate Counted(t: Table, cfg: Config, id: Id, outcome: Outcome, now: Time)
    requires id in t.jobs
  {
    var (u, changed) := Complete(t, cfg, id, outcome, now);
    && changed && u.jobs.Keys == t.jobs.Keys
    && (forall other :: other in t.jobs && other != id ==> u.jobs[other] == t.jobs[other])
    && OutcomeOf(cfg, t.jobs[id], outcome, now, u.jobs[id])
    && (u.jobs[id].state in {Succeeded, Failed} <==> t.jobs[id].cancel in u.raised)
  }

  ghost predicate OutcomeOf(cfg: Config, x: Job, outcome: Outcome, now: Time, y: Job) {
    && y.request == x.request && y.sequence == x.sequence && y.created == x.created && y.started == x.started
    && y.attempts == x.attempts && y.promoted == x.promoted && y.cancel == x.cancel && y.updated == now
    && match outcome
       case Done(value, usage) =>
         && y.state == Succeeded && y.result == Some(value) && y.error == NoError && Charged(x, y, usage)
         && y.transient == x.transient && y.invalidOutputs == x.invalidOutputs
       case Invalid(usage) => FailedWith(cfg, x, InvalidOutput, now, y) && Charged(x, y, usage)
       case Fault(code) => FailedWith(cfg, x, code, now, y) && y.tokens == x.tokens && y.selection == x.selection
  }

  ghost predicate FailedWith(cfg: Config, x: Job, code: Code, now: Time, y: Job) {
    var transient := x.transient + if code == InvalidOutput then 0 else 1;
    var invalid := x.invalidOutputs + if code == InvalidOutput then 1 else 0;
    var final := code == IsolationFailure || code == AuthenticationUnavailable || transient == 3
                 || invalid >= cfg.schemaAttempts;
    && y.transient == transient && y.invalidOutputs == invalid
    && y.state == (if final then Failed else Retrying) && y.result == None
    && y.error == (if final then code else x.error)
    && (!final ==> y.ready == now + Pause(cfg, transient))
  }

  // ---------- what the client of a finished job sees ----------

  // The job is over with this result, unless it is superseded or gone.
  ghost predicate EndedWith(s: System, id: Id, value: string) {
    && id in s.issued
    && (id in s.table.jobs ==>
          || s.table.jobs[id].state == Superseded
          || (s.table.jobs[id].state == Succeeded && s.table.jobs[id].result == Some(value)))
  }

  lemma StepKeepsResult(cfg: Config, s: System, step: Step, s': System, id: Id, value: string)
    requires Safe(cfg, s) && Transition(cfg, s, step, s') && EndedWith(s, id, value)
    ensures EndedWith(s', id, value)
  {
    hide Safe, Transition;
    StepEvolves(cfg, s, step, s');
    if id in s'.table.jobs {
      assert id in s.table.jobs && JobMove(s, step, s', id);
    }
  }

  lemma {:induction false} ResultLasts(cfg: Config, run: Run, i: nat, j: nat, id: Id, value: string)
    requires IsRun(cfg, run) && i <= j < |run.states| && EndedWith(run.states[i], id, value)
    ensures EndedWith(run.states[j], id, value)
  {
    hide Safe, Transition, EndedWith;
    if i < j {
      ResultLasts(cfg, run, i, j - 1, id, value);
      RunSafe(cfg, run, j - 1);
      assert StepAt(cfg, run, j - 1);
      StepKeepsResult(cfg, run.states[j - 1], run.steps[j - 1], run.states[j], id, value);
    }
  }

  // Step j of the run serves a caller who asks for the status of the job or waits for it.
  ghost predicate Asked(run: Run, j: nat, c: CallerId, op: Operation, id: Id)
    requires |run.states| == |run.steps| + 1 && j < |run.steps|
  {
    var s, step := run.states[j], run.steps[j];
    && (op == Status || op == Wait) && step.Converse? && step.move.Serve? && step.c == c && c in s.callers
    && s.callers[c].Listening? && s.callers[c].action == ManageJob(op, id, true)
  }

  /**
   The value that the runner returned for a running job is what every client gets who
   asks for it afterwards: as long as the broker is open and the job is there and not
   superseded, the reply says that it succeeded, and gives this value.
   */
  lemma ResultIsReplied(cfg: Config, run: Run, i: nat, w: WorkerId, id: Id, flag: Flag, value: string, usage: Usage,
        j: nat, c: CallerId, op: Operation)
    requires IsRun(cfg, run) && i < j < |run.steps|
    requires run.steps[i] == Work(w, Settle) && w in run.states[i].workers
    requires run.states[i].workers[w] == Returned(id, flag, Done(value, usage))
    requires id in run.states[i].table.jobs && run.states[i].table.jobs[id].state == Running
    requires Asked(run, j, c, op, id)
    requires !run.states[j].table.closed && id in run.states[j].table.jobs
    requires run.states[j].table.jobs[id].state != Superseded
    ensures c in run.states[j + 1].callers
    ensures run.states[j + 1].callers[c] == Replying(Shown(Succeeded, Some(value)))
  {
    RunSafe(cfg, run, i);
    assert StepAt(cfg, run, i) && StepAt(cfg, run, j);
    ResultStored(cfg, run.states[i], w, run.states[i + 1], value, usage);
    ResultLasts(cfg, run, i + 1, j, id, value);
  }

  lemma ResultStored(cfg: Config, s: System, w: WorkerId, s': System, value: string, usage: Usage)
    requires Safe(cfg, s) && w in s.workers && WorkerNext(cfg, s, w, Settle, s')
    requires s.workers[w].Returned? && s.workers[w].outcome == Done(value, usage)
    requires var id := s.workers[w].id; id in s.table.jobs && s.table.jobs[id].state == Running
    ensures EndedWith(s', s.workers[w].id, value)
  {
    OutcomeCounts(cfg, s, w, s');
    assert WorkerOk(s, w);
  }

  // What is seen of any job: its state, and a result only when it has succeeded. A
  // caller waits exactly while the job is not over.
  lemma AskedIsShown(cfg: Config, s: System, c: CallerId, op: Operation, id: Id, other: Id, flag: Flag, s': System)
    requires Safe(cfg, s) && !s.table.closed && c in s.callers && id in s.table.jobs
    requires CallerNext(cfg, s, c, Serve(other, flag), s')
    requires s.callers[c].Listening? && s.callers[c].action == ManageJob(op, id, true) && (op == Status || op == Wait)
    ensures var j := s.table.jobs[id];
      && s'.table == s.table.(activity := s.now)
      && s'.callers == s.callers[c :=
           if op == Wait && j.state in {Queued, Running, Retrying} then Dozing(s.callers[c].action, s.callers[c].woken)
           else Replying(Shown(j.state, j.result))]
  {
    assert JobOk(s.table, cfg, id);
  }

  // ---------- what a client's calls do ----------

  // In the order in which they are looked at, the reasons to refuse an operation.
  lemma ManageRefuses(t: Table, op: Operation, id: Id, epochMatches: bool, flag: Flag, now: Time)
    ensures var (u, reply) := Manage(t, op, id, epochMatches, flag, now);
            var here := !t.closed && epochMatches && id in t.jobs;
      && (t.closed ==> reply == Some(Refused(BrokerUnavailable)))
      && (!t.closed && !epochMatches ==> reply == Some(Refused(BrokerRestarted)))
      && (!t.closed && epochMatches && id !in t.jobs ==> reply == Some(Refused(UnknownJob)))
      && (here ==>
            var state := t.jobs[id].state;
            && (reply == None <==> op == Wait && state in {Queued, Running, Retrying})
            && (reply != None && reply.value.Refused? <==>
                  || (op == Cancel && state !in {Queued, Running, Retrying})
                  || (op == Retry && state != Failed)
                  || (op == Next && state != Queued)
                  || (op == Release && state in {Queued, Running, Retrying}))
            && (reply != None && reply.value.Refused? ==> reply.value.why == InvalidState))
      && (reply == None || reply.value.Refused? || op in {Status, Wait} ==> u == t.(activity := now))
  {
    if id in t.jobs {
      var j := t.jobs[id];
      assert j.Terminal() || j.state.Queued? || j.state.Running? || j.state.Retrying?;
    }
  }

  // A cancelled job ends without result, and its runner is told to stop.
  lemma CancelEffect(t: Table, id: Id, flag: Flag, now: Time)
    requires !t.closed && id in t.jobs && t.jobs[id].state in {Queued, Running, Retrying}
    ensures var (u, reply) := Manage(t, Cancel, id, true, flag, now);
            var x := t.jobs[id];
      && reply == Some(Shown(Cancelled, None))
      && u == t.(activity := now, raised := t.raised + {x.cancel},
                 jobs := t.jobs[id := x.(state := Cancelled, error := NoError, result := None, updated := now)])
  { }

  // A retry gives a failed job both budgets again and a flag of its own, and keeps
  // its place in the queue.
  lemma RetryEffect(t: Table, id: Id, flag: Flag, now: Time)
    requires !t.closed && id in t.jobs && t.jobs[id].state == Failed
    ensures var (u, reply) := Manage(t, Retry, id, true, flag, now);
            var x := t.jobs[id];
      && reply == Some(Shown(Queued, None))
      && u == t.(activity := now,
                 jobs := t.jobs[id := x.(state := Queued, selection := None, transient := 0, invalidOutputs := 0,
                                         error := NoError, cancel := flag, updated := now)])
  { }

  // One job at most is promoted.
  lemma NextEffect(t: Table, id: Id, flag: Flag, now: Time)
    requires !t.closed && id in t.jobs && t.jobs[id].state == Queued
    ensures var (u, reply) := Manage(t, Next, id, true, flag, now);
      && reply == Some(Shown(Queued, None)) && u == t.(activity := now, jobs := u.jobs) && u.jobs.Keys == t.jobs.Keys
      && u.jobs[id] == t.jobs[id].(promoted := true, updated := now)
      && forall other :: other in t.jobs && other != id ==> u.jobs[other] == t.jobs[other].(promoted := false)
  { }

  // A released job goes. Unless it failed it is kept for listings, behind the others;
  // of more than 128 the first one goes.
  lemma ReleaseEffect(t: Table, id: Id, flag: Flag, now: Time)
    requires !t.closed && id in t.jobs && t.jobs[id].state in {Succeeded, Failed, Cancelled, Superseded}
    ensures var (u, reply) := Manage(t, Release, id, true, flag, now);
            var x := t.jobs[id];
      && reply == Some(Removed) && u == t.(activity := now, jobs := t.jobs - {id}, retired := u.retired)
      && (x.state == Failed && |t.retired| <= 128 ==> u.retired == t.retired)
      && (x.state != Failed && |t.retired| < 128 ==> u.retired == t.retired + [Retired(id, x.state, x.updated)])
      && (x.state != Failed && |t.retired| >= 128 ==> u.retired == t.retired[1..] + [Retired(id, x.state, x.updated)])
  { }

  // In the order in which they are looked at, the reasons to refuse a submission.
  lemma SubmitRefuses(t: Table, cfg: Config, r: Request, id: Id, flag: Flag, now: Time)
    ensures var (u, reply) := Submit(t, cfg, r, id, flag, now);
            var known := r.item.Some? && (r.consumer, r.item.value.name) in t.revisions;
            var stale := known && r.item.value.revision <= t.revisions[(r.consumer, r.item.value.name)];
      && (reply == Accepted(id) || (reply.Refused? && u == t.(activity := now)))
      && (reply == Refused(BrokerUnavailable) <==> t.closed)
      && (reply == Refused(StaleRevision) <==> !t.closed && |t.jobs| < cfg.capacity && stale)
      && (reply == Refused(Capacity) <==>
            !t.closed && (cfg.capacity <= |t.jobs| || (r.item.Some? && !known && 8192 <= |t.revisions|)))
      && (reply == Accepted(id) <==>
            !t.closed && |t.jobs| < cfg.capacity && !stale && (r.item.None? || known || |t.revisions| < 8192))
  { }

  // A job as it is submitted: behind all others, with nothing tried or chosen yet. The
  // other jobs of its item are superseded: they end without result, and their runners
  // are told to stop.
  lemma SubmitEffect(t: Table, cfg: Config, r: Request, id: Id, flag: Flag, now: Time)
    requires id !in t.jobs && Submit(t, cfg, r, id, flag, now).1.Accepted?
    ensures var (u, reply) := Submit(t, cfg, r, id, flag, now);
      && reply == Accepted(id)
      && u == t.(activity := now, sequence := t.sequence + 1, jobs := u.jobs, revisions := u.revisions,
                 raised := u.raised)
      && u.revisions == (if r.item.None? then t.revisions
                         else t.revisions[(r.consumer, r.item.value.name) := r.item.value.revision])
      && id in u.jobs && NewlyQueued(u.jobs[id], r, t.sequence + 1, flag, now)
  { }

  lemma SubmitReplaces(t: Table, cfg: Config, r: Request, id: Id, flag: Flag, now: Time)
    requires id !in t.jobs && Submit(t, cfg, r, id, flag, now).1.Accepted?
    ensures var u := Submit(t, cfg, r, id, flag, now).0;
      && u.jobs.Keys == t.jobs.Keys + {id}
      && (forall x :: x in t.jobs ==>
            u.jobs[x] == if ReplacedBy(t.jobs[x], r)
                         then t.jobs[x].(state := Superseded, error := NoError, result := None, updated := now)
                         else t.jobs[x])
      && (forall f :: f in u.raised <==>
            f in t.raised || exists x :: x in t.jobs && ReplacedBy(t.jobs[x], r) && f == t.jobs[x].cancel)
  {
    hide FinishAll, Insert;
    if r.item.None? {
      InsertIs(t.(activity := now), r, id, flag, now);
    } else {
      var v := t.(activity := now, revisions := t.revisions[(r.consumer, r.item.value.name) := r.item.value.revision]);
      ItemsReplaced(v, r, now);
      var w := FinishAll(v, SameItems(v, r.consumer, r.item.value.name), Superseded, now);
      InsertIs(w, r, id, flag, now);
    }
  }

  lemma InsertIs(t: Table, r: Request, id: Id, flag: Flag, now: Time)
    ensures var u := Insert(t, r, id, flag, now);
            u.raised == t.raised && u.jobs == t.jobs[id := u.jobs[id]] && id in u.jobs
  { }

  lemma ItemsReplaced(t: Table, r: Request, now: Time)
    requires r.item.Some?
    ensures var doomed := SameItems(t, r.consumer, r.item.value.name); var u := FinishAll(t, doomed, Superseded, now);
      && u.jobs.Keys == t.jobs.Keys
      && (forall x :: x in t.jobs ==>
            u.jobs[x] == if ReplacedBy(t.jobs[x], r)
                         then t.jobs[x].(state := Superseded, error := NoError, result := None, updated := now)
                         else t.jobs[x])
      && (forall f :: f in u.raised <==>
            f in t.raised || exists x :: x in t.jobs && ReplacedBy(t.jobs[x], r) && f == t.jobs[x].cancel)
  {
    var doomed := SameItems(t, r.consumer, r.item.value.name);
    assert forall x :: x in doomed <==> x in t.jobs && ReplacedBy(t.jobs[x], r);
  }

  predicate ReplacedBy(x: Job, r: Request) {
    && x.request.item.Some? && r.item.Some? && x.request.consumer == r.consumer
    && x.request.item.value.name == r.item.value.name
  }

  predicate NewlyQueued(x: Job, r: Request, sequence: nat, flag: Flag, now: Time) {
    && x.request == r && x.sequence == sequence && x.state == Queued && x.cancel == flag && !x.promoted
    && x.created == now && x.updated == now && x.ready == now && x.started == 0
    && x.attempts == 0 && x.transient == 0 && x.invalidOutputs == 0 && x.tokens == (0, 0)
    && x.selection == None && x.error == NoError && x.result == None
  }

  // A listing drops what was released 5 seconds ago or earlier, and keeps the order of the rest.
  lemma {:induction false} RecentEffect(rows: seq<Retired>, more: seq<Retired>, row: Retired, now: Time)
    ensures Recent(rows + more, now) == Recent(rows, now) + Recent(more, now)
    ensures Recent([row], now) == if now - row.updated < 5_000 then [row] else []
    ensures Recent([], now) == []
  {
    if rows == [] {
      assert rows + more == more;
    } else {
      RecentEffect(rows[1..], more, row, now);
      assert (rows + more)[1..] == rows[1..] + more;
    }
  }

  // A listing names each job once: those at work in the order of their sequence
  // numbers, then the queue in the order in which it is worked off, then what has
  // ended, the latest first.
  lemma ListingEffect(t: Table, order: seq<Id>, i: nat, j: nat)
    requires Listing(t, order) && i < j < |order|
    ensures order[i] in t.jobs && order[j] in t.jobs
    ensures var x, y := t.jobs[order[i]], t.jobs[order[j]];
      && (y.state in {Running, Retrying} ==> x.state in {Running, Retrying} && x.sequence < y.sequence)
      && (y.state == Queued && x.state == Queued ==>
            && (y.promoted ==> x.promoted)
            && (y.promoted == x.promoted && y.request.interactive ==> x.request.interactive)
            && (y.promoted == x.promoted && y.request.interactive == x.request.interactive ==> x.sequence < y.sequence))
      && (y.state == Queued ==> x.state in {Running, Retrying, Queued})
      && (x.state in {Succeeded, Failed, Cancelled, Superseded} ==>
            && y.state in {Succeeded, Failed, Cancelled, Superseded} && y.updated <= x.updated
            && (y.updated == x.updated ==> y.sequence < x.sequence))
  {
    assert order[i] in order && order[j] in order;
    assert ListedBefore(t.jobs[order[i]], t.jobs[order[j]]);
  }

  // A closed broker lists nothing. An open one forgets what was released too long ago.
  lemma ListEffect(t: Table, now: Time)
    ensures var (u, listed) := List(t, now);
      && (listed <==> !t.closed)
      && u == t.(activity := now, retired := if t.closed then t.retired else Recent(t.retired, now))
  { }

  // Nothing is left of any job, nor of any revision; only the flags and the count go on.
  lemma ClearEffect(t: Table)
    ensures Clear(t) == Table(map[], [], map[], t.sequence, t.activity, t.closed, t.raised)
  { }

  // A closed broker has nothing left to do: every job that had not ended is cancelled.
  lemma CloseEffect(t: Table, now: Time)
    ensures var u := Close(t, now);
      && u == t.(closed := true, jobs := u.jobs, raised := u.raised) && u.jobs.Keys == t.jobs.Keys
      && (forall id :: id in t.jobs ==>
            u.jobs[id] == if AtWork(t.jobs[id])
                          then t.jobs[id].(state := Cancelled, error := NoError, result := None, updated := now)
                          else t.jobs[id])
      && (forall f :: f in u.raised <==>
            f in t.raised || exists id :: id in t.jobs && AtWork(t.jobs[id]) && f == t.jobs[id].cancel)
  {
    hide Job.Terminal;
    assert forall id :: id in t.jobs ==> (AtWork(t.jobs[id]) <==> !t.jobs[id].Terminal()) by {
      forall id | id in t.jobs ensures AtWork(t.jobs[id]) <==> !t.jobs[id].Terminal() { WorkIs(t.jobs[id]); }
    }
  }

  predicate AtWork(j: Job) { j.state.Queued? || j.state.Running? || j.state.Retrying? }

  lemma WorkIs(j: Job)
    ensures AtWork(j) <==> !j.Terminal()
  { }

  /**
   A worker stores its selection exactly when its job still runs: it is neither gone,
   nor over, nor run by somebody else.
   */
  lemma ChooseEffect(cfg: Config, s: System, w: WorkerId, selection: Selection, s': System)
    requires Safe(cfg, s) && w in s.workers && WorkerNext(cfg, s, w, Choose(selection), s')
    ensures var me, t := s.workers[w], s.table;
      if me.id in t.jobs && t.jobs[me.id].state == Running
      then
        && s'.workers[w] == Publishing(me.id, me.flag)
        && s'.table == t.(jobs := t.jobs[me.id := t.jobs[me.id].(selection := Some(selection), updated := s.now)])
      else s'.workers[w] == Returned(me.id, me.flag, Fault(StoppedRun)) && s'.table == t
  {
    var me := s.workers[w];
    assert WorkerOk(s, w);
    if me.id in s.table.jobs { assert JobOk(s.table, cfg, me.id); }
  }
}
