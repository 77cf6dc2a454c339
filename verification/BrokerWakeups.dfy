/**
 No wake-up is lost. notify_waiters stores nothing: it reaches only the waiters
 that are enabled at that moment. So whoever is about to sleep must have looked
 at the table after enabling its waiter.
 */
module BrokerWakeups {
  import opened Prelude
  import opened BrokerTable
  import opened BrokerInvariants
  import opened BrokerSystem
  import opened BrokerSafety

  // Some thread has changed the table and not called notify_waiters yet.
  ghost predicate Owing(s: System) {
    || (exists w :: w in s.workers && s.workers[w].Owes())
    || (exists c :: c in s.callers && s.callers[c].Replying?)
  }

  // A wait call sleeps unwoken only on a job that is there and not over.
  ghost predicate CallerMaySleep(s: System, c: CallerId)
    requires c in s.callers
  {
    s.callers[c].Sleeps() ==>
      && s.callers[c].action.ManageJob? && s.callers[c].action.op == Wait
      && s.callers[c].action.id in s.table.jobs && !s.table.jobs[s.callers[c].action.id].Terminal()
  }

  // A worker sleeps unwoken only with nothing queued and no retry due before
  // its timer fires.
  ghost predicate WorkerMaySleep(s: System, w: WorkerId)
    requires w in s.workers
  {
    s.workers[w].Sleeps() ==>
      forall id :: id in s.table.jobs ==>
        && s.table.jobs[id].state != Queued
        && (s.table.jobs[id].state == Retrying ==> s.workers[w].until <= s.table.jobs[id].ready)
  }

  ghost predicate AllMaySleep(s: System) {
    && (forall c {:trigger CallerMaySleep(s, c)} :: c in s.callers ==> CallerMaySleep(s, c))
    && (forall w {:trigger WorkerMaySleep(s, w)} :: w in s.workers ==> WorkerMaySleep(s, w))
  }

  ghost predicate NobodySleeps(s: System) {
    && (forall c :: c in s.callers ==> !s.callers[c].Sleeps())
    && (forall w :: w in s.workers ==> !s.workers[w].Sleeps())
  }

  ghost predicate NoLostWakeup(s: System) {
    && (Owing(s) || AllMaySleep(s))
    && (s.table.closed ==> NobodySleeps(s))
  }

  lemma NotifiedAwake(s: System)
    ensures NobodySleeps(NotifyAll(s)) && AllMaySleep(NotifyAll(s))
  { }

  // Moving one worker to a state in which it does not sleep, with what sleepers
  // look at unchanged.
  lemma WorkerMoves(s: System, s': System, w: WorkerId, to: Worker)
    requires NoLostWakeup(s) && w in s.workers && !s.workers[w].Owes() && !to.Sleeps()
    requires s'.workers == s.workers[w := to] && s'.callers == s.callers
    requires to.Owes() || SameForSleepers(s.table, s'.table)
    requires s'.table.closed == s.table.closed
    ensures NoLostWakeup(s')
  {
    if to.Owes() {
      assert s'.workers[w].Owes();
    } else if Owing(s) {
      if v :| v in s.workers && s.workers[v].Owes() { assert s'.workers[v].Owes(); }
    } else {
      SleepersKept(s, s', w);
    }
  }

  ghost predicate SameForSleepers(t: Table, u: Table) {
    && u.jobs.Keys == t.jobs.Keys
    && forall id :: id in t.jobs ==> u.jobs[id].state == t.jobs[id].state && u.jobs[id].ready == t.jobs[id].ready
  }

  lemma SleepersKept(s: System, s': System, w: WorkerId)
    requires AllMaySleep(s) && SameForSleepers(s.table, s'.table)
    requires s'.callers == s.callers && w in s.workers && w in s'.workers && !s'.workers[w].Sleeps()
    requires s'.workers == s.workers[w := s'.workers[w]]
    ensures AllMaySleep(s')
  {
    forall c | c in s'.callers ensures CallerMaySleep(s', c) { assert CallerMaySleep(s, c); }
    forall v | v in s'.workers ensures WorkerMaySleep(s', v) { assert WorkerMaySleep(s, v); }
  }

  // The same for a caller; `to` may be absent.
  lemma CallerMoves(s: System, s': System, c: CallerId)
    requires NoLostWakeup(s) && s'.workers == s.workers
    requires c in s.callers ==> !s.callers[c].Replying?
    requires forall d :: d != c ==> (d in s.callers <==> d in s'.callers)
    requires forall d :: d != c && d in s.callers ==> s'.callers[d] == s.callers[d]
    requires c in s'.callers ==> s'.callers[c].Replying? || SameForSleepers(s.table, s'.table)
    requires c !in s'.callers ==> SameForSleepers(s.table, s'.table)
    requires c in s'.callers && s'.callers[c].Sleeps() ==> CallerMaySleep(s', c) && !s'.table.closed
    requires s'.table.closed == s.table.closed
    ensures NoLostWakeup(s')
  {
    if c in s'.callers && s'.callers[c].Replying? {
    } else if Owing(s) {
      if v :| v in s.workers && s.workers[v].Owes() {
        assert s'.workers[v].Owes();
      } else {
        var d :| d in s.callers && s.callers[d].Replying?;
        assert s'.callers[d].Replying?;
      }
    } else {
      forall d | d in s'.callers ensures CallerMaySleep(s', d) {
        if d != c { assert CallerMaySleep(s, d); }
      }
      forall v | v in s'.workers ensures WorkerMaySleep(s', v) { assert WorkerMaySleep(s, v); }
    }
  }

  // A worker that goes to sleep has just found nothing queued, and set its
  // timer by the earliest retry.
  lemma FallsAsleep(cfg: Config, s: System, w: WorkerId, woken: bool, order: seq<Id>, delay: Time, s': System)
    requires NoLostWakeup(s) && w in s.workers && s.workers[w] == Watching(woken) && !s.table.closed
    requires Visited(s, w, woken, order, None, delay, s')
    ensures NoLostWakeup(s')
  {
    RequeueQuiet(s.table, s.now, order);
    assert order == [] && s'.table == s.table;
    if Owing(s) {
      if v :| v in s.workers && s.workers[v].Owes() { assert s'.workers[v].Owes(); }
    } else {
      forall id | id in s.table.jobs && s.table.jobs[id].state == Retrying
        ensures s.now + delay <= s.table.jobs[id].ready
      {
        assert id !in order && !Due(s.table.jobs[id], s.now);
      }
      forall c | c in s'.callers ensures CallerMaySleep(s', c) { assert CallerMaySleep(s, c); }
      forall v | v in s'.workers ensures WorkerMaySleep(s', v) { if v != w { assert WorkerMaySleep(s, v); } }
    }
  }

  lemma WorkerWakes(cfg: Config, s: System, w: WorkerId, act: WorkerAct, s': System)
    requires NoLostWakeup(s) && w in s.workers && WorkerNext(cfg, s, w, act, s')
    ensures NoLostWakeup(s')
  {
    var me := s.workers[w];
    match act
    case Visit(order, choice, delay) =>
      if !s.table.closed && choice.None? {
        FallsAsleep(cfg, s, w, me.woken, order, delay, s');
      } else if s.table.closed {
        WorkerMoves(s, s', w, Stopped);
      } else {
        RequeueQuiet(s.table, s.now, order);
        WorkerMoves(s, s', w, s'.workers[w]);
      }
    case NotifyWaiters =>
      NotifiedAwake(s);
      SleepersKept(NotifyAll(s), s', w);
    case Settle =>
      CompleteCompletes(s.table, cfg, me.id, me.outcome, s.now);
      var (u, changed) := Complete(s.table, cfg, me.id, me.outcome, s.now);
      SettledWakes(s, w, u, changed, s');
    case _ => WorkerMoves(s, s', w, s'.workers[w]);
  }

  lemma SettledWakes(s: System, w: WorkerId, u: Table, changed: bool, s': System)
    requires NoLostWakeup(s) && w in s.workers && s.workers[w].Returned?
    requires Completed(s.table, u, s.workers[w].id, changed)
    requires s' == SetWorker(s.(table := u), w, if changed then Reporting else Starting)
    ensures NoLostWakeup(s')
  {
    WorkerMoves(s, s', w, if changed then Reporting else Starting);
  }

  lemma CallerWakes(cfg: Config, s: System, c: CallerId, move: CallerAct, s': System)
    requires Safe(cfg, s) && NoLostWakeup(s) && c in s.callers && CallerNext(cfg, s, c, move, s')
    ensures NoLostWakeup(s')
  {
    match move
    case Serve(id, flag) => ServeWakes(cfg, s, c, id, flag, s');
    case NotifyAndLeave =>
      assert NobodySleeps(s') && AllMaySleep(s');
    case _ => CallerMoves(s, s', c);
  }

  lemma ServeWakes(cfg: Config, s: System, c: CallerId, id: Id, flag: Flag, s': System)
    requires Safe(cfg, s) && NoLostWakeup(s) && c in s.callers && CallerNext(cfg, s, c, Serve(id, flag), s')
    ensures NoLostWakeup(s')
  {
    hide NoLostWakeup, Inv;
    match s.callers[c].action
    case SubmitJob(r) =>
      assert id in s.table.jobs ==> JobKnown(cfg, s, id);
      SubmitQuiet(s.table, cfg, r, id, flag, s.now);
      CallerMoves(s, s', c);
    case ListJobs => CallerMoves(s, s', c);
    case ManageJob(op, target, epochMatches) =>
      ManageQuiet(s.table, op, target, epochMatches, flag, s.now);
      CallerMoves(s, s', c);
  }

  // Every step but clear() keeps the property, and clear() does on a closed broker.
  lemma StepWakes(cfg: Config, s: System, step: Step, s': System)
    requires Safe(cfg, s) && NoLostWakeup(s) && Transition(cfg, s, step, s')
    requires step.ClearBroker? ==> s.table.closed
    ensures NoLostWakeup(s')
  {
    match step
    case Work(w, act) => WorkerWakes(cfg, s, w, act, s');
    case Converse(c, move) => CallerWakes(cfg, s, c, move, s');
    case Call(c, action) => CallerMoves(s, s', c);
    case CloseBroker => NotifiedAwake(s.(table := Close(s.table, s.now)));
    case ClearBroker =>
    case Tick(elapsed) => TimePasses(s, s');
  }

  lemma TimePasses(s: System, s': System)
    requires NoLostWakeup(s) && s' == s.(now := s'.now)
    ensures NoLostWakeup(s')
  {
    if !Owing(s) {
      forall c | c in s'.callers ensures CallerMaySleep(s', c) { assert CallerMaySleep(s, c); }
      forall v | v in s'.workers ensures WorkerMaySleep(s', v) { assert WorkerMaySleep(s, v); }
    }
  }

  // clear() removes jobs without notifying. It keeps the property exactly when
  // the broker is closed, or somebody owes a notification anyway, or no wait
  // call sleeps.
  lemma ClearWakes(cfg: Config, s: System, s': System)
    requires NoLostWakeup(s) && Transition(cfg, s, ClearBroker, s')
    ensures NoLostWakeup(s') <==>
              s.table.closed || Owing(s) || forall c :: c in s.callers ==> !s.callers[c].Sleeps()
  {
    if !s.table.closed && !Owing(s) {
      assert !Owing(s');
      if c :| c in s.callers && s.callers[c].Sleeps() {
        assert !CallerMaySleep(s', c);
      } else {
        assert AllMaySleep(s');
      }
    }
  }

  // The program clears only a broker it has closed, so over every such run:
  // whenever a wait call sleeps unwoken on a job that is over or gone, or a
  // worker sleeps unwoken with a job queued or a retry due before its timer,
  // some thread still owes a notification; and a closed broker lets nobody sleep.
  lemma {:induction false} NoWakeupIsLost(cfg: Config, run: Run, i: nat)
    requires IsRun(cfg, run) && i < |run.states|
    requires forall k :: 0 <= k < |run.steps| && run.steps[k].ClearBroker? ==> run.states[k].table.closed
    ensures NoLostWakeup(run.states[i])
  {
    if i > 0 {
      NoWakeupIsLost(cfg, run, i - 1);
      RunSafe(cfg, run, i - 1);
      assert StepAt(cfg, run, i - 1);
      StepWakes(cfg, run.states[i - 1], run.steps[i - 1], run.states[i]);
    }
  }
}
