/**
 Nobody is stuck: in every reachable state a worker that has not stopped and does not
 sleep can go on, and so can a caller that does not wait.
 */
module BrokerProgress {
  import opened Prelude
  import opened BrokerTable
  import opened BrokerInvariants
  import opened BrokerSystem
  import opened BrokerSafety

  ghost predicate Total(ids: set<Id>, before: (Id, Id) -> bool) {
    && (forall a: Id, b: Id {:trigger before(a, b)} :: a in ids && b in ids && a != b ==> before(a, b) || before(b, a))
    && (forall a: Id, b: Id, c: Id {:trigger before(a, b), before(b, c)} ::
          a in ids && b in ids && c in ids && before(a, b) && before(b, c) ==> before(a, c))
  }

  // Of finitely many one comes first.
  lemma {:induction false} First(ids: set<Id>, before: (Id, Id) -> bool) returns (first: Id)
    requires ids != {} && Total(ids, before)
    ensures first in ids && forall id: Id {:trigger before(first, id)} :: id in ids && id != first ==> before(first, id)
    decreases |ids|
  {
    var one: Id :| one in ids;
    if ids == {one} { return one; }
    var rest := First(ids - {one}, before);
    assert before(one, rest) || before(rest, one);
    if before(one, rest) {
      first := one;
      forall id: Id | id in ids && id != first ensures before(first, id) {
        assert id == rest || before(rest, id);
      }
    } else {
      first := rest;
    }
  }

  lemma {:induction false} Sorted(ids: set<Id>, before: (Id, Id) -> bool) returns (order: seq<Id>)
    requires Total(ids, before)
    ensures forall id: Id :: id in order <==> id in ids
    ensures forall i: nat, j: nat :: i < j < |order| ==> before(order[i], order[j])
    decreases |ids|
  {
    if ids == {} { return []; }
    var first := First(ids, before);
    var rest := Sorted(ids - {first}, before);
    order := [first] + rest;
    forall i: nat, j: nat | i < j < |order| ensures before(order[i], order[j]) {
      assert order[j] in rest;
    }
  }

  // ---------- a visit finds what it looks for ----------

  lemma DueSorted(t: Table, now: Time) returns (order: seq<Id>)
    ensures DueOrder(t, now, order)
  {
    var due := set id | id in t.jobs && Due(t.jobs[id], now);
    order := Sorted(due, (a: Id, b: Id) => a in t.jobs && b in t.jobs && DueBefore(t, a, b));
  }

  lemma FrontFound(cfg: Config, t: Table) returns (choice: Option<Id>)
    requires Inv(t, cfg)
    ensures Picked(t, choice)
  {
    var queue := set id | id in t.jobs && t.jobs[id].state == Queued;
    if queue == {} {
      choice := None;
      assert forall id :: id in t.jobs && t.jobs[id].state == Queued ==> id in queue;
    } else {
      var before := (a: Id, b: Id) => a in t.jobs && b in t.jobs && Ahead(t.jobs[a], t.jobs[b]);
      forall a: Id, b: Id | a in queue && b in queue && a != b ensures before(a, b) || before(b, a) {
        assert PairOk(t, a, b);
      }
      var first := First(queue, before);
      choice := Some(first);
      forall other | other in t.jobs && other != first && t.jobs[other].state == Queued
        ensures Ahead(t.jobs[first], t.jobs[other])
      {
        assert other in queue;
        assert before(first, other);
      }
    }
  }

  lemma DelayFound(t: Table, now: Time) returns (delay: Time)
    ensures Delay(t, now, delay)
  {
    var later := set id | id in t.jobs && t.jobs[id].state == Retrying;
    if later == {} {
      delay := 300_000;
      assert forall id :: id in t.jobs && t.jobs[id].state == Retrying ==> id in later;
    } else {
      var first := FirstDue(t, now, later);
      delay := Until(t.jobs[first], now);
    }
  }

  lemma FirstDue(t: Table, now: Time, later: set<Id>) returns (first: Id)
    requires later != {} && forall id :: id in later ==> id in t.jobs
    ensures first in later && forall id :: id in later ==> Until(t.jobs[first], now) <= Until(t.jobs[id], now)
  {
    hide Until;
    var before := (a: Id, b: Id) => a in t.jobs && b in t.jobs && Until(t.jobs[a], now) <= Until(t.jobs[b], now);
    first := First(later, before);
    forall id | id in later ensures Until(t.jobs[first], now) <= Until(t.jobs[id], now) {
      assert id == first || before(first, id);
    }
  }

  lemma CanVisit(cfg: Config, s: System, w: WorkerId) returns (act: WorkerAct, s': System)
    requires Safe(cfg, s) && w in s.workers && s.workers[w].Watching?
    ensures WorkerNext(cfg, s, w, act, s')
  {
    hide Inv, Delay, Requeue, Picked;
    var woken := s.workers[w].woken;
    if s.table.closed {
      act, s' := Visit([], None, 0), SetWorker(s, w, Stopped);
      return;
    }
    var order := DueSorted(s.table, s.now);
    RequeueSafe(cfg, s.table, s.now, order);
    RequeueQuiet(s.table, s.now, order);
    var ready := Requeue(s.table, order);
    var choice := FrontFound(cfg, ready);
    var delay := DelayFound(ready, s.now);
    act := Visit(order, choice, delay);
    if choice.None? {
      s' := SetWorker(s.(table := ready), w, Asleep(woken, s.now + delay));
    } else {
      PickedFront(ready, choice);
      assert JobKnown(cfg, s, choice.value);
      var taken := s.(table := Take(ready, choice.value, s.now));
      s' := SetWorker(taken.(picks := s.picks[choice.value := s.picks[choice.value] + 1]), w,
                      Announcing(choice.value, s.table.jobs[choice.value].cancel));
    }
  }

  /**
   A worker can take a step unless it has stopped or sleeps: nobody has woken it and its
   time has not come. Whatever it is handed by the runner, it goes on with that.
   */
  lemma NoWorkerIsStuck(cfg: Config, s: System, w: WorkerId, selection: Selection, outcome: Outcome)
    returns (act: WorkerAct, s': System)
    requires Safe(cfg, s) && w in s.workers && !s.workers[w].Stopped?
    requires s.workers[w].Asleep? ==> s.workers[w].woken || s.workers[w].until <= s.now
    ensures WorkerNext(cfg, s, w, act, s')
    ensures act.Choose? ==> act.selection == selection
    ensures act.Return? ==> act.outcome == outcome
  {
    hide Safe;
    var me := s.workers[w];
    match me
    case Starting => act, s' := Watch, SetWorker(s, w, Watching(false));
    case Watching(_) => act, s' := CanVisit(cfg, s, w);
    case Asleep(_, _) => act, s' := WakeUp, SetWorker(s, w, Starting);
    case Announcing(id, flag) => act, s' := NotifyWaiters, SetWorker(NotifyAll(s), w, Choosing(id, flag));
    case Publishing(id, flag) => act, s' := NotifyWaiters, SetWorker(NotifyAll(s), w, Inferring(id, flag));
    case Reporting => act, s' := NotifyWaiters, SetWorker(NotifyAll(s), w, Starting);
    case Inferring(id, flag) => act, s' := Return(outcome), SetWorker(s, w, Returned(id, flag, outcome));
    case Choosing(id, flag) =>
      act := Choose(selection);
      var (u, ok) := Select(s.table, id, flag, selection, s.now);
      s' := SetWorker(s.(table := u), w, if ok then Publishing(id, flag) else Returned(id, flag, Fault(StoppedRun)));
    case Returned(id, flag, end) =>
      act := Settle;
      var (u, changed) := Complete(s.table, cfg, id, end, s.now);
      s' := SetWorker(s.(table := u), w, if changed then Reporting else Starting);
  }

  // A runner that fails while it selects a model hands in a runtime failure.
  lemma ChoosingMayFail(cfg: Config, s: System, w: WorkerId) returns (s': System)
    requires w in s.workers && s.workers[w].Choosing?
    ensures WorkerNext(cfg, s, w, Return(Fault(RuntimeFailure)), s')
    ensures s' == s.(workers := s.workers[w := Returned(s.workers[w].id, s.workers[w].flag, Fault(RuntimeFailure))])
  {
    s' := SetWorker(s, w, Returned(s.workers[w].id, s.workers[w].flag, Fault(RuntimeFailure)));
  }

  // ---------- callers ----------

  // There is always an id, and a flag, that nobody has used.
  lemma {:induction false} Unused(used: set<nat>) returns (n: nat)
    ensures forall m: nat :: m in used ==> m < n
    decreases |used|
  {
    if used == {} { return 0; }
    var one: nat :| one in used;
    var rest := Unused(used - {one});
    n := if one < rest then rest else one + 1;
    forall m: nat | m in used ensures m < n { assert m == one || m in used - {one}; }
  }

  /**
   A caller can take a step unless it has left or waits for a job that is not over and
   has not been woken. A listing is given exactly by an open broker.
   */
  lemma NoCallerIsStuck(cfg: Config, s: System, c: CallerId) returns (move: CallerAct, s': System)
    requires c in s.callers && !s.callers[c].Left? && (s.callers[c].Dozing? ==> s.callers[c].woken)
    ensures CallerNext(cfg, s, c, move, s') && !move.Abort?
    ensures s.callers[c].Listening? && s.callers[c].action.ListJobs? ==>
              c in s'.callers &&
              s'.callers[c] == if s.table.closed then Left(Refused(BrokerUnavailable)) else Replying(Listed)
  {
    var me := s.callers[c];
    match me
    case Arriving(action) => move, s' := Listen, SetCaller(s, c, Listening(action, false));
    case Dozing(action, _) => move, s' := Rouse, SetCaller(s, c, Arriving(action));
    case Replying(reply) => move, s' := NotifyAndLeave, SetCaller(NotifyAll(s), c, Left(reply));
    case Listening(action, woken) =>
      var id := Unused(s.issued);
      var flag := Unused(s.flags);
      assert id !in s.issued && flag !in s.flags;
      move := Serve(id, flag);
      s' := Serving(cfg, s, c, action, woken, id, flag);
  }

  lemma Serving(cfg: Config, s: System, c: CallerId, action: Action, woken: bool, id: Id, flag: Flag)
    returns (s': System)
    requires id !in s.issued && flag !in s.flags
    ensures Served(cfg, s, c, action, woken, id, flag, s')
    ensures action.ListJobs? ==>
              c in s'.callers &&
              s'.callers[c] == if s.table.closed then Left(Refused(BrokerUnavailable)) else Replying(Listed)
  {
    hide Submit, Manage;
    match action
    case SubmitJob(r) =>
      var (u, reply) := Submit(s.table, cfg, r, id, flag, s.now);
      s' := Answer(if reply.Refused? then s.(table := u)
                   else s.(table := u, issued := s.issued + {id}, flags := s.flags + {flag},
                           picks := s.picks[id := 0]), c, reply);
    case ListJobs =>
      var (u, listed) := List(s.table, s.now);
      s' := Answer(s.(table := u), c, if listed then Listed else Refused(BrokerUnavailable));
    case ManageJob(op, target, epochMatches) =>
      var (u, reply) := Manage(s.table, op, target, epochMatches, flag, s.now);
      var served := s.(table := u);
      s' := if reply.None? then SetCaller(served, c, Dozing(action, woken))
            else Answer(if op == Retry && !reply.value.Refused?
                        then served.(flags := s.flags + {flag}, picks := s.picks[target := 0]) else served,
                        c, reply.value);
  }
}
