/**
 The broker's scheduler as the object the program keeps behind its mutex. Each
 method is one block that holds the lock. A HashMap is visited in no particular
 order, so its loops take keys as they come; what a method leaves behind is the
 value that BrokerTable says, whatever that order was.
 */
module Broker {
  import opened Prelude
  import opened BrokerTable
  import opened BrokerInvariants

  lemma FinishOneMore(t: Table, done: set<Id>, id: Id, final: State, now: Time)
    requires done <= t.jobs.Keys && id in t.jobs && id !in done
    ensures FinishAll(t, done + {id}, final, now) == FinishJob(FinishAll(t, done, final, now), id, final, NoError, now)
  { }

  class Broker {
    const config: Config
    var jobs: map<Id, Job>
    var retired: seq<Retired>
    var revisions: map<(string, string), nat>
    var sequence: nat
    var activity: Time
    var closed: bool
    var raised: set<Flag>

    ghost function View(): Table
      reads this
    {
      Table(jobs, retired, revisions, sequence, activity, closed, raised)
    }

    constructor (config: Config)
      ensures this.config == config
      ensures View() == EMPTY && Inv(View(), config)
    {
      this.config := config;
      jobs, retired, revisions := map[], [], map[];
      sequence, activity, closed, raised := 0, 0, false, {};
    }

    // Job::finish on one entry of the table.
    method Finish(id: Id, final: State, code: Code, now: Time)
      requires id in jobs
      modifies this`jobs, this`raised
      ensures View() == FinishJob(old(View()), id, final, code, now)
    {
      var job := jobs[id];
      raised := raised + {job.cancel};
      jobs := jobs[id := job.Finish(final, code, now)];
    }

    // The loops of close() and submit: finish every job of a set.
    method FinishEach(doomed: set<Id>, final: State, now: Time)
      requires doomed <= jobs.Keys
      modifies this`jobs, this`raised
      ensures View() == FinishAll(old(View()), doomed, final, now)
    {
      var rest := doomed;
      ghost var done: set<Id> := {};
      assert FinishAll(old(View()), {}, final, now) == old(View()) by {
        assert FinishAll(old(View()), {}, final, now).jobs == old(View()).jobs;
      }
      while rest != {}
        invariant rest !! done && rest + done == doomed
        invariant View() == FinishAll(old(View()), done, final, now)
      {
        var id :| id in rest;
        FinishOneMore(old(View()), done, id, final, now);
        Finish(id, final, NoError, now);
        rest, done := rest - {id}, done + {id};
      }
      assert done == doomed;
    }

    method Close(now: Time)
      modifies this
      ensures View() == BrokerTable.Close(old(View()), now)
    {
      closed := true;
      var unfinished := set id | id in jobs && !jobs[id].Terminal();
      FinishEach(unfinished, Cancelled, now);
    }

    method Clear()
      modifies this
      ensures View() == BrokerTable.Clear(old(View()))
    {
      jobs, retired, revisions := map[], [], map[];
    }

    // ---------- call() ----------

    method Submit(r: Request, id: Id, flag: Flag, now: Time) returns (reply: Reply)
      requires Inv(View(), config) && Fresh(View(), id, flag)
      modifies this
      ensures (View(), reply) == BrokerTable.Submit(old(View()), config, r, id, flag, now)
      ensures Inv(View(), config)
    {
      SubmitKeeps(View(), config, r, id, flag, now);
      activity := now;
      if closed { return Refused(BrokerUnavailable); }
      if |jobs| >= config.capacity { return Refused(Capacity); }
      if r.item.Some? {
        var key := (r.consumer, r.item.value.name);
        if key in revisions && revisions[key] >= r.item.value.revision { return Refused(StaleRevision); }
        if key !in revisions && |revisions| >= MAX_PAIRS { return Refused(Capacity); }
        revisions := revisions[key := r.item.value.revision];
        var older := set x | x in jobs && SameItem(jobs[x], r.consumer, r.item.value.name);
        FinishEach(older, Superseded, now);
      }
      sequence := sequence + 1;
      jobs := jobs[id := NewJob(r, sequence, flag, now)];
      reply := Accepted(id);
    }

    // status, wait, cancel, retry, next and release. None sends a waiter to sleep.
    method Manage(op: Operation, id: Id, epochMatches: bool, flag: Flag, now: Time) returns (reply: Option<Reply>)
      requires Inv(View(), config) && FreshFlag(View(), flag)
      modifies this
      ensures (View(), reply) == BrokerTable.Manage(old(View()), op, id, epochMatches, flag, now)
      ensures Inv(View(), config)
    {
      ManageKeeps(View(), config, op, id, epochMatches, flag, now);
      activity := now;
      if closed { return Some(Refused(BrokerUnavailable)); }
      if !epochMatches { return Some(Refused(BrokerRestarted)); }
      if id !in jobs { return Some(Refused(UnknownJob)); }
      if op == Wait && !jobs[id].Terminal() { return None; }
      if !Allowed(op, jobs[id]) { return Some(Refused(InvalidState)); }
      if op == Release {
        var job := jobs[id];
        jobs := jobs - {id};
        if job.state != Failed {
          retired := retired + [Retired(id, job.state, job.updated)];
        }
        if |retired| > MAX_RETIRED { retired := retired[1..]; }
        return Some(Removed);
      }
      if op == Next { DemoteAll(); }
      match op {
        case Cancel => Finish(id, Cancelled, NoError, now);
        case Retry =>
          jobs := jobs[id := jobs[id].(state := Queued, selection := None, transient := 0, invalidOutputs := 0,
                                       error := NoError, cancel := flag, updated := now)];
        case Next =>
          jobs := jobs[id := jobs[id].(promoted := true, updated := now)];
        case _ =>
      }
      reply := Some(Show(op, jobs[id]));
    }

    method DemoteAll()
      modifies this`jobs
      ensures View() == Demoted(old(View()))
    {
      var rest := jobs.Keys;
      while rest != {}
        invariant jobs.Keys == old(jobs).Keys && rest <= jobs.Keys
        invariant forall id :: id in jobs ==>
                    jobs[id] == if id in rest then old(jobs)[id] else old(jobs)[id].(promoted := false)
      {
        var id :| id in rest;
        jobs := jobs[id := jobs[id].(promoted := false)];
        rest := rest - {id};
      }
    }

    // Retired entries of the last five seconds are kept, and listed behind the jobs.
    method List(now: Time) returns (listed: bool, order: seq<Id>, recent: seq<Retired>)
      requires Inv(View(), config)
      modifies this
      ensures (View(), listed) == BrokerTable.List(old(View()), now)
      ensures listed ==> Listing(View(), order) && recent == retired
    {
      hide Inv, ListedBefore, Listing;
      order, recent := [], [];
      activity := now;
      if closed { return false, order, recent; }
      var i := |retired|;
      while i > 0
        invariant 0 <= i <= |retired| && retired == old(retired)
        invariant View() == old(View()).(activity := now)
        invariant recent == Recent(retired[i..], now)
      {
        i := i - 1;
        assert retired[i..][1..] == retired[i + 1..];
        if now < retired[i].updated + 5 * SECOND { recent := [retired[i]] + recent; }
      }
      assert retired[0..] == retired;
      retired := recent;
      TouchKeeps(old(View()), config, now, recent);
      order := InSections();
      listed := true;
    }

    method InSections() returns (order: seq<Id>)
      requires Inv(View(), config)
      ensures Listing(View(), order)
    {
      hide Inv, ListedBefore;
      var running := Arranged(set id | id in jobs && jobs[id].state in {Running, Retrying});
      var queue := Arranged(set id | id in jobs && jobs[id].state == Queued);
      var terminal := Arranged(set id | id in jobs && jobs[id].Terminal());
      Joined(View(), running, queue, terminal);
      order := running + queue + terminal;
    }

    // One section of a listing.
    method Arranged(section: set<Id>) returns (order: seq<Id>)
      requires Inv(View(), config) && section <= jobs.Keys
      requires forall a, b :: a in section && b in section ==> Section(jobs[a]) == Section(jobs[b])
      ensures forall id :: id in order <==> id in section
      ensures forall i, j :: 0 <= i < j < |order| ==> ListedBefore(jobs[order[i]], jobs[order[j]])
    {
      var rest := section;
      order := [];
      while rest != {}
        invariant rest <= section
        invariant forall id :: id in order <==> id in section && id !in rest
        invariant forall i, j :: 0 <= i < j < |order| ==> ListedBefore(jobs[order[i]], jobs[order[j]])
        invariant forall i, id :: 0 <= i < |order| && id in rest ==> ListedBefore(jobs[order[i]], jobs[id])
      {
        var first := FirstListed(rest);
        order := order + [first];
        rest := rest - {first};
      }
    }

    method FirstListed(among: set<Id>) returns (first: Id)
      requires Inv(View(), config) && among != {} && among <= jobs.Keys
      ensures first in among
      ensures forall id :: id in among && id != first ==> ListedBefore(jobs[first], jobs[id])
    {
      first :| first in among;
      var rest := among - {first};
      while rest != {}
        invariant rest <= among && first in among && first !in rest
        invariant forall id :: id in among && id !in rest && id != first ==> ListedBefore(jobs[first], jobs[id])
      {
        var id :| id in rest;
        rest := rest - {id};
        assert PairOk(View(), id, first);
        if ListedBefore(jobs[id], jobs[first]) { first := id; }
      }
    }

    // ---------- work() ----------

    // Collect the retries that are due and sort them.
    method SortDue(now: Time) returns (order: seq<Id>)
      requires Inv(View(), config)
      ensures DueOrder(View(), now, order)
    {
      var rest := set id | id in jobs && Due(jobs[id], now);
      ghost var due: set<Id> := rest;
      order := [];
      while rest != {}
        invariant rest <= due
        invariant forall id :: id in order <==> id in due && id !in rest
        invariant forall i :: 0 <= i < |order| ==> order[i] in jobs
        invariant forall i, j :: 0 <= i < j < |order| ==> DueBefore(View(), order[i], order[j])
        invariant forall i, id :: 0 <= i < |order| && id in rest ==> DueBefore(View(), order[i], id)
      {
        var first := Earliest(rest);
        order := order + [first];
        rest := rest - {first};
      }
    }

    method Earliest(among: set<Id>) returns (first: Id)
      requires among != {} && among <= jobs.Keys
      ensures first in among
      ensures forall id :: id in among && id != first ==> DueBefore(View(), first, id)
    {
      first :| first in among;
      var rest := among - {first};
      while rest != {}
        invariant rest <= among && first in among && first !in rest
        invariant forall id :: id in among && id !in rest && id != first ==> DueBefore(View(), first, id)
      {
        var id :| id in rest;
        rest := rest - {id};
        if jobs[id].ready < jobs[first].ready
           || (jobs[id].ready == jobs[first].ready
               && (jobs[id].sequence < jobs[first].sequence
                   || (jobs[id].sequence == jobs[first].sequence && id < first))) {
          first := id;
        }
      }
    }

    // The head of the sorted queue.
    method QueueFront() returns (choice: Option<Id>)
      requires Inv(View(), config)
      ensures Picked(View(), choice)
    {
      var rest := set id | id in jobs && jobs[id].state == Queued;
      choice := None;
      while rest != {}
        invariant rest <= jobs.Keys && forall id :: id in rest ==> jobs[id].state == Queued
        invariant choice.Some? ==> choice.value in jobs && choice.value !in rest && jobs[choice.value].state == Queued
        invariant forall id :: id in jobs && jobs[id].state == Queued && id !in rest ==>
                    choice.Some? && (id == choice.value || Ahead(jobs[choice.value], jobs[id]))
      {
        var id :| id in rest;
        rest := rest - {id};
        if choice.None? {
          choice := Some(id);
        } else {
          assert PairOk(View(), id, choice.value);
          if Ahead(jobs[id], jobs[choice.value]) { choice := Some(id); }
        }
      }
    }

    method NextRetry(now: Time) returns (delay: Time)
      ensures Delay(View(), now, delay)
    {
      var rest := set id | id in jobs && jobs[id].state == Retrying;
      var found: Option<Time> := None;
      while rest != {}
        invariant rest <= jobs.Keys && forall id :: id in rest ==> jobs[id].state == Retrying
        invariant forall id :: id in jobs && jobs[id].state == Retrying && id !in rest ==>
                    found.Some? && found.value <= Until(jobs[id], now)
        invariant found.Some? ==>
                    exists id :: id in jobs && jobs[id].state == Retrying && found.value == Until(jobs[id], now)
      {
        var id :| id in rest;
        rest := rest - {id};
        var wait := Until(jobs[id], now);
        if found.None? || wait < found.value { found := Some(wait); }
      }
      delay := match found case Some(wait) => wait case None => 300 * SECOND;
    }

    method RequeueEach(due: seq<Id>, ghost now: Time)
      requires Inv(View(), config) && DueOrder(View(), now, due)
      modifies this`jobs, this`sequence
      ensures View() == Requeue(old(View()), due) && Inv(View(), config)
    {
      forall a, b | 0 <= a < b < |due| ensures due[a] != due[b] {
        assert due[a] in due && due[b] in due && DueBefore(View(), due[a], due[b]);
      }
      RequeueKeeps(View(), config, due);
      var i := 0;
      while i < |due|
        invariant 0 <= i <= |due|
        invariant forall id :: id in due[..i] ==> id in due
        invariant View() == Requeue(old(View()), due[..i])
      {
        assert due[..i + 1][..i] == due[..i] && due[i] in due;
        var id := due[i];
        sequence := sequence + 1;
        jobs := jobs[id := jobs[id].(state := Queued, sequence := sequence)];
        i := i + 1;
      }
      assert due[..i] == due;
    }

    // One visit of a worker to the table. None means the broker is closed.
    method Pick(now: Time) returns (open: bool, choice: Option<Id>, delay: Time, ghost order: seq<Id>)
      requires Inv(View(), config)
      modifies this
      ensures open == !old(closed)
      ensures !open ==> View() == old(View())
      ensures open ==>
                && DueOrder(old(View()), now, order)
                && var requeued := Requeue(old(View()), order);
                && Picked(requeued, choice) && Delay(requeued, now, delay)
                && View() == TakeChoice(requeued, choice, now)
      ensures Inv(View(), config)
    {
      choice, delay, order := None, 0, [];
      open := !closed;
      if closed { return; }
      var due := SortDue(now);
      order := due;
      RequeueEach(due, now);
      delay := NextRetry(now);
      choice := QueueFront();
      if choice.Some? {
        var id := choice.value;
        var job := jobs[id];
        TakeKeeps(View(), config, id, now);
        if job.started == 0 { job := job.(started := now); }
        jobs := jobs[id := job.(state := Running, selection := None, promoted := false,
                                updated := now, attempts := job.attempts + 1)];
      }
    }

    // The runner has chosen a model and is about to infer.
    method Select(id: Id, flag: Flag, s: Selection, now: Time) returns (proceed: bool)
      requires Inv(View(), config)
      modifies this`jobs
      ensures (View(), proceed) == BrokerTable.Select(old(View()), id, flag, s, now)
      ensures Inv(View(), config)
    {
      SelectKeeps(View(), config, id, flag, s, now);
      if id !in jobs { return false; }
      if jobs[id].Terminal() || flag in raised { return false; }
      jobs := jobs[id := jobs[id].(selection := Some(s), updated := now)];
      proceed := true;
    }

    // The runner's outcome arrives.
    method Complete(id: Id, outcome: Outcome, now: Time) returns (changed: bool)
      requires Inv(View(), config)
      modifies this
      ensures (View(), changed) == BrokerTable.Complete(old(View()), config, id, outcome, now)
      ensures Inv(View(), config)
    {
      CompleteKeeps(View(), config, id, outcome, now);
      activity := now;
      if id !in jobs { return false; }
      if jobs[id].Terminal() { return false; }
      changed := true;
      var code := NoError;
      match outcome {
        case Done(value, usage) =>
          jobs := jobs[id := Charge(jobs[id], usage).(result := Some(value))];
          Finish(id, Succeeded, NoError, now);
          return;
        case Invalid(usage) =>
          jobs := jobs[id := Charge(jobs[id], usage)];
          code := InvalidOutput;
        case Fault(c) =>
          code := c;
      }
      var job := jobs[id];
      if code == InvalidOutput {
        job := job.(invalidOutputs := job.invalidOutputs + 1);
      } else {
        job := job.(transient := job.transient + 1);
      }
      jobs := jobs[id := job];
      if code in {IsolationFailure, AuthenticationUnavailable}
         || job.transient > 2 || job.invalidOutputs >= config.schemaAttempts {
        Finish(id, Failed, code, now);
      } else {
        jobs := jobs[id := job.(state := Retrying, updated := now, ready := now + RetryAfter(config, job.transient))];
      }
    }
  }
}
