/**
 The broker's job table, and what each block that runs under its mutex does to
 it, as functions on values. Class Broker (Broker.dfy) carries the same blocks
 out in place; BrokerSystem interleaves them.
 */
module BrokerTable {
  import opened Prelude

  type Id = nat        // a job id; a UUID in the program
  type Flag = nat      // the identity of one shared cancellation flag
  type Time = nat      // milliseconds

  datatype State = Queued | Running | Retrying | Succeeded | Failed | Cancelled | Superseded

  datatype Code = NoError | StoppedRun | InvalidOutput | IsolationFailure | AuthenticationUnavailable
                | RuntimeFailure | ModelFailure

  datatype Item = Item(name: string, revision: nat)

  datatype Request = Request(consumer: string, item: Option<Item>, interactive: bool, body: string)

  datatype Selection = Selection(model: string, reason: string)

  datatype Config = Config(concurrency: nat, capacity: nat, backoff: Time, schemaAttempts: nat)

  // What the runner hands back: a result that passed the output schema, one
  // that did not, or no result at all.
  datatype Usage = Usage(model: Option<string>, input: Option<nat>, output: Option<nat>)
  datatype Outcome = Done(value: string, usage: Usage) | Invalid(usage: Usage) | Fault(code: Code)

  datatype Job = Job(
    request: Request,
    sequence: nat,
    state: State,
    created: Time,
    updated: Time,
    started: Time,
    attempts: nat,
    transient: nat,
    invalidOutputs: nat,
    tokens: (nat, nat),
    selection: Option<Selection>,
    error: Code,
    result: Option<string>,
    promoted: bool,
    ready: Time,
    cancel: Flag)
  {
    predicate Terminal() {
      state in {Succeeded, Failed, Cancelled, Superseded}
    }

    // The fields that finish() writes; raising the cancel flag is the table's.
    function Finish(final: State, code: Code, now: Time): Job {
      this.(state := final, error := code, updated := now,
            result := if final == Succeeded then result else None)
    }
  }

  datatype Retired = Retired(id: Id, state: State, updated: Time)

  datatype Table = Table(
    jobs: map<Id, Job>,
    retired: seq<Retired>,
    revisions: map<(string, string), nat>,
    sequence: nat,
    activity: Time,
    closed: bool,
    raised: set<Flag>)  // the cancellation flags that read 1

  const EMPTY := Table(map[], [], map[], 0, 0, false, {})

  const SECOND: Time := 1000
  const MAX_PAIRS := 8192
  const MAX_RETIRED := 128
  const MAX_U64 := 0xFFFF_FFFF_FFFF_FFFF

  datatype Refusal = BrokerUnavailable | Capacity | StaleRevision | UnknownJob | InvalidState | BrokerRestarted

  datatype Operation = Status | Wait | Cancel | Retry | Next | Release

  datatype Reply = Refused(why: Refusal)
                 | Accepted(id: Id)
                 | Shown(state: State, result: Option<string>)
                 | Removed
                 | Listed

  // ---------- finishing jobs ----------

  // Finish one job: its fields, and its flag.
  function FinishJob(t: Table, id: Id, final: State, code: Code, now: Time): Table
    requires id in t.jobs
  {
    t.(jobs := t.jobs[id := t.jobs[id].Finish(final, code, now)],
       raised := t.raised + {t.jobs[id].cancel})
  }

  ghost function CancelFlags(jobs: map<Id, Job>, ids: set<Id>): set<Flag>
    requires ids <= jobs.Keys
  {
    set id | id in ids :: jobs[id].cancel
  }

  // Finish every job of a set with the same final state.
  ghost function FinishAll(t: Table, doomed: set<Id>, final: State, now: Time): Table
    requires doomed <= t.jobs.Keys
  {
    t.(jobs := map id | id in t.jobs ::
         if id in doomed then t.jobs[id].Finish(final, NoError, now) else t.jobs[id],
       raised := t.raised + CancelFlags(t.jobs, doomed))
  }

  ghost function Unfinished(t: Table): set<Id> {
    set id | id in t.jobs && !t.jobs[id].Terminal()
  }

  ghost function Close(t: Table, now: Time): Table {
    FinishAll(t, Unfinished(t), Cancelled, now).(closed := true)
  }

  function Clear(t: Table): Table {
    t.(jobs := map[], retired := [], revisions := map[])
  }

  // ---------- submit ----------

  predicate SameItem(j: Job, consumer: string, item: string) {
    j.request.consumer == consumer && j.request.item.Some? && j.request.item.value.name == item
  }

  ghost function SameItems(t: Table, consumer: string, item: string): set<Id> {
    set id | id in t.jobs && SameItem(t.jobs[id], consumer, item)
  }

  function NewJob(r: Request, sequence: nat, flag: Flag, now: Time): Job {
    Job(r, sequence, Queued, now, now, 0, 0, 0, 0, (0, 0), None, NoError, None, false, now, flag)
  }

  function Insert(t: Table, r: Request, id: Id, flag: Flag, now: Time): Table {
    t.(sequence := t.sequence + 1, jobs := t.jobs[id := NewJob(r, t.sequence + 1, flag, now)])
  }

  ghost function Submit(t: Table, cfg: Config, r: Request, id: Id, flag: Flag, now: Time): (Table, Reply)
  {
    var t := t.(activity := now);
    if t.closed then (t, Refused(BrokerUnavailable))
    else if |t.jobs| >= cfg.capacity then (t, Refused(Capacity))
    else match r.item
      case None => (Insert(t, r, id, flag, now), Accepted(id))
      case Some(item) =>
        var key := (r.consumer, item.name);
        if key in t.revisions && t.revisions[key] >= item.revision then (t, Refused(StaleRevision))
        else if key !in t.revisions && |t.revisions| >= MAX_PAIRS then (t, Refused(Capacity))
        else
          var t := t.(revisions := t.revisions[key := item.revision]);
          var t := FinishAll(t, SameItems(t, r.consumer, item.name), Superseded, now);
          (Insert(t, r, id, flag, now), Accepted(id))
  }

  // ---------- operations on one job ----------

  predicate Allowed(op: Operation, j: Job) {
    match op
    case Cancel => !j.Terminal()
    case Retry => j.state == Failed
    case Next => j.state == Queued
    case Release => j.Terminal()
    case _ => true
  }

  function Retire(t: Table, id: Id): Table
    requires id in t.jobs
  {
    var j := t.jobs[id];
    var tail := if j.state == Failed then t.retired else t.retired + [Retired(id, j.state, j.updated)];
    t.(jobs := t.jobs - {id},
       retired := if |tail| > MAX_RETIRED then tail[1..] else tail)
  }

  function Requeued(j: Job, flag: Flag, now: Time): Job {
    j.(state := Queued, selection := None, transient := 0, invalidOutputs := 0, error := NoError,
       cancel := flag, updated := now)
  }

  ghost function Demoted(t: Table): Table {
    t.(jobs := map id | id in t.jobs :: t.jobs[id].(promoted := false))
  }

  // What the allowed operation `op` does to the job `id`.
  ghost function Apply(t: Table, op: Operation, id: Id, flag: Flag, now: Time): Table
    requires id in t.jobs
  {
    match op
    case Cancel => FinishJob(t, id, Cancelled, NoError, now)
    case Retry => t.(jobs := t.jobs[id := Requeued(t.jobs[id], flag, now)])
    case Next => Demoted(t).(jobs := Demoted(t).jobs[id := t.jobs[id].(promoted := true, updated := now)])
    case Release => Retire(t, id)
    case _ => t
  }

  function Show(op: Operation, j: Job): Reply {
    Shown(j.state, if j.state == Succeeded && op in {Status, Wait} then j.result else None)
  }

  // None stands for the waiter that goes to sleep.
  ghost function Manage(t: Table, op: Operation, id: Id, epochMatches: bool, flag: Flag,
        now: Time): (Table, Option<Reply>)
  {
    var t := t.(activity := now);
    if t.closed then (t, Some(Refused(BrokerUnavailable)))
    else if !epochMatches then (t, Some(Refused(BrokerRestarted)))
    else if id !in t.jobs then (t, Some(Refused(UnknownJob)))
    else if op == Wait && !t.jobs[id].Terminal() then (t, None)
    else if !Allowed(op, t.jobs[id]) then (t, Some(Refused(InvalidState)))
    else
      var after := Apply(t, op, id, flag, now);
      (after, Some(if op == Release then Removed else Show(op, after.jobs[id])))
  }

  ghost function List(t: Table, now: Time): (Table, bool) {
    var t := t.(activity := now);
    if t.closed then (t, false) else (t.(retired := Recent(t.retired, now)), true)
  }

  function Recent(rows: seq<Retired>, now: Time): seq<Retired> {
    if rows == [] then []
    else if now < rows[0].updated + 5 * SECOND then [rows[0]] + Recent(rows[1..], now)
    else Recent(rows[1..], now)
  }

  // A listing names the jobs at work, then the queue, then the finished ones.
  function Section(j: Job): nat {
    if j.state in {Running, Retrying} then 0 else if j.state == Queued then 1 else 2
  }

  predicate ListedBefore(x: Job, y: Job) {
    if Section(x) != Section(y) then Section(x) < Section(y)
    else if Section(x) == 0 then x.sequence < y.sequence
    else if Section(x) == 1 then Ahead(x, y)
    else x.updated > y.updated || (x.updated == y.updated && x.sequence > y.sequence)
  }

  // Every job once, in the order of a listing.
  ghost predicate Listing(t: Table, order: seq<Id>) {
    && (forall id :: id in order <==> id in t.jobs)
    && (forall i, j :: 0 <= i < j < |order| ==> ListedBefore(t.jobs[order[i]], t.jobs[order[j]]))
  }

  // ---------- a worker picks a job ----------

  predicate Due(j: Job, now: Time) {
    j.state == Retrying && j.ready <= now
  }

  // The sort key (ready, sequence, id) of the retries that are due.
  predicate DueBefore(t: Table, a: Id, b: Id)
    requires a in t.jobs && b in t.jobs
  {
    var x, y := t.jobs[a], t.jobs[b];
    x.ready < y.ready
    || (x.ready == y.ready && (x.sequence < y.sequence || (x.sequence == y.sequence && a < b)))
  }

  ghost predicate DueOrder(t: Table, now: Time, order: seq<Id>) {
    && (forall id :: id in order <==> id in t.jobs && Due(t.jobs[id], now))
    && (forall i, j :: 0 <= i < j < |order| ==> DueBefore(t, order[i], order[j]))
  }

  function RequeueOne(t: Table, id: Id): Table
    requires id in t.jobs
  {
    t.(sequence := t.sequence + 1,
       jobs := t.jobs[id := t.jobs[id].(state := Queued, sequence := t.sequence + 1)])
  }

  function Requeue(t: Table, order: seq<Id>): (r: Table)
    requires forall id :: id in order ==> id in t.jobs
    ensures r.jobs.Keys == t.jobs.Keys
  {
    if order == [] then t else
      var init := order[..|order| - 1];
      assert forall id :: id in init ==> id in order;
      RequeueOne(Requeue(t, init), order[|order| - 1])
  }

  // The sort key (!promoted, !interactive, sequence) of the queue.
  predicate Ahead(x: Job, y: Job) {
    if x.promoted != y.promoted then x.promoted
    else if x.request.interactive != y.request.interactive then x.request.interactive
    else x.sequence < y.sequence
  }

  ghost predicate Front(t: Table, id: Id) {
    && id in t.jobs && t.jobs[id].state == Queued
    && forall other :: other in t.jobs && other != id && t.jobs[other].state == Queued ==>
         Ahead(t.jobs[id], t.jobs[other])
  }

  ghost predicate Picked(t: Table, choice: Option<Id>) {
    match choice
    case Some(id) => Front(t, id)
    case None => forall id :: id in t.jobs ==> t.jobs[id].state != Queued
  }

  function Take(t: Table, id: Id, now: Time): Table
    requires id in t.jobs
  {
    var j := t.jobs[id];
    t.(jobs := t.jobs[id := j.(state := Running, selection := None, promoted := false,
                               started := if j.started == 0 then now else j.started,
                               updated := now, attempts := j.attempts + 1)])
  }

  function TakeChoice(t: Table, choice: Option<Id>, now: Time): Table
    requires choice.Some? ==> choice.value in t.jobs
  {
    match choice case Some(id) => Take(t, id, now) case None => t
  }

  function Until(j: Job, now: Time): Time {
    if j.ready <= now then 0 else j.ready - now
  }

  // How long a worker that found nothing to run will sleep.
  ghost predicate Delay(t: Table, now: Time, delay: Time) {
    && (forall id :: id in t.jobs && t.jobs[id].state == Retrying ==> delay <= Until(t.jobs[id], now))
    && ((delay == 300 * SECOND && forall id :: id in t.jobs ==> t.jobs[id].state != Retrying)
        || exists id :: id in t.jobs && t.jobs[id].state == Retrying && delay == Until(t.jobs[id], now))
  }

  // ---------- the runner's two visits to the table ----------

  // Recording the selection, unless the job is gone or was stopped.
  function Select(t: Table, id: Id, flag: Flag, s: Selection, now: Time): (Table, bool) {
    if id !in t.jobs || t.jobs[id].Terminal() || flag in t.raised then (t, false)
    else (t.(jobs := t.jobs[id := t.jobs[id].(selection := Some(s), updated := now)]), true)
  }

  function SaturatingAdd(n: nat, more: Option<nat>): nat {
    match more case None => n case Some(m) => if n + m > MAX_U64 then MAX_U64 else n + m
  }

  function Charge(j: Job, u: Usage): Job {
    j.(selection := if u.model.Some? && j.selection.Some?
                    then Some(j.selection.value.(model := u.model.value)) else j.selection,
       tokens := (SaturatingAdd(j.tokens.0, u.input), SaturatingAdd(j.tokens.1, u.output)))
  }

  function Pow2(n: nat): nat {
    if n == 0 then 1 else 2 * Pow2(n - 1)
  }

  function RetryAfter(cfg: Config, transient: nat): Time {
    var scaled := cfg.backoff * Pow2(if transient < 5 then transient else 5);
    if scaled < 30 * SECOND then scaled else 30 * SECOND
  }

  function CountFailure(j: Job, code: Code): Job {
    if code == InvalidOutput then j.(invalidOutputs := j.invalidOutputs + 1)
    else j.(transient := j.transient + 1)
  }

  predicate Hopeless(cfg: Config, j: Job, code: Code) {
    code in {IsolationFailure, AuthenticationUnavailable} || j.transient > 2 || j.invalidOutputs >= cfg.schemaAttempts
  }

  function Fail(t: Table, cfg: Config, id: Id, code: Code, now: Time): Table
    requires id in t.jobs
  {
    var j := CountFailure(t.jobs[id], code);
    var t := t.(jobs := t.jobs[id := j]);
    if Hopeless(cfg, j, code) then FinishJob(t, id, Failed, code, now)
    else t.(jobs := t.jobs[id := j.(state := Retrying, updated := now, ready := now + RetryAfter(cfg, j.transient))])
  }

  // The runner's outcome arrives. The flag says whether waiters are notified.
  function Complete(t: Table, cfg: Config, id: Id, outcome: Outcome, now: Time): (Table, bool) {
    var t := t.(activity := now);
    if id !in t.jobs || t.jobs[id].Terminal() then (t, false)
    else match outcome
      case Done(value, usage) =>
        var j := Charge(t.jobs[id], usage).(result := Some(value));
        (FinishJob(t.(jobs := t.jobs[id := j]), id, Succeeded, NoError, now), true)
      case Invalid(usage) =>
        (Fail(t.(jobs := t.jobs[id := Charge(t.jobs[id], usage)]), cfg, id, InvalidOutput, now), true)
      case Fault(code) => (Fail(t, cfg, id, code, now), true)
  }
}
