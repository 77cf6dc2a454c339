/**
 The broker at work: worker loops, IPC callers, the runner and the clock,
 interleaved one atomic step at a time. A step is one block that holds the lock,
 one notify_waiters, one return of the runner, or one wake-up.
 */
module BrokerSystem {
  import opened Prelude
  import opened BrokerTable

  type WorkerId = nat
  type CallerId = nat

  // Where a worker stands. `woken` is what its enabled waiter has received.
  datatype Worker =
    | Starting
    | Watching(woken: bool)                  // waiter enabled, table not read yet
    | Asleep(woken: bool, until: Time)       // nothing to run
    | Announcing(id: Id, flag: Flag)         // picked, owes a notification
    | Choosing(id: Id, flag: Flag)           // the runner selects a model
    | Publishing(id: Id, flag: Flag)         // selection stored, owes a notification
    | Inferring(id: Id, flag: Flag)
    | Returned(id: Id, flag: Flag, outcome: Outcome)
    | Reporting                              // completion stored, owes a notification
    | Stopped
  {
    predicate InFlight() { Announcing? || Choosing? || Publishing? || Inferring? || Returned? }
    predicate Owes() { Announcing? || Publishing? || Reporting? }
    predicate Sleeps() { Asleep? && !woken }
    function Notified(): Worker { if Watching? || Asleep? then this.(woken := true) else this }
  }

  datatype Action = SubmitJob(request: Request) | ListJobs | ManageJob(op: Operation, id: Id, epochMatches: bool)

  datatype Caller =
    | Arriving(action: Action)
    | Listening(action: Action, woken: bool)   // waiter enabled, table not read yet
    | Dozing(action: Action, woken: bool)      // `wait` on an unfinished job
    | Replying(reply: Reply)                   // reply made, owes a notification
    | Left(reply: Reply)
  {
    predicate Sleeps() { Dozing? && !woken }
    function Notified(): Caller { if Listening? || Dozing? then this.(woken := true) else this }
  }

  datatype System = System(
    table: Table,
    workers: map<WorkerId, Worker>,
    callers: map<CallerId, Caller>,
    now: Time,
    issued: set<Id>,        // every job id there has been
    flags: set<Flag>,       // every cancellation flag there has been
    picks: map<Id, nat>)    // worker picks of a job since its submission or last manual retry

  datatype WorkerAct =
    | Watch
    | Visit(order: seq<Id>, choice: Option<Id>, delay: Time)
    | WakeUp
    | NotifyWaiters
    | Choose(selection: Selection)
    | Return(outcome: Outcome)
    | Settle

  datatype CallerAct =
    | Listen
    | Serve(id: Id, flag: Flag)
    | Rouse
    | NotifyAndLeave
    | Abort

  datatype Step =
    | Work(w: WorkerId, act: WorkerAct)
    | Converse(c: CallerId, move: CallerAct)
    | Call(newcomer: CallerId, action: Action)
    | CloseBroker
    | ClearBroker
    | Tick(elapsed: Time)

  function NotifyAll(s: System): System {
    s.(workers := map w | w in s.workers :: s.workers[w].Notified(),
       callers := map c | c in s.callers :: s.callers[c].Notified())
  }

  function SetWorker(s: System, w: WorkerId, to: Worker): System {
    s.(workers := s.workers[w := to])
  }

  function SetCaller(s: System, c: CallerId, to: Caller): System {
    s.(callers := s.callers[c := to])
  }

  function Workers(cfg: Config): nat {
    if cfg.concurrency < 1 then 1 else if cfg.concurrency > 8 then 8 else cfg.concurrency
  }

  ghost predicate Init(cfg: Config, s: System) {
    && s.table == EMPTY
    && (forall w: WorkerId :: w in s.workers <==> w < Workers(cfg))
    && (forall w: WorkerId :: w in s.workers ==> s.workers[w] == Starting)
    && s.callers == map[] && s.issued == {} && s.flags == {} && s.picks == map[]
  }

  // A worker reads the table: it stops, goes to sleep, or takes the next job.
  ghost predicate Visited(s: System, w: WorkerId, woken: bool, order: seq<Id>, choice: Option<Id>, delay: Time,
        s': System)
    requires w in s.workers
  {
    if s.table.closed then s' == SetWorker(s, w, Stopped)
    else
      && DueOrder(s.table, s.now, order)
      && var ready := Requeue(s.table, order);
      && Picked(ready, choice) && Delay(ready, s.now, delay)
      && var taken := s.(table := TakeChoice(ready, choice, s.now));
      && if choice.None? then s' == SetWorker(taken, w, Asleep(woken, s.now + delay))
         else
           && choice.value in s.picks
           && s' == SetWorker(taken.(picks := s.picks[choice.value := s.picks[choice.value] + 1]), w,
                              Announcing(choice.value, s.table.jobs[choice.value].cancel))
  }

  ghost predicate WorkerNext(cfg: Config, s: System, w: WorkerId, act: WorkerAct, s': System)
    requires w in s.workers
  {
    var me := s.workers[w];
    match act
    case Watch => me.Starting? && s' == SetWorker(s, w, Watching(false))
    case Visit(order, choice, delay) => me.Watching? && Visited(s, w, me.woken, order, choice, delay, s')
    case WakeUp => me.Asleep? && (me.woken || me.until <= s.now) && s' == SetWorker(s, w, Starting)
    case NotifyWaiters =>
      && me.Owes()
      && s' == SetWorker(NotifyAll(s), w,
                         if me.Announcing? then Choosing(me.id, me.flag)
                         else if me.Publishing? then Inferring(me.id, me.flag) else Starting)
    case Choose(selection) =>
      && me.Choosing?
      && var (u, ok) := Select(s.table, me.id, me.flag, selection, s.now);
      && s' == SetWorker(s.(table := u), w,
                         if ok then Publishing(me.id, me.flag) else Returned(me.id, me.flag, Fault(StoppedRun)))
    case Return(outcome) =>  // a runner that panics reports a runtime failure
      && (me.Inferring? || (me.Choosing? && outcome == Fault(RuntimeFailure)))
      && s' == SetWorker(s, w, Returned(me.id, me.flag, outcome))
    case Settle =>
      && me.Returned?
      && var (u, changed) := Complete(s.table, cfg, me.id, me.outcome, s.now);
      && s' == SetWorker(s.(table := u), w, if changed then Reporting else Starting)
  }

  function Answer(s: System, c: CallerId, reply: Reply): System {
    SetCaller(s, c, if reply.Refused? then Left(reply) else Replying(reply))
  }

  // The lock-held block of call() for each kind of message.
  ghost predicate Served(cfg: Config, s: System, c: CallerId, action: Action, woken: bool, id: Id, flag: Flag,
        s': System)
  {
    match action
    case SubmitJob(r) =>
      && id !in s.issued && flag !in s.flags
      && var (u, reply) := Submit(s.table, cfg, r, id, flag, s.now);
      && s' == Answer(if reply.Refused? then s.(table := u)
                      else s.(table := u, issued := s.issued + {id}, flags := s.flags + {flag},
                              picks := s.picks[id := 0]),
                      c, reply)
    case ListJobs =>
      var (u, listed) := List(s.table, s.now);
      s' == Answer(s.(table := u), c, if listed then Listed else Refused(BrokerUnavailable))
    case ManageJob(op, target, epochMatches) =>
      && flag !in s.flags
      && var (u, reply) := Manage(s.table, op, target, epochMatches, flag, s.now);
      && var served := s.(table := u);
      && if reply.None? then s' == SetCaller(served, c, Dozing(action, woken))
         else s' == Answer(if op == Retry && !reply.value.Refused?
                           then served.(flags := s.flags + {flag}, picks := s.picks[target := 0]) else served,
                           c, reply.value)
  }

  ghost predicate CallerNext(cfg: Config, s: System, c: CallerId, move: CallerAct, s': System)
    requires c in s.callers
  {
    var me := s.callers[c];
    match move
    case Listen => me.Arriving? && s' == SetCaller(s, c, Listening(me.action, false))
    case Serve(id, flag) => me.Listening? && Served(cfg, s, c, me.action, me.woken, id, flag, s')
    case Rouse => me.Dozing? && me.woken && s' == SetCaller(s, c, Arriving(me.action))
    case NotifyAndLeave => me.Replying? && s' == SetCaller(NotifyAll(s), c, Left(me.reply))
    case Abort => (me.Arriving? || me.Dozing?) && s' == s.(callers := s.callers - {c})
  }

  ghost predicate Transition(cfg: Config, s: System, step: Step, s': System) {
    match step
    case Work(w, act) => w in s.workers && WorkerNext(cfg, s, w, act, s')
    case Converse(c, move) => c in s.callers && CallerNext(cfg, s, c, move, s')
    case Call(c, action) => c !in s.callers && s' == SetCaller(s, c, Arriving(action))
    case CloseBroker => s' == NotifyAll(s.(table := Close(s.table, s.now)))
    case ClearBroker => s' == s.(table := Clear(s.table))
    case Tick(elapsed) => s' == s.(now := s.now + elapsed)
  }

  // A run of the system, and the steps it took.
  datatype Run = Run(states: seq<System>, steps: seq<Step>)

  ghost predicate StepAt(cfg: Config, run: Run, i: nat)
    requires |run.states| == |run.steps| + 1 && i < |run.steps|
  {
    Transition(cfg, run.states[i], run.steps[i], run.states[i + 1])
  }

  ghost predicate IsRun(cfg: Config, run: Run) {
    && |run.states| == |run.steps| + 1
    && Init(cfg, run.states[0])
    && forall i: nat {:trigger StepAt(cfg, run, i)} :: i < |run.steps| ==> StepAt(cfg, run, i)
  }
}
