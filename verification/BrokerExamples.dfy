/** Concrete runs of the broker that show where two of its promises end. */
module BrokerExamples {
  import opened Prelude
  import opened BrokerTable
  import opened BrokerSystem
  import opened BrokerHistory
  import opened BrokerWakeups

  function Crew(n: nat): (crew: map<WorkerId, Worker>)
    ensures forall w: WorkerId :: w in crew <==> w < n
    ensures forall w: WorkerId :: w in crew ==> crew[w] == Starting
  {
    if n == 0 then map[] else Crew(n - 1)[n - 1 := Starting]
  }

  // A job is submitted, a client waits for it, and clear() takes it away from an
  // open broker without a word.
  lemma ClearLosesAWakeup(cfg: Config) returns (run: Run)
    requires cfg.capacity > 0
    ensures IsRun(cfg, run) && !NoLostWakeup(run.states[|run.states| - 1])
  {
    var wait := ManageJob(Wait, 0, true);
    var first := JobSubmitted(cfg);
    run := Arrives(cfg, first, 1, wait);
    var s7 := FirstWaitServed(cfg, run.states[6], wait);
    var s8 := s7.(table := Clear(s7.table));
    run := Extend(cfg, run, Converse(1, Serve(0, 1)), s7);
    run := Extend(cfg, run, ClearBroker, s8);
    assert !CallerMaySleep(s8, 1);
  }

  lemma Extend(cfg: Config, run: Run, step: Step, s: System) returns (longer: Run)
    requires IsRun(cfg, run) && Transition(cfg, run.states[|run.steps|], step, s)
    ensures IsRun(cfg, longer) && longer == Run(run.states + [s], run.steps + [step])
  {
    longer := Run(run.states + [s], run.steps + [step]);
    forall i: nat | i < |longer.steps| ensures StepAt(cfg, longer, i) {
      if i < |run.steps| { assert StepAt(cfg, run, i); }
    }
  }

  lemma Arrives(cfg: Config, run: Run, c: CallerId, action: Action) returns (longer: Run)
    requires IsRun(cfg, run) && c !in run.states[|run.steps|].callers
    ensures IsRun(cfg, longer) && |longer.steps| == |run.steps| + 2
    ensures longer.steps == run.steps + [Call(c, action), Converse(c, Listen)]
    ensures longer.states[..|run.states|] == run.states
    ensures longer.states[|longer.steps|] == SetCaller(run.states[|run.steps|], c, Listening(action, false))
  {
    var s := run.states[|run.steps|];
    longer := Extend(cfg, run, Call(c, action), SetCaller(s, c, Arriving(action)));
    longer := Extend(cfg, longer, Converse(c, Listen), SetCaller(s, c, Listening(action, false)));
  }

  lemma JobSubmitted(cfg: Config) returns (run: Run)
    requires cfg.capacity > 0
    ensures IsRun(cfg, run) && |run.steps| == 4
    ensures var s := run.states[4];
            && s.callers == map[0 := Left(Accepted(0))] && (forall w :: w in s.workers ==> !s.workers[w].Owes())
            && 0 in s.table.jobs && s.table.jobs[0].state == Queued && !s.table.closed && s.flags == s.issued == {0}
  {
    hide IsRun, Transition;
    var submit := SubmitJob(Request("client", None, false, ""));
    var s0 := System(EMPTY, Crew(Workers(cfg)), map[], 1, {}, {}, map[]);
    Begins(cfg, s0);
    run := Arrives(cfg, Run([s0], []), 0, submit);
    var s3 := FirstSubmitServed(cfg, run.states[2], submit);
    var s4 := SetCaller(NotifyAll(s3), 0, Left(Accepted(0)));
    run := Extend(cfg, run, Converse(0, Serve(0, 0)), s3);
    LeavesNotified(cfg, s3, 0, Accepted(0));
    run := Extend(cfg, run, Converse(0, NotifyAndLeave), s4);
  }

  lemma Begins(cfg: Config, s: System)
    requires s == System(EMPTY, Crew(Workers(cfg)), map[], 1, {}, {}, map[])
    ensures IsRun(cfg, Run([s], []))
  { }

  lemma LeavesNotified(cfg: Config, s: System, c: CallerId, reply: Reply)
    requires c in s.callers && s.callers[c] == Replying(reply)
    ensures Transition(cfg, s, Converse(c, NotifyAndLeave), SetCaller(NotifyAll(s), c, Left(reply)))
  { }

  lemma FirstSubmitServed(cfg: Config, s: System, submit: Action) returns (s': System)
    requires cfg.capacity > 0 && submit.SubmitJob? && submit.request.item.None?
    requires s.table == EMPTY && s.issued == {} && s.flags == {} && s.picks == map[]
    requires s.callers == map[0 := Listening(submit, false)]
    ensures Transition(cfg, s, Converse(0, Serve(0, 0)), s')
    ensures s'.workers == s.workers && s'.callers == map[0 := Replying(Accepted(0))] && s'.now == s.now
    ensures 0 in s'.table.jobs && s'.table.jobs[0].state == Queued && !s'.table.closed && s'.flags == s'.issued == {0}
  {
    var t := Submit(s.table, cfg, submit.request, 0, 0, s.now).0;
    s' := SetCaller(s.(table := t, issued := s.issued + {0}, flags := s.flags + {0}, picks := s.picks[0 := 0]), 0,
                    Replying(Accepted(0)));
    assert Served(cfg, s, 0, submit, false, 0, 0, s');
  }

  lemma FirstWaitServed(cfg: Config, s: System, wait: Action) returns (s': System)
    requires wait == ManageJob(Wait, 0, true) && 1 in s.callers && s.callers[1] == Listening(wait, false)
    requires 0 in s.table.jobs && s.table.jobs[0].state == Queued && !s.table.closed && 1 !in s.flags
    ensures Transition(cfg, s, Converse(1, Serve(0, 1)), s')
    ensures s'.workers == s.workers && s'.callers == s.callers[1 := Dozing(wait, false)] && !s'.table.closed
  {
    s' := SetCaller(s.(table := s.table.(activity := s.now)), 1, Dozing(wait, false));
    assert Served(cfg, s, 1, wait, false, 0, 1, s');
  }

  // A client asks for the status of its job, the broker is closed, and neither
  // the client's cancel nor its release gets through: the job stays.
  lemma CleanUpLeavesAJob(cfg: Config) returns (run: Run, a: nat, b: nat, c: nat)
    requires cfg.capacity > 0
    ensures IsRun(cfg, run) && a < b < c < |run.steps| && CleansUp(run, a, b, c, 0)
    ensures 0 in run.states[a].issued && !run.states[a].table.closed
    ensures forall k: nat :: a <= k < c ==> !Retries(run.states[k], run.steps[k], 0)
    ensures 0 in run.states[c + 1].table.jobs
  {
    hide IsRun, StatusSays;
    var asked := StatusThenClosed(cfg);
    var cancelled := Turned(cfg, asked, 2, Cancel);
    run := Turned(cfg, cancelled, 3, Release);
    a, b, c := 6, 10, 13;
    assert run.states[..12] == cancelled.states && cancelled.states[..9] == asked.states;
    assert run.states[6] == cancelled.states[6] == asked.states[6];
    assert run.steps[6] == cancelled.steps[6] == asked.steps[6];
    assert run.states[10] == cancelled.states[10] && run.steps[10] == cancelled.steps[10];
    forall k: nat | a <= k < c ensures !Retries(run.states[k], run.steps[k], 0) {
      if k == 7 { assert run.steps[7] == cancelled.steps[7] == asked.steps[7]; }
      if 8 <= k < 11 { assert run.steps[k] == cancelled.steps[k]; }
    }
  }

  // The job is still queued when its client asks; then the broker is closed.
  lemma StatusThenClosed(cfg: Config) returns (run: Run)
    requires cfg.capacity > 0
    ensures IsRun(cfg, run) && |run.steps| == 8 && |run.states| == 9 && Answers(run, 6, Status, 0)
    ensures run.steps[7] == CloseBroker
    ensures StatusSays(run.states[6].table, 0) == Some(Queued)
    ensures 0 in run.states[6].issued && !run.states[6].table.closed
    ensures var s := run.states[8];
            s.table.closed && 0 in s.table.jobs && s.flags == {0} && 2 !in s.callers && 3 !in s.callers
  {
    hide IsRun, Transition, Close;
    var first := JobSubmitted(cfg);
    RunLength(cfg, first);
    var second := Arrives(cfg, first, 1, ManageJob(Status, 0, true));
    var s7 := StatusServed(cfg, second.states[6]);
    var third := Extend(cfg, second, Converse(1, Serve(0, 1)), s7);
    var s8 := Closes(cfg, s7);
    run := Extend(cfg, third, CloseBroker, s8);
    assert run.states[6] == third.states[6] == second.states[6];
    assert run.steps[6] == third.steps[6];
  }

  lemma RunLength(cfg: Config, run: Run)
    requires IsRun(cfg, run)
    ensures |run.states| == |run.steps| + 1
  { }

  // A call to a closed broker.
  lemma Turned(cfg: Config, run: Run, c: CallerId, op: Operation) returns (longer: Run)
    requires IsRun(cfg, run) && |run.states| == |run.steps| + 1
    requires var s := run.states[|run.steps|];
             s.table.closed && 0 in s.table.jobs && s.flags == {0} && c !in s.callers
    ensures IsRun(cfg, longer) && |longer.states| == |longer.steps| + 1
    ensures longer.steps == run.steps + [Call(c, ManageJob(op, 0, true)), Converse(c, Listen), Converse(c, Serve(0, 1))]
    ensures longer.states[..|run.states|] == run.states && Answers(longer, |run.steps| + 2, op, 0)
    ensures var s := longer.states[|longer.steps|];
            && s.table.closed && 0 in s.table.jobs && s.flags == {0}
            && s.callers.Keys == run.states[|run.steps|].callers.Keys + {c}
  {
    hide IsRun, Transition;
    var arrived := Arrives(cfg, run, c, ManageJob(op, 0, true));
    var s := RefusedServed(cfg, arrived.states[|arrived.steps|], c, op);
    longer := Extend(cfg, arrived, Converse(c, Serve(0, 1)), s);
    RunLength(cfg, arrived);
    assert longer.states[..|arrived.states|] == arrived.states;
    assert longer.states[..|run.states|] == arrived.states[..|run.states|];
    assert longer.states[|run.steps| + 2] == arrived.states[|arrived.steps|];
  }

  lemma StatusServed(cfg: Config, s: System) returns (s': System)
    requires 1 in s.callers && s.callers[1] == Listening(ManageJob(Status, 0, true), false)
    requires 0 in s.table.jobs && s.table.jobs[0].state == Queued && !s.table.closed && 1 !in s.flags
    ensures StatusSays(s.table, 0) == Some(Queued)
    ensures Transition(cfg, s, Converse(1, Serve(0, 1)), s')
    ensures s'.table.jobs == s.table.jobs && s'.flags == s.flags && s'.issued == s.issued
    ensures s'.callers.Keys == s.callers.Keys
  {
    var (u, reply) := Manage(s.table, Status, 0, true, 1, s.now);
    s' := Answer(s.(table := u), 1, reply.value);
    assert Served(cfg, s, 1, ManageJob(Status, 0, true), false, 0, 1, s');
  }

  lemma Closes(cfg: Config, s: System) returns (s': System)
    ensures Transition(cfg, s, CloseBroker, s')
    ensures s'.table.closed && s'.table.jobs.Keys == s.table.jobs.Keys && s'.flags == s.flags && s'.issued == s.issued
    ensures s'.callers.Keys == s.callers.Keys
  {
    s' := NotifyAll(s.(table := Close(s.table, s.now)));
  }

  lemma RefusedServed(cfg: Config, s: System, c: CallerId, op: Operation) returns (s': System)
    requires c in s.callers && s.callers[c] == Listening(ManageJob(op, 0, true), false)
    requires s.table.closed && 1 !in s.flags
    ensures Transition(cfg, s, Converse(c, Serve(0, 1)), s')
    ensures s'.table == s.table.(activity := s.now) && s'.flags == s.flags && s'.issued == s.issued
    ensures s'.callers.Keys == s.callers.Keys
  {
    s' := SetCaller(s.(table := s.table.(activity := s.now)), c, Left(Refused(BrokerUnavailable)));
    assert Served(cfg, s, c, ManageJob(op, 0, true), false, 0, 1, s');
  }
}
