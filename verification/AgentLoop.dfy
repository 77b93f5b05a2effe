/** The loop as an object: a task record updated in place, calls that run until they return or the
    process dies.  Each call is a run of the step model. */
module AgentLoop {
  import opened Words
  import opened AgentLoopModel

  class TaskRecord {
    var state: State
    var pauseReason: Option<string>
    var sequence: nat
    var turn: nat
    var cursor: nat
    var plan: Option<seq<Id>>
    var responseId: Option<string>
    var confirmation: Option<Confirmation>
    var approved: Option<Id>
    var journal: seq<Entry>
    var events: seq<Event>
    var pending: seq<Event>
    var lastHeartbeat: int

    constructor (t: Task)
      ensures View() == t
    {
      state, pauseReason, sequence, turn, cursor := t.state, t.pauseReason, t.sequence, t.turn, t.cursor;
      plan, responseId, confirmation, approved := t.plan, t.responseId, t.confirmation, t.approved;
      journal, events, pending, lastHeartbeat := t.journal, t.events, t.pending, t.lastHeartbeat;
    }

    function View(): Task
      reads this
    {
      Task(state, pauseReason, sequence, turn, cursor, plan, responseId, confirmation, approved,
           journal, events, pending, lastHeartbeat)
    }

    /** Append an event; too many unacknowledged ones pause the task. */
    method Emit(config: Config, kind: EventKind)
      modifies this
      ensures View() == AgentLoopModel.Emit(config, old(View()), kind)
    {
      var event := Event(kind, sequence);
      sequence := sequence + 1;
      events := events + [event];
      pending := pending + [event];
      assert View() == old(View()).(sequence := sequence, events := events, pending := pending);
      if |pending| >= config.maxOutstanding && Active(state) && state != AwaitingApproval {
        state := Paused;
        pauseReason := Some("backpressure");
      }
    }

    method Acknowledge(through: int)
      modifies this
      ensures View() == old(View()).(pending := After(old(pending), through))
    {
      var kept: seq<Event> := [];
      for i := 0 to |pending|
        invariant pending == old(pending) && kept == After(pending[..i], through)
        invariant View() == old(View())
      {
        assert pending[..i + 1][..i] == pending[..i];
        if pending[i].sequence > through {
          kept := kept + [pending[i]];
        }
      }
      assert pending[..|pending|] == pending;
      pending := kept;
    }
  }

  class PiAgentLoop {
    const config: Config
    var task: TaskRecord?
    /** The checkpoint store's record of this task. */
    var disk: Option<Task>
    ghost var world: World
    ghost var pc: Pc

    constructor (config: Config)
      ensures View() == Initial() && this.config == config
    {
      this.config := config;
      task, disk, world, pc := null, None, World([], [], multiset{}, multiset{}), Idle;
    }

    ghost function View(): Machine
      reads this, task
    {
      Machine(if task == null then None else Some(task.View()), disk, world, pc)
    }

    // --- what the loop cannot see: the model, the policy, the executor, the process's end ---

    method AskModel() returns (answer: ModelAnswer) {
      answer := *;
    }

    method CheckPolicy() returns (answer: PolicyAnswer) {
      answer := *;
    }

    method Dies() returns (dead: bool) {
      dead := *;
    }

    method Clock() returns (now: int) {
      now := *;
    }

    method RunExecutor() returns (outcome: Outcome) {
      outcome := *;
    }

    // --- pieces ---

    method Save()
      requires task != null
      modifies this`disk
      ensures disk == Some(Snapshot(task.View()))
    {
      var t := task.View();
      disk := Some(t.(pauseReason := Truthy(t.pauseReason)));
    }

    /** The process dies here: memory is gone. */
    method Die()
      modifies this`task, this`pc
      ensures View() == Micro(config, old(View()), Crash)
    {
      task, pc := null, Idle;
    }

    method Fail()
      requires task != null
      modifies this`disk, this`pc, task
      ensures View() == Saved(FailedTask(config, old(task.View())), world, Idle)
    {
      task.state, task.pauseReason := Failed, None;
      task.Emit(config, TaskFailed);
      Save();
      pc := Idle;
    }

    method Heartbeat(now: int, ghost next: Pc)
      requires task != null
      modifies this`disk, this`pc, task
      ensures var beaten := old(task.View()).(lastHeartbeat := now);
              View() == Saved(AgentLoopModel.Emit(config, beaten, EventKind.Heartbeat), world, next)
    {
      task.lastHeartbeat := now;
      task.Emit(config, EventKind.Heartbeat);
      Save();
      pc := next;
    }

    /** The first part of a call to step(): leave, or beat. */
    method Enter(now: int) returns (going: bool)
      requires task != null && pc == Entering
      modifies this`disk, this`pc, task
      ensures View() == EnterStep(config, old(View()), old(task.View()), now) && task.plan == old(task.plan)
      ensures pc == if !going then Idle else if task.plan.None? then Asking else Looping
    {
      if task.state == Completed || task.state == Failed || task.state == Cancelled
         || task.state == AwaitingApproval || task.state == Paused {
        pc := Idle;
        return false;
      }
      Heartbeat(now, if task.plan.None? then Asking else Looping);
      going := true;
    }

    method TakePlan(answer: ModelAnswer) returns (going: bool)
      requires task != null && pc == Asking
      modifies this`disk, this`pc, task
      ensures View() == AskStep(config, old(View()), old(task.View()), answer)
      ensures if going then pc == Looping && task.plan.Some? else pc == Idle
    {
      hide FailedTask, Snapshot, PlanAccepted;
      if !answer.Response? || answer.id == "" || !PlanAccepted(answer.plan) || task.responseId == Some(answer.id) {
        Fail();
        return false;
      }
      task.responseId, task.plan, task.turn := Some(answer.id), Some(answer.plan), task.turn + 1;
      task.Emit(config, ModelResponse);
      Save();
      pc := Onward(task.View(), Looping);
      going := task.state != Paused;
    }

    /** Ask for an approval and wait. */
    method Ask(action: Id, token: string)
      requires task != null
      modifies this`disk, this`pc, task
      ensures var u := old(task.View()).(confirmation := Some(Confirmation(action, token)), state := AwaitingApproval);
              View() == Saved(AgentLoopModel.Emit(config, u, ApprovalRequested), world, Idle)
    {
      task.confirmation := Some(Confirmation(action, token));
      task.state := AwaitingApproval;
      task.Emit(config, ApprovalRequested);
      Save();
      pc := Idle;
    }

    /** Announce an action in the journal before it runs. */
    method Announce(action: Id, ghost confirm: bool)
      requires task != null
      modifies this`disk, this`pc, task
      ensures View() == Prepared(config, old(View()), old(task.View()), action, confirm)
      ensures pc == Executing(action, confirm)
    {
      task.journal := task.journal + [Entry(Phase.Prepare, action)];
      task.Emit(config, ActionPrepare);
      Save();
      pc := Executing(action, confirm);
    }

    /** Decide on the next action: fail, ask for approval, or announce it in the journal. */
    method Prepare(answer: PolicyAnswer) returns (ready: bool)
      requires task != null && pc == Looping && task.plan.Some? && task.cursor < |task.plan.value|
          && task.state != Paused
      modifies this`disk, this`pc, task
      ensures View() == LoopStep(config, old(View()), old(task.View()), answer)
      ensures if ready then pc.Executing? else pc == Idle
    {
      hide AgentLoopModel.Emit, FailedTask, Snapshot;
      ready := false;
      var action := task.plan.value[task.cursor];
      var decision := answer;
      ghost var confirm := false;
      if task.approved == Some(action) && decision.Confirm? {
        decision := Allow;
        task.approved := None;
        confirm := true;
      }
      if !decision.Allow? && !decision.Confirm? {
        Fail();
        return;
      }
      if decision.Confirm? {
        if decision.token.None? {
          Fail();
          return;
        }
        Ask(action, decision.token.value);
        return;
      }
      Announce(action, confirm);
      ready := true;
    }

    /** The executor runs the announced action. */
    method Execute() returns (outcome: Outcome)
      requires pc.Executing?
      modifies this`world, this`pc
      ensures View() == ExecuteStep(old(View()), outcome)
    {
      outcome := RunExecutor();
      world := World(world.past, world.executed + [pc.action],
                     if pc.confirm then world.confirmed + multiset{pc.action} else world.confirmed, world.approvals);
      pc := match outcome case Throws => Thrown case Returns(ok) => Returned(ok);
    }

    method MarkRollback()
      requires task != null && pc == Thrown && task.journal != []
      modifies this`disk, this`pc, task
      ensures View() == ThrownStep(old(View()), old(task.View()))
    {
      var last := |task.journal| - 1;
      task.journal := task.journal[..last] + [Entry(RollbackPending, task.journal[last].action)];
      Save();
      pc := Failing(true);
    }

    method CommitAction(ok: bool)
      requires task != null && pc == Returned(ok) && task.journal != []
      modifies this`disk, this`pc, task
      ensures View() == ReturnedStep(config, old(View()), old(task.View()), ok)
      ensures pc == if !ok then Failing(false) else if task.state == Paused then Idle else Beating
      ensures task.plan == old(task.plan) && task.cursor == old(task.cursor) + 1
    {
      var last := |task.journal| - 1;
      task.journal := task.journal[..last] + [Entry(Commit, task.journal[last].action)];
      task.cursor := task.cursor + 1;
      task.Emit(config, ActionResult);
      Save();
      pc := if !ok then Failing(false) else Onward(task.View(), Beating);
    }

    method Beat(now: int)
      requires task != null && pc == Beating
      modifies this`disk, this`pc, task
      ensures View() == BeatStep(config, old(View()), old(task.View()), now)
      ensures pc == Looping && task.plan == old(task.plan) && task.cursor == old(task.cursor)
    {
      if !Active(task.state) {
        pc := Looping;
        return;
      }
      Heartbeat(now, Looping);
    }

    method Complete()
      requires task != null && pc == Looping && task.plan.Some? && task.cursor >= |task.plan.value|
      modifies this`disk, this`pc, task
      ensures forall answer :: View() == LoopStep(config, old(View()), old(task.View()), answer)
    {
      task.state := Completed;
      task.Emit(config, TaskCompleted);
      Save();
      pc := Idle;
    }

    // --- the calls ---

    /** One action of the plan: policy, journal, execution, commit, heartbeat.  `more` when the loop
        goes on to the next action. */
    method PerformAction() returns (more: bool, ghost trace: seq<Choice>)
      requires task != null && pc == Looping && task.plan.Some? && task.cursor < |task.plan.value|
      requires task.state != Paused
      modifies this`task, this`disk, this`world, this`pc, task
      ensures View() == Run(config, old(View()), trace) && Inside(trace)
      ensures if more then
                && task == old(task) && task != null && pc == Looping
                && task.plan == old(task.plan) && task.cursor == old(task.cursor) + 1
              else pc == Idle
    {
      hide Run, AgentLoopModel.Emit, Marked, Snapshot, FailedTask;
      ghost var m := View();
      var answer := CheckPolicy();
      var ready := Prepare(answer);
      trace := [Go(Said(0, Malformed, answer, Throws))];
      RunSingle(config, m, trace[0]);
      more := false;
      if !ready {
        return;
      }
      var dead := Dies();
      if dead {
        trace := CutOff(m, trace);
        return;
      }
      JournalAnnounced(config, m, answer);
      ghost var rest;
      more, rest := FinishAction();
      RunAppend(config, m, trace, rest);
      trace := trace + rest;
    }

    method FinishAction() returns (more: bool, ghost trace: seq<Choice>)
      requires task != null && pc.Executing? && task.journal != []
      modifies this`task, this`disk, this`world, this`pc, task
      ensures View() == Run(config, old(View()), trace) && Inside(trace)
      ensures if more then
                && task == old(task) && task != null && pc == Looping
                && task.plan == old(task.plan) && task.cursor == old(task.cursor) + 1
              else pc == Idle
    {
      hide Run, AgentLoopModel.Emit, Marked, Snapshot, FailedTask, ReturnedStep, BeatStep;
      ghost var m := View();
      more := false;
      var outcome := Execute();
      trace := [Go(Said(0, Malformed, Allow, outcome))];
      RunSingle(config, m, trace[0]);
      var dead := Dies();
      if dead {
        trace := CutOff(m, trace);
        return;
      }
      if outcome.Throws? {
        MarkRollback();
        trace := Then(config, m, trace, Go(Said(0, Malformed, Allow, outcome)));
        trace := FailUnlessDead(m, trace);
        return;
      }
      CommitAction(outcome.ok);
      trace := Then(config, m, trace, Go(Said(0, Malformed, Allow, outcome)));
      if !outcome.ok {
        trace := FailUnlessDead(m, trace);
        return;
      }
      more, trace := BeatUnlessOver(m, trace);
    }

    /** After a commit: the process dies, the task is paused, or it beats and goes on. */
    method BeatUnlessOver(ghost m: Machine, ghost trace: seq<Choice>) returns (more: bool, ghost longer: seq<Choice>)
      requires task != null && View() == Run(config, m, trace) && Inside(trace)
      requires pc == if task.state == Paused then Idle else Beating
      modifies this`task, this`disk, this`pc, task
      ensures View() == Run(config, m, longer) && Inside(longer)
      ensures if more then
                && task == old(task) && task != null && pc == Looping
                && task.plan == old(task.plan) && task.cursor == old(task.cursor)
              else pc == Idle
    {
      hide Run, AgentLoopModel.Emit, Snapshot, BeatStep;
      more, longer := false, trace;
      var dead := Dies();
      if dead {
        longer := CutOff(m, trace);
        return;
      }
      if task.state == Paused {
        return;
      }
      var now := Clock();
      Beat(now);
      longer := Then(config, m, longer, Go(Said(now, Malformed, Allow, Throws)));
      dead := Dies();
      if dead {
        longer := CutOff(m, longer);
        return;
      }
      more := true;
    }

    method FailUnlessDead(ghost m: Machine, ghost trace: seq<Choice>) returns (ghost longer: seq<Choice>)
      requires task != null && pc.Failing? && View() == Run(config, m, trace) && Inside(trace)
      modifies this`task, this`disk, this`pc, task
      ensures View() == Run(config, m, longer) && pc == Idle && Inside(longer)
    {
      hide Run, FailedTask;
      var dead := Dies();
      if dead {
        longer := CutOff(m, trace);
        return;
      }
      Fail();
      longer := Then(config, m, trace, Go(Said(0, Malformed, Allow, Throws)));
    }

    /** A call to step() from its first statement on. */
    method Continue() returns (ghost trace: seq<Choice>)
      requires task != null && pc == Entering
      modifies this`task, this`disk, this`world, this`pc, task
      ensures View() == Run(config, old(View()), trace) && pc == Idle && Inside(trace)
    {
      hide Run, AgentLoopModel.Emit, Snapshot, FailedTask, LoopStep, AskStep;
      ghost var m := View();
      var now := Clock();
      var going := Enter(now);
      trace := [Go(Said(now, Malformed, Allow, Throws))];
      RunSingle(config, m, trace[0]);
      if !going {
        return;
      }
      var dead := Dies();
      if dead {
        trace := CutOff(m, trace);
        return;
      }
      if task.plan.None? {
        var answer := AskModel();
        going := TakePlan(answer);
        trace := Then(config, m, trace, Go(Said(0, answer, Allow, Throws)));
        if !going {
          return;
        }
        dead := Dies();
        if dead {
          trace := CutOff(m, trace);
          return;
        }
      }
      ghost var rest := Actions();
      RunAppend(config, m, trace, rest);
      trace := trace + rest;
    }

    /** The loop over the plan. */
    method Actions() returns (ghost trace: seq<Choice>)
      requires task != null && pc == Looping && task.plan.Some?
      modifies this`task, this`disk, this`world, this`pc, task
      ensures View() == Run(config, old(View()), trace) && pc == Idle && Inside(trace)
    {
      hide Run, AgentLoopModel.Emit, Snapshot, FailedTask;
      ghost var m := View();
      trace := [];
      RunNone(config, m);
      while task.cursor < |task.plan.value|
        invariant task != null && task == old(task) && pc == Looping && task.plan.Some?
        invariant View() == Run(config, m, trace) && Inside(trace)
        decreases |task.plan.value| - task.cursor
      {
        if task.state == Paused {
          pc := Idle;
          trace := Then(config, m, trace, Go(Said(0, Malformed, Allow, Throws)));
          return;
        }
        var more;
        ghost var rest;
        more, rest := PerformAction();
        RunAppend(config, m, trace, rest);
        trace := trace + rest;
        if !more {
          return;
        }
      }
      Complete();
      trace := Then(config, m, trace, Go(Said(0, Malformed, Allow, Throws)));
    }

    method StartTask() returns (ok: bool, ghost trace: seq<Choice>)
      requires pc == Idle
      modifies this`task, this`disk, this`world, this`pc
      ensures View() == Run(config, old(View()), trace) && pc == Idle && ok == (old(task) == null)
      ensures if ok then trace != [] && trace[0].Start? && Inside(trace[1..]) else trace == []
    {
      hide Run;
      ghost var m := View();
      if task != null {
        trace := [];
        RunNone(config, m);
        return false, trace;
      }
      var now := Clock();
      Open(now);
      trace := [Start(now)];
      RunSingle(config, m, trace[0]);
      ok := true;
      var dead := Dies();
      if dead {
        trace := CutOff(m, trace);
        return;
      }
      ghost var rest := Continue();
      RunAppend(config, m, trace, rest);
      trace := trace + rest;
    }

    method Open(now: int)
      requires task == null && pc == Idle
      modifies this`task, this`disk, this`world, this`pc
      ensures task != null && fresh(task) && View() == StartCall(config, old(View()), now)
    {
      task := new TaskRecord(Task(Created, None, 0, 0, 0, None, None, None, None, [], [], [], now));
      task.Emit(config, TaskOpen);
      task.state := Running;
      task.Emit(config, TaskRunning);
      Save();
      world := World(world.past + world.executed, [], world.confirmed, world.approvals);
      pc := Entering;
    }

    method StepTask() returns (ok: bool, ghost trace: seq<Choice>)
      requires pc == Idle
      modifies this`task, this`disk, this`world, this`pc, task
      ensures View() == Run(config, old(View()), trace) && pc == Idle && ok == (old(task) != null)
      ensures if ok then trace != [] && trace[0] == Choice.Step && Inside(trace[1..]) else trace == []
    {
      hide Run;
      ghost var m := View();
      if task == null {
        trace := [];
        RunNone(config, m);
        return false, trace;
      }
      pc := Entering;
      trace := [Choice.Step];
      RunSingle(config, m, trace[0]);
      ghost var rest := Continue();
      RunAppend(config, m, trace, rest);
      trace := trace + rest;
      ok := true;
    }

    /** `consumes` is the policy's answer when asked to consume the token. */
    method ApproveTask(token: string, consumes: bool) returns (ok: bool, ghost trace: seq<Choice>)
      requires pc == Idle
      requires task != null && task.state == AwaitingApproval ==> task.plan.Some? && task.cursor < |task.plan.value|
      modifies this`task, this`disk, this`world, this`pc, task
      ensures View() == Run(config, old(View()), trace) && pc == Idle
      ensures ok == (&& consumes && old(task) != null && old(task.state) == AwaitingApproval
                     && old(task.confirmation.Some? && task.confirmation.value.token == token))
      ensures if ok then trace != [] && trace[0] == Approve(token, true) && Inside(trace[1..]) else trace == []
    {
      hide Run;
      ghost var m := View();
      trace := [];
      RunNone(config, m);
      if task == null || task.state != AwaitingApproval || task.confirmation.None? {
        return false, trace;
      }
      if token != task.confirmation.value.token || !consumes {
        return false, trace;
      }
      Consume(token);
      trace := [Approve(token, true)];
      RunSingle(config, m, trace[0]);
      ok := true;
      var dead := Dies();
      if dead {
        trace := CutOff(m, trace);
        return;
      }
      Grant();
      trace := Then(config, m, trace, Go(Said(0, Malformed, Allow, Throws)));
      dead := Dies();
      if dead {
        trace := CutOff(m, trace);
        return;
      }
      ghost var rest := Continue();
      RunAppend(config, m, trace, rest);
      trace := trace + rest;
    }

    method Consume(token: string)
      requires task != null && pc == Idle && task.state == AwaitingApproval && task.confirmation.Some?
      requires task.plan.Some? && task.cursor < |task.plan.value| && task.confirmation.value.token == token
      modifies this`world, this`pc
      ensures View() == ApproveCall(old(View()), task.View(), token, true) && pc == Granted
    {
      world := World(world.past, world.executed, world.confirmed,
                     world.approvals + multiset{task.plan.value[task.cursor]});
      pc := Granted;
    }

    method Grant()
      requires task != null && pc == Granted && task.plan.Some? && task.cursor < |task.plan.value|
      modifies this`disk, this`pc, task
      ensures View() == GrantStep(config, old(View()), old(task.View())) && pc == Entering
    {
      task.confirmation, task.approved, task.state := None, Some(task.plan.value[task.cursor]), Running;
      task.Emit(config, ApprovalGranted);
      Save();
      pc := Entering;
    }

    // --- calls of one step ---

    method AckThrough(sequence: int) returns (ok: bool)
      requires pc == Idle
      modifies this`disk, task
      ensures View() == Micro(config, old(View()), Ack(sequence)) && ok == (old(task) != null && sequence >= -1)
    {
      if task == null || sequence < -1 {
        return false;
      }
      task.Acknowledge(sequence);
      if task.state == Paused && task.pauseReason == Some("backpressure") && |task.pending| < config.maxOutstanding {
        task.state, task.pauseReason := Running, None;
        task.Emit(config, RuntimeResumed);
        Save();
      }
      ok := true;
    }

    method MonitorTask(now: int) returns (ok: bool)
      requires pc == Idle
      modifies this`disk, this`pc, task
      ensures View() == Micro(config, old(View()), Monitor(now)) && ok == (old(task) != null)
    {
      if task == null {
        return false;
      }
      if Active(task.state) && task.state != AwaitingApproval && now - task.lastHeartbeat > config.heartbeatTimeout {
        Fail();
      }
      ok := true;
    }

    method CheckpointTask() returns (ok: bool)
      requires pc == Idle
      modifies this`disk, task
      ensures View() == Micro(config, old(View()), Checkpoint) && ok == (old(task) != null)
    {
      if task == null {
        return false;
      }
      task.Emit(config, TaskCheckpoint);
      Save();
      ok := true;
    }

    method CancelTask(reason: string) returns (ok: bool)
      requires pc == Idle
      modifies this`disk, task
      ensures View() == Micro(config, old(View()), Cancel(reason)) && ok == (old(task) != null)
    {
      if task == null {
        return false;
      }
      if task.state != Completed && task.state != Failed && task.state != Cancelled {
        task.state, task.pauseReason := Cancelled, Some(reason);
        task.Emit(config, TaskCancelled);
        Save();
      }
      ok := true;
    }

    method RecoverTask(now: int) returns (found: bool)
      requires pc == Idle
      modifies this`task
      ensures View() == Micro(config, old(View()), Recover(now))
      ensures found == (old(task) != null || disk.Some?)
    {
      if task != null {
        return true;
      }
      if disk.None? {
        return false;
      }
      task := new TaskRecord(Reload(disk.value, now));
      found := true;
    }

    /** The process dies after `trace`. */
    method CutOff(ghost m: Machine, ghost trace: seq<Choice>) returns (ghost longer: seq<Choice>)
      requires View() == Run(config, m, trace)
      modifies this`task, this`pc
      ensures View() == Run(config, m, longer) && pc == Idle && longer == trace + [Crash]
    {
      Die();
      longer := Then(config, m, trace, Crash);
    }
  }

  /** What comes from outside while a call runs: answers, and possibly the end. */
  ghost predicate Inside(trace: seq<Choice>) {
    forall i | 0 <= i < |trace| :: trace[i].Go? || trace[i].Crash?
  }

  function Said(now: int, model: ModelAnswer, policy: PolicyAnswer, outcome: Outcome): Answer {
    Answer(now, model, policy, outcome)
  }

  lemma RunNone(config: Config, m: Machine)
    ensures Run(config, m, []) == m
  {
  }

  lemma RunSingle(config: Config, m: Machine, c: Choice)
    ensures Run(config, m, [c]) == Micro(config, m, c)
  {
    assert [c][..0] == [];
    assert Run(config, m, []) == m;
  }

  lemma Then(config: Config, m: Machine, trace: seq<Choice>, c: Choice) returns (longer: seq<Choice>)
    ensures longer == trace + [c] && Run(config, m, longer) == Micro(config, Run(config, m, trace), c)
  {
    longer := trace + [c];
    assert longer[..|trace|] == trace;
  }

  /** After the announcement the journal is not empty and the rest of the task is as it was. */
  lemma JournalAnnounced(config: Config, m: Machine, answer: PolicyAnswer)
    requires m.task.Some? && m.task.value.plan.Some? && m.task.value.cursor < |m.task.value.plan.value|
    ensures var n := LoopStep(config, m, m.task.value, answer);
            n.pc.Executing? ==>
              && n.task.Some? && n.task.value.journal != []
              && n.task.value.plan == m.task.value.plan && n.task.value.cursor == m.task.value.cursor
  {
  }
}
