/** The Ring 3 agent loop, cut into steps with at most one lasting effect each.

    A lasting effect is a checkpoint written, an action executed, or an approval consumed.
    Everything else lives in the task record in memory and is lost when the process dies, so a
    crash between any two statements leaves what a crash between two of these steps leaves. */
module AgentLoopModel {
  import opened Words

  type Id = string

  const MAX_ACTIONS: nat := 256

  datatype State = Created | Running | AwaitingApproval | Paused | Completed | Failed | Cancelled

  datatype Phase = Prepare | RollbackPending | Commit

  datatype Entry = Entry(phase: Phase, action: Id)

  datatype EventKind =
    | TaskOpen | TaskRunning | Heartbeat | ModelResponse | ApprovalRequested | ApprovalGranted
    | ActionPrepare | ActionResult | RuntimeResumed | TaskCheckpoint
    | TaskCompleted | TaskFailed | TaskCancelled

  datatype Event = Event(kind: EventKind, sequence: nat)

  datatype Confirmation = Confirmation(action: Id, token: string)

  /** The task record; its snapshot has the same fields. */
  datatype Task = Task(
    state: State, pauseReason: Option<string>, sequence: nat, turn: nat, cursor: nat,
    plan: Option<seq<Id>>, responseId: Option<string>, confirmation: Option<Confirmation>,
    approved: Option<Id>, journal: seq<Entry>, events: seq<Event>, pending: seq<Event>, lastHeartbeat: int)

  /** What has happened outside, which no crash undoes.  `executed` lists the executions since the
      task was last started afresh, `past` those of earlier starts; `confirmed` counts the
      executions of actions whose policy decision was `confirm`. */
  datatype World = World(past: seq<Id>, executed: seq<Id>, confirmed: multiset<Id>, approvals: multiset<Id>)

  /** Where a call stands. */
  datatype Pc =
    | Idle | Entering | Asking | Looping | Executing(action: Id, confirm: bool) | Thrown
    | Returned(ok: bool) | Failing(exposed: bool) | Beating | Granted

  datatype Machine = Machine(task: Option<Task>, disk: Option<Task>, world: World, pc: Pc)

  datatype Config = Config(maxOutstanding: nat, heartbeatTimeout: int)

  // --- what the loop is told ---

  datatype ModelAnswer = ModelError | Malformed | Response(id: string, plan: seq<Id>)

  /** `Confirm` carries the token the policy issues, or none if it cannot issue one. */
  datatype PolicyAnswer = PolicyError | NoDecision | Allow | Deny | Confirm(token: Option<string>)

  datatype Outcome = Throws | Returns(ok: bool)

  datatype Answer = Answer(now: int, model: ModelAnswer, policy: PolicyAnswer, outcome: Outcome)

  datatype Choice =
    | Start(now: int) | Step | Approve(token: string, consumed: bool) | Ack(sequence: int)
    | Monitor(now: int) | Checkpoint | Cancel(reason: string) | Recover(now: int)
    | Go(answer: Answer)
    | Crash

  function Initial(): Machine {
    Machine(None, None, World([], [], multiset{}, multiset{}), Idle)
  }

  // --- pieces ---

  predicate Active(s: State) {
    s == Created || s == Running || s == AwaitingApproval || s == Paused
  }

  function Truthy(s: Option<string>): Option<string> {
    if s == Some("") then None else s
  }

  function Emit(cfg: Config, t: Task, kind: EventKind): Task {
    var e := Event(kind, t.sequence);
    var u := t.(sequence := t.sequence + 1, events := t.events + [e], pending := t.pending + [e]);
    if |u.pending| >= cfg.maxOutstanding && Active(u.state) && u.state != AwaitingApproval
    then u.(state := Paused, pauseReason := Some("backpressure"))
    else u
  }

  function Snapshot(t: Task): Task {
    t.(pauseReason := Truthy(t.pauseReason))
  }

  function Reload(saved: Task, now: int): Task {
    saved.(pauseReason := Truthy(saved.pauseReason), responseId := Truthy(saved.responseId),
           approved := Truthy(saved.approved),
           lastHeartbeat := if saved.lastHeartbeat != 0 then saved.lastHeartbeat else now)
  }

  function Saved(t: Task, w: World, pc: Pc): Machine {
    Machine(Some(t), Some(Snapshot(t)), w, pc)
  }

  function FailedTask(cfg: Config, t: Task): Task {
    Emit(cfg, t.(state := Failed, pauseReason := None), TaskFailed)
  }

  predicate PlanAccepted(plan: seq<Id>) {
    |plan| <= MAX_ACTIONS && NoDup(plan) && forall i | 0 <= i < |plan| :: plan[i] != ""
  }

  function Opened(cfg: Config, now: int): Task {
    var blank := Task(Created, None, 0, 0, 0, None, None, None, None, [], [], [], now);
    Emit(cfg, Emit(cfg, blank, TaskOpen).(state := Running), TaskRunning)
  }

  /** After a turn or an action: back to the caller if the event just written paused the task. */
  function Onward(t: Task, pc: Pc): Pc {
    if t.state == Paused then Idle else pc
  }

  // --- the steps of one call to step() ---

  function EnterStep(cfg: Config, m: Machine, t: Task, now: int): Machine {
    if t.state == Completed || t.state == Failed || t.state == Cancelled then m.(pc := Idle)
    else if t.state == AwaitingApproval || t.state == Paused then m.(pc := Idle)
    else
      var u := Emit(cfg, t.(lastHeartbeat := now), Heartbeat);
      Saved(u, m.world, if u.plan.None? then Asking else Looping)
  }

  function AskStep(cfg: Config, m: Machine, t: Task, answer: ModelAnswer): Machine {
    match answer
    case ModelError => Saved(FailedTask(cfg, t), m.world, Idle)
    case Malformed => Saved(FailedTask(cfg, t), m.world, Idle)
    case Response(id, plan) =>
      if id == "" || !PlanAccepted(plan) then Saved(FailedTask(cfg, t), m.world, Idle)
      else if t.responseId == Some(id) then Saved(FailedTask(cfg, t), m.world, Idle)
      else
        var u := Emit(cfg, t.(responseId := Some(id), plan := Some(plan), turn := t.turn + 1), ModelResponse);
        Saved(u, m.world, Onward(u, Looping))
  }

  function LoopStep(cfg: Config, m: Machine, t: Task, answer: PolicyAnswer): Machine {
    if t.plan.None? then m
    else if t.cursor >= |t.plan.value| then
      Saved(Emit(cfg, t.(state := Completed), TaskCompleted), m.world, Idle)
    else if t.state == Paused then m.(pc := Idle)
    else
      var action := t.plan.value[t.cursor];
      match answer
      case PolicyError => Saved(FailedTask(cfg, t), m.world, Idle)
      case NoDecision => Saved(FailedTask(cfg, t), m.world, Idle)
      case Deny => Saved(FailedTask(cfg, t), m.world, Idle)
      case Allow => Prepared(cfg, m, t, action, false)
      case Confirm(token) =>
        if t.approved == Some(action) then Prepared(cfg, m, t.(approved := None), action, true)
        else if token.None? then Saved(FailedTask(cfg, t), m.world, Idle)
        else
          var u := t.(confirmation := Some(Confirmation(action, token.value)), state := AwaitingApproval);
          Saved(Emit(cfg, u, ApprovalRequested), m.world, Idle)
  }

  function Prepared(cfg: Config, m: Machine, t: Task, action: Id, confirm: bool): Machine {
    var u := t.(journal := t.journal + [Entry(Prepare, action)]);
    Saved(Emit(cfg, u, ActionPrepare), m.world, Executing(action, confirm))
  }

  function ExecuteStep(m: Machine, outcome: Outcome): Machine
    requires m.pc.Executing?
  {
    var w := m.world;
    var done := if m.pc.confirm then w.confirmed + multiset{m.pc.action} else w.confirmed;
    m.(world := World(w.past, w.executed + [m.pc.action], done, w.approvals),
       pc := match outcome case Throws => Thrown case Returns(ok) => Returned(ok))
  }

  /** The journal with the entry of the action in hand moved to `phase`. */
  function Marked(journal: seq<Entry>, phase: Phase): seq<Entry> {
    if journal == [] then [] else journal[..|journal| - 1] + [Entry(phase, journal[|journal| - 1].action)]
  }

  function ThrownStep(m: Machine, t: Task): Machine {
    Saved(t.(journal := Marked(t.journal, RollbackPending)), m.world, Failing(true))
  }

  function ReturnedStep(cfg: Config, m: Machine, t: Task, ok: bool): Machine {
    var u := Emit(cfg, t.(journal := Marked(t.journal, Commit), cursor := t.cursor + 1), ActionResult);
    Saved(u, m.world, if !ok then Failing(false) else Onward(u, Beating))
  }

  function BeatStep(cfg: Config, m: Machine, t: Task, now: int): Machine {
    if !Active(t.state) then m.(pc := Looping)
    else Saved(Emit(cfg, t.(lastHeartbeat := now), Heartbeat), m.world, Looping)
  }

  function GrantStep(cfg: Config, m: Machine, t: Task): Machine {
    if t.plan.None? || t.cursor >= |t.plan.value| then m
    else
      var u := t.(confirmation := None, approved := Some(t.plan.value[t.cursor]), state := Running);
      Saved(Emit(cfg, u, ApprovalGranted), m.world, Entering)
  }

  function GoOn(cfg: Config, m: Machine, t: Task, a: Answer): Machine {
    match m.pc
    case Idle => m
    case Entering => EnterStep(cfg, m, t, a.now)
    case Asking => AskStep(cfg, m, t, a.model)
    case Looping => LoopStep(cfg, m, t, a.policy)
    case Executing(_, _) => ExecuteStep(m, a.outcome)
    case Thrown => ThrownStep(m, t)
    case Returned(ok) => ReturnedStep(cfg, m, t, ok)
    case Failing(_) => Saved(FailedTask(cfg, t), m.world, Idle)
    case Beating => BeatStep(cfg, m, t, a.now)
    case Granted => GrantStep(cfg, m, t)
  }

  // --- the calls that come from outside; a call that throws changes nothing ---

  function StartCall(cfg: Config, m: Machine, now: int): Machine {
    if m.task.Some? then m
    else
      var w := m.world;
      Saved(Opened(cfg, now), World(w.past + w.executed, [], w.confirmed, w.approvals), Entering)
  }

  function ApproveCall(m: Machine, t: Task, token: string, consumed: bool): Machine {
    if t.state != AwaitingApproval || t.confirmation.None? || t.plan.None? || t.cursor >= |t.plan.value| then m
    else if token != t.confirmation.value.token || !consumed then m
    else
      var w := m.world;
      m.(world := World(w.past, w.executed, w.confirmed, w.approvals + multiset{t.plan.value[t.cursor]}),
         pc := Granted)
  }

  function After(events: seq<Event>, sequence: int): seq<Event> {
    if events == [] then []
    else
      var rest := After(events[..|events| - 1], sequence);
      if events[|events| - 1].sequence > sequence then rest + [events[|events| - 1]] else rest
  }

  function AckCall(cfg: Config, m: Machine, t: Task, sequence: int): Machine {
    if sequence < -1 then m
    else
      var u := t.(pending := After(t.pending, sequence));
      if u.state == Paused && u.pauseReason == Some("backpressure") && |u.pending| < cfg.maxOutstanding
      then Saved(Emit(cfg, u.(state := Running, pauseReason := None), RuntimeResumed), m.world, m.pc)
      else m.(task := Some(u))
  }

  function MonitorCall(cfg: Config, m: Machine, t: Task, now: int): Machine {
    if Active(t.state) && t.state != AwaitingApproval && now - t.lastHeartbeat > cfg.heartbeatTimeout
    then Saved(FailedTask(cfg, t), m.world, m.pc)
    else m
  }

  function CancelCall(cfg: Config, m: Machine, t: Task, reason: string): Machine {
    if t.state == Completed || t.state == Failed || t.state == Cancelled then m
    else Saved(Emit(cfg, t.(state := Cancelled, pauseReason := Some(reason)), TaskCancelled), m.world, m.pc)
  }

  function RecoverCall(m: Machine, now: int): Machine {
    if m.task.Some? || m.disk.None? then m else m.(task := Some(Reload(m.disk.value, now)))
  }

  function Call(cfg: Config, m: Machine, c: Choice): Machine {
    match c
    case Start(now) => StartCall(cfg, m, now)
    case Recover(now) => RecoverCall(m, now)
    case Step => if m.task.None? then m else m.(pc := Entering)
    case Approve(token, consumed) => if m.task.None? then m else ApproveCall(m, m.task.value, token, consumed)
    case Ack(sequence) => if m.task.None? then m else AckCall(cfg, m, m.task.value, sequence)
    case Monitor(now) => if m.task.None? then m else MonitorCall(cfg, m, m.task.value, now)
    case Checkpoint =>
      if m.task.None? then m else Saved(Emit(cfg, m.task.value, TaskCheckpoint), m.world, m.pc)
    case Cancel(reason) => if m.task.None? then m else CancelCall(cfg, m, m.task.value, reason)
    case Go(_) => m
    case Crash => m
  }

  /** One step.  A crash can come anywhere; calls do not overlap, so a new one waits for `Idle`. */
  function Micro(cfg: Config, m: Machine, c: Choice): Machine {
    if c.Crash? then Machine(None, m.disk, m.world, Idle)
    else if m.pc == Idle then Call(cfg, m, c)
    else if c.Go? && m.task.Some? then GoOn(cfg, m, m.task.value, c.answer)
    else m
  }

  function Run(cfg: Config, m: Machine, cs: seq<Choice>): Machine
    decreases |cs|
  {
    if cs == [] then m else Micro(cfg, Run(cfg, m, cs[..|cs| - 1]), cs[|cs| - 1])
  }

  lemma {:induction false} RunAppend(cfg: Config, m: Machine, a: seq<Choice>, b: seq<Choice>)
    ensures Run(cfg, m, a + b) == Run(cfg, Run(cfg, m, a), b)
    decreases |b|
  {
    if b == [] {
      assert a + b == a;
    } else {
      assert (a + b)[..|a + b| - 1] == a + b[..|b| - 1];
      RunAppend(cfg, m, a, b[..|b| - 1]);
    }
  }
}
